/**
 The calculation engine of the heat-exchanger design tool: one steady-state
 evaluation by the LMTD method and the effectiveness-NTU method.

 Every quantity is an exact real number. Temperatures are in degrees Celsius,
 mass flow rates in kg/s and specific heats in kJ/(kg K), so the stream
 duties come out in kW; the working duty, the capacity rates and everything
 that is combined with the overall coefficient U (in W/(m2 K)) are in watts.

 The block is modelled in two stages. The first takes the form inputs to the
 stream duties, the end temperature differences, the log-mean and the
 capacity rates; the second (`Assemble`) takes those numbers to the sized
 design, one function per division of the block. The natural logarithm is a
 library call whose values the engine does not characterise: it is a
 parameter `ln`, and nothing is assumed about it unless a lemma says so
 among its own hypotheses.
 */
module ThermalEngine {

  /** One fluid stream: inlet and outlet temperature, mass flow rate and specific heat. */
  datatype Fluid = Fluid(tIn: real, tOut: real, massFlow: real, cp: real)

  /** The eight form inputs: two streams and the overall heat-transfer coefficient. */
  datatype ExchangerInput = ExchangerInput(hot: Fluid, cold: Fluid, u: real)

  /** Relative direction of the two streams, chosen on the sidebar. */
  datatype Configuration = Counterflow | Parallel

  /** Every value the calculation block computes. */
  datatype ExchangerResult = ExchangerResult(
    qHot: real, qCold: real, qAvg: real, q: real,
    dT1: real, dT2: real, lmtd: real, area: real,
    cHot: real, cCold: real, cMin: real, cMax: real, cRatio: real,
    qMax: real, effectiveness: real, ntu: real, balanceErrorPct: real)

  /**
   The step at which an evaluation has no real-valued result. Each one is a
   division by zero or the logarithm of a number that is not positive.
   */
  datatype DomainError =
    | ZeroEndDelta            // dT1 / dT2 with dT2 == 0
    | NonPositiveLogArgument  // logarithm of dT1 / dT2 <= 0
    | ZeroLogarithm           // (dT1 - dT2) divided by a zero logarithm
    | ZeroAreaDivisor         // Q / (U * LMTD) with U * LMTD == 0
    | ZeroMaxCapacity         // C_min / C_max with C_max == 0
    | ZeroMaxHeat             // Q / Q_max with Q_max == 0
    | ZeroAverageDuty         // |Q_hot - Q_cold| / Q_avg with Q_avg == 0

  datatype Result<T> = Ok(value: T) | Err(error: DomainError)

  /** Below this difference between the end deltas the logarithmic mean is replaced by dT1. */
  const LmtdTolerance: real := 0.000001

  const WattsPerKilowatt: real := 1000.0

  function Abs(x: real): real
  {
    if x < 0.0 then -x else x
  }

  // ---------------------------------------------------------------------------
  // Stage one: duties, end deltas, log-mean, capacity rates
  // ---------------------------------------------------------------------------

  /** Heat given up by the hot stream, in kW. */
  function HotDuty(inp: ExchangerInput): real
  {
    inp.hot.massFlow * inp.hot.cp * (inp.hot.tIn - inp.hot.tOut)
  }

  /** Heat taken up by the cold stream, in kW. */
  function ColdDuty(inp: ExchangerInput): real
  {
    inp.cold.massFlow * inp.cold.cp * (inp.cold.tOut - inp.cold.tIn)
  }

  /**
   The temperature differences (dT1, dT2) at the two ends of the exchanger.
   In counterflow the hot inlet faces the cold outlet; in parallel flow the
   two inlets face each other.
   */
  function EndDeltas(inp: ExchangerInput, cfg: Configuration): (real, real)
  {
    match cfg
    case Counterflow => (inp.hot.tIn - inp.cold.tOut, inp.hot.tOut - inp.cold.tIn)
    case Parallel => (inp.hot.tIn - inp.cold.tIn, inp.hot.tOut - inp.cold.tOut)
  }

  /**
   Log-mean of two end deltas. When they are within the tolerance of each
   other the result is dT1 exactly. Otherwise the logarithmic mean is defined
   exactly when dT2 is non-zero, the ratio is positive and its logarithm is
   non-zero; it is then non-zero, and the mean times the logarithm of the
   ratio is the difference of the deltas.
   */
  function Lmtd(dT1: real, dT2: real, ln: real -> real): (r: Result<real>)
    ensures Abs(dT1 - dT2) < LmtdTolerance ==> r == Ok(dT1)
    ensures Abs(dT1 - dT2) >= LmtdTolerance ==>
              (r.Ok? <==> dT2 != 0.0 && dT1 / dT2 > 0.0 && ln(dT1 / dT2) != 0.0)
    ensures Abs(dT1 - dT2) >= LmtdTolerance && r.Ok? ==>
              dT2 != 0.0 && r.value * ln(dT1 / dT2) == dT1 - dT2 && r.value != 0.0
  {
    if Abs(dT1 - dT2) < LmtdTolerance then Ok(dT1)
    else if dT2 == 0.0 then Err(ZeroEndDelta)
    else if dT1 / dT2 <= 0.0 then Err(NonPositiveLogArgument)
    else if ln(dT1 / dT2) == 0.0 then Err(ZeroLogarithm)
    else Ok((dT1 - dT2) / ln(dT1 / dT2))
  }

  /** The log-mean of the configuration's end deltas has a real value. */
  predicate LmtdDefined(inp: ExchangerInput, cfg: Configuration, ln: real -> real)
  {
    var d := EndDeltas(inp, cfg);
    Lmtd(d.0, d.1, ln).Ok?
  }

  /** The LMTD of the configuration's end deltas. */
  function LogMean(inp: ExchangerInput, cfg: Configuration, ln: real -> real): real
    requires LmtdDefined(inp, cfg, ln)
  {
    var d := EndDeltas(inp, cfg);
    Lmtd(d.0, d.1, ln).value
  }

  /** Capacity rate of a stream, mass flow times specific heat, in W/K. */
  function CapacityRate(f: Fluid): real
  {
    f.massFlow * f.cp * WattsPerKilowatt
  }

  // ---------------------------------------------------------------------------
  // Stage two: the sized design
  // ---------------------------------------------------------------------------

  /** Q_avg: the mean of the two stream duties. */
  function MeanDuty(qHot: real, qCold: real): real
  {
    (qHot + qCold) / 2.0
  }

  /** Python's `min` of two numbers: the first unless the second is strictly smaller. */
  function Min(a: real, b: real): (m: real)
    ensures m <= a && m <= b
    ensures m == a || m == b
  {
    if b < a then b else a
  }

  /** Python's `max` of two numbers: the first unless the second is strictly larger. */
  function Max(a: real, b: real): (m: real)
    ensures m >= a && m >= b
    ensures m == a || m == b
  {
    if b > a then b else a
  }

  /**
   The required heat-transfer area for duty q, coefficient u and log-mean
   lmtd: the area through which u and lmtd transfer exactly q.
   */
  function Area(q: real, u: real, lmtd: real): (a: real)
    requires u * lmtd != 0.0
    ensures a * (u * lmtd) == q
  {
    QuotientTimesDivisor(q, u * lmtd);
    q / (u * lmtd)
  }

  /** C_ratio: it scales C_max to C_min. */
  function CapacityRatio(cMin: real, cMax: real): (r: real)
    requires cMax != 0.0
    ensures r * cMax == cMin
  {
    QuotientTimesDivisor(cMin, cMax);
    cMin / cMax
  }

  /** The effectiveness: times Q_max it gives back the duty. */
  function Effectiveness(q: real, qMax: real): (e: real)
    requires qMax != 0.0
    ensures e * qMax == q
  {
    QuotientTimesDivisor(q, qMax);
    q / qMax
  }

  /** NTU for coefficient u, area a and smaller capacity rate cMin: times cMin it gives back u times a. */
  function Ntu(u: real, a: real, cMin: real): (n: real)
    requires cMin != 0.0
    ensures n * cMin == u * a
  {
    QuotientTimesDivisor(u * a, cMin);
    (u * a) / cMin
  }

  /**
   The heat-balance error in percent: times the mean duty it is 100 times
   the mismatch of the two stream duties.
   */
  function BalanceErrorPct(qHot: real, qCold: real): (e: real)
    requires MeanDuty(qHot, qCold) != 0.0
    ensures e * MeanDuty(qHot, qCold) == 100.0 * Abs(qHot - qCold)
  {
    QuotientTimesDivisor(Abs(qHot - qCold), MeanDuty(qHot, qCold));
    Abs(qHot - qCold) / MeanDuty(qHot, qCold) * 100.0
  }

  /**
   How the fields of a sized design fit together, for the coefficient u and
   the inlet span Th_in - Tc_in: Q is the mean duty in watts, the area
   carries Q at u and the LMTD, C_min and C_max are the smaller and the
   larger capacity rate, C_ratio scales C_max to C_min, Q_max is C_min
   across the inlet span, the effectiveness scales Q_max to Q, NTU times
   C_min is u times the area, and the balance error times Q_avg is 100 times
   the mismatch of the duties.
   */
  predicate SizingRelations(v: ExchangerResult, u: real, inletSpan: real)
  {
    && 2.0 * v.qAvg == v.qHot + v.qCold && v.q == WattsPerKilowatt * v.qAvg
    && v.area * (u * v.lmtd) == v.q
    && v.cMin == Min(v.cHot, v.cCold) && v.cMax == Max(v.cHot, v.cCold)
    && v.cRatio * v.cMax == v.cMin
    && v.qMax == v.cMin * inletSpan && v.effectiveness * v.qMax == v.q
    && v.ntu * v.cMin == u * v.area
    && v.balanceErrorPct * v.qAvg == 100.0 * Abs(v.qHot - v.qCold)
  }

  /**
   The second stage of the block, from the stream duties, the end deltas and
   their log-mean, the coefficient, the two capacity rates and the
   difference between the two inlet temperatures. Its precondition is that
   every divisor of the stage is non-zero. The values it returns fit
   together as both design methods require.
   */
  function Assemble(qHot: real, qCold: real, dT1: real, dT2: real, lmtd: real, u: real,
                    cHot: real, cCold: real, inletSpan: real): (v: ExchangerResult)
    requires u * lmtd != 0.0
    requires Max(cHot, cCold) != 0.0
    requires Min(cHot, cCold) * inletSpan != 0.0
    requires qHot + qCold != 0.0
    ensures v.qHot == qHot && v.qCold == qCold && v.dT1 == dT1 && v.dT2 == dT2 && v.lmtd == lmtd
    ensures v.cHot == cHot && v.cCold == cCold
    ensures SizingRelations(v, u, inletSpan)
    ensures v.cMin <= v.cMax && v.cMin * v.cMax == cHot * cCold
  {
    var qAvg := MeanDuty(qHot, qCold);
    var q := qAvg * WattsPerKilowatt;
    var a := Area(q, u, lmtd);
    var cMin, cMax := Min(cHot, cCold), Max(cHot, cCold);
    ProductZero(cMin, inletSpan);
    var qMax := cMin * inletSpan;
    ExchangerResult(
      qHot, qCold, qAvg, q, dT1, dT2, lmtd, a,
      cHot, cCold, cMin, cMax, CapacityRatio(cMin, cMax),
      qMax, Effectiveness(q, qMax), Ntu(u, a, cMin), BalanceErrorPct(qHot, qCold))
  }

  // ---------------------------------------------------------------------------
  // One evaluation
  // ---------------------------------------------------------------------------

  /**
   The inputs for which every division of the calculation has a non-zero
   divisor and the logarithm, when it is used, a positive argument, stated
   on the inputs alone.
   */
  predicate WellPosed(inp: ExchangerInput, cfg: Configuration, ln: real -> real)
  {
    var d := EndDeltas(inp, cfg);
    var cHot, cCold := CapacityRate(inp.hot), CapacityRate(inp.cold);
    && (if Abs(d.0 - d.1) < LmtdTolerance then d.0 != 0.0
        else d.1 != 0.0 && d.0 / d.1 > 0.0 && ln(d.0 / d.1) != 0.0)
    && inp.u != 0.0
    && Max(cHot, cCold) != 0.0
    && Min(cHot, cCold) != 0.0
    && inp.hot.tIn != inp.cold.tIn
    && HotDuty(inp) + ColdDuty(inp) != 0.0
  }

  /**
   The calculation block for well-posed inputs: the second stage applied to
   the inputs' stream duties, end deltas, log-mean and capacity rates, none
   of whose divisors is zero.
   */
  function Compute(inp: ExchangerInput, cfg: Configuration, ln: real -> real): (v: ExchangerResult)
    requires WellPosed(inp, cfg, ln)
    ensures v.qHot == HotDuty(inp) && v.qCold == ColdDuty(inp)
    ensures (v.dT1, v.dT2) == EndDeltas(inp, cfg)
    ensures v.qAvg != 0.0 && v.cMin != 0.0 && v.lmtd != 0.0
    ensures LmtdDefined(inp, cfg, ln) && v.lmtd == LogMean(inp, cfg, ln)
    ensures v.cHot == CapacityRate(inp.hot) && v.cCold == CapacityRate(inp.cold)
    ensures SizingRelations(v, inp.u, inp.hot.tIn - inp.cold.tIn)
  {
    var d := EndDeltas(inp, cfg);
    assert LmtdDefined(inp, cfg, ln);
    var lmtd := LogMean(inp, cfg, ln);
    var cHot, cCold := CapacityRate(inp.hot), CapacityRate(inp.cold);
    ProductZero(inp.u, lmtd);
    ProductZero(Min(cHot, cCold), inp.hot.tIn - inp.cold.tIn);
    Assemble(HotDuty(inp), ColdDuty(inp), d.0, d.1, lmtd, inp.u, cHot, cCold, inp.hot.tIn - inp.cold.tIn)
  }

  /**
   The first step of the calculation, in the order the block computes them,
   that has no real-valued result. Each error it reports names a divisor
   that is zero or a logarithm argument that is not positive.
   */
  function FirstFailure(inp: ExchangerInput, cfg: Configuration, ln: real -> real): (e: DomainError)
    requires !WellPosed(inp, cfg, ln)
    ensures var d := EndDeltas(inp, cfg);
      && (e == ZeroEndDelta ==> Abs(d.0 - d.1) >= LmtdTolerance && d.1 == 0.0)
      && (e == NonPositiveLogArgument ==> Abs(d.0 - d.1) >= LmtdTolerance && d.1 != 0.0 && d.0 / d.1 <= 0.0)
      && (e == ZeroLogarithm ==>
            Abs(d.0 - d.1) >= LmtdTolerance && d.1 != 0.0 && d.0 / d.1 > 0.0 && ln(d.0 / d.1) == 0.0)
    ensures e in {ZeroAreaDivisor, ZeroMaxCapacity, ZeroMaxHeat, ZeroAverageDuty} ==> LmtdDefined(inp, cfg, ln)
    // a sizing error comes after every earlier sizing step has succeeded
    ensures e in {ZeroMaxCapacity, ZeroMaxHeat, ZeroAverageDuty} ==> inp.u * LogMean(inp, cfg, ln) != 0.0
    ensures e in {ZeroMaxHeat, ZeroAverageDuty} ==> Max(CapacityRate(inp.hot), CapacityRate(inp.cold)) != 0.0
    ensures e == ZeroAverageDuty ==>
              Min(CapacityRate(inp.hot), CapacityRate(inp.cold)) * (inp.hot.tIn - inp.cold.tIn) != 0.0
    ensures e == ZeroAreaDivisor ==> inp.u == 0.0 || EndDeltas(inp, cfg).0 == 0.0
    ensures e == ZeroMaxCapacity ==> Max(CapacityRate(inp.hot), CapacityRate(inp.cold)) == 0.0
    ensures e == ZeroMaxHeat ==>
              Min(CapacityRate(inp.hot), CapacityRate(inp.cold)) == 0.0 || inp.hot.tIn == inp.cold.tIn
    ensures e == ZeroAverageDuty ==> HotDuty(inp) + ColdDuty(inp) == 0.0
  {
    var d := EndDeltas(inp, cfg);
    var lmtd := Lmtd(d.0, d.1, ln);
    if lmtd.Err? then lmtd.error else SizingFailure(inp, cfg, ln)
  }

  /** The first failing step after the LMTD, which has a real value. */
  function SizingFailure(inp: ExchangerInput, cfg: Configuration, ln: real -> real): (e: DomainError)
    requires LmtdDefined(inp, cfg, ln) && !WellPosed(inp, cfg, ln)
    ensures e == ZeroAreaDivisor || e == ZeroMaxCapacity || e == ZeroMaxHeat || e == ZeroAverageDuty
    ensures e == ZeroAreaDivisor ==> inp.u == 0.0 || EndDeltas(inp, cfg).0 == 0.0
    ensures e == ZeroMaxCapacity ==> Max(CapacityRate(inp.hot), CapacityRate(inp.cold)) == 0.0
    ensures e == ZeroMaxHeat ==>
              Min(CapacityRate(inp.hot), CapacityRate(inp.cold)) == 0.0 || inp.hot.tIn == inp.cold.tIn
    ensures e == ZeroAverageDuty ==> HotDuty(inp) + ColdDuty(inp) == 0.0
    // the steps before the failing one all have non-zero divisors
    ensures e != ZeroAreaDivisor ==> inp.u * LogMean(inp, cfg, ln) != 0.0
    ensures e in {ZeroMaxHeat, ZeroAverageDuty} ==> Max(CapacityRate(inp.hot), CapacityRate(inp.cold)) != 0.0
    ensures e == ZeroAverageDuty ==>
              Min(CapacityRate(inp.hot), CapacityRate(inp.cold)) * (inp.hot.tIn - inp.cold.tIn) != 0.0
  {
    var lmtd := LogMean(inp, cfg, ln);
    var cMin := Min(CapacityRate(inp.hot), CapacityRate(inp.cold));
    ProductZero(inp.u, lmtd);
    ProductZero(cMin, inp.hot.tIn - inp.cold.tIn);
    if inp.u * lmtd == 0.0 then ZeroAreaDivisor
    else if Max(CapacityRate(inp.hot), CapacityRate(inp.cold)) == 0.0 then ZeroMaxCapacity
    else if cMin * (inp.hot.tIn - inp.cold.tIn) == 0.0 then ZeroMaxHeat
    else ZeroAverageDuty
  }

  /**
   One evaluation of the calculation block: the result record when the
   inputs are well-posed, and otherwise the first step that has no
   real-valued result.
   */
  function Evaluate(inp: ExchangerInput, cfg: Configuration, ln: real -> real): (r: Result<ExchangerResult>)
    ensures r.Ok? <==> WellPosed(inp, cfg, ln)
    ensures r.Ok? ==> r.value.qAvg != 0.0 && r.value.cMin != 0.0 && r.value.lmtd != 0.0
  {
    if WellPosed(inp, cfg, ln) then Ok(Compute(inp, cfg, ln)) else Err(FirstFailure(inp, cfg, ln))
  }

  // ---------------------------------------------------------------------------
  // The logarithmic mean
  // ---------------------------------------------------------------------------

  /** In the near-equal case the logarithm is never consulted: any two logarithms give dT1. */
  lemma LmtdFallbackIgnoresLog(dT1: real, dT2: real, ln1: real -> real, ln2: real -> real)
    requires Abs(dT1 - dT2) < LmtdTolerance
    ensures Lmtd(dT1, dT2, ln1) == Lmtd(dT1, dT2, ln2) == Ok(dT1)
  {
  }

  /** The logarithm's argument is positive exactly when both end deltas have the same sign. */
  lemma LogArgumentPositiveIffSameSign(dT1: real, dT2: real)
    requires dT2 != 0.0
    ensures dT1 / dT2 > 0.0 <==> (dT1 > 0.0 && dT2 > 0.0) || (dT1 < 0.0 && dT2 < 0.0)
  {
    var ratio := dT1 / dT2;
    assert dT1 == ratio * dT2;
    if dT2 > 0.0 {
      assert ratio > 0.0 <==> dT1 > 0.0;
    } else {
      assert ratio > 0.0 <==> dT1 < 0.0;
    }
  }

  /**
   Both configurations see the same total of end deltas: dT1 + dT2 is the sum
   of the hot temperatures minus the sum of the cold ones.
   */
  lemma EndDeltasSameTotal(inp: ExchangerInput)
    ensures var c := EndDeltas(inp, Counterflow);
            var p := EndDeltas(inp, Parallel);
      c.0 + c.1 == p.0 + p.1 == (inp.hot.tIn + inp.hot.tOut) - (inp.cold.tIn + inp.cold.tOut)
  {
  }

  /**
   In counterflow with equal, non-zero capacity rates, the end deltas are
   equal exactly when the two stream duties balance: the temperature drop of
   the hot stream then equals the rise of the cold one.
   */
  lemma CounterflowEqualDeltasIffBalanced(inp: ExchangerInput)
    requires CapacityRate(inp.hot) == CapacityRate(inp.cold) != 0.0
    ensures var d := EndDeltas(inp, Counterflow);
      d.0 == d.1 <==> HotDuty(inp) == ColdDuty(inp)
  {
    var c := inp.hot.massFlow * inp.hot.cp;
    assert c == inp.cold.massFlow * inp.cold.cp && c != 0.0;
    var drop := inp.hot.tIn - inp.hot.tOut;
    var rise := inp.cold.tOut - inp.cold.tIn;
    assert HotDuty(inp) == c * drop && ColdDuty(inp) == c * rise;
    ProductZero(c, drop - rise);
    assert HotDuty(inp) - ColdDuty(inp) == c * (drop - rise);
  }

  // ---------------------------------------------------------------------------
  // Duties and the heat balance
  // ---------------------------------------------------------------------------

  /**
   The heat-balance error is zero exactly when the two stream duties agree,
   and it is non-negative whenever their mean is positive.
   */
  lemma HeatBalance(qHot: real, qCold: real)
    requires MeanDuty(qHot, qCold) != 0.0
    ensures BalanceErrorPct(qHot, qCold) == 0.0 <==> qHot == qCold
    ensures MeanDuty(qHot, qCold) > 0.0 ==> BalanceErrorPct(qHot, qCold) >= 0.0
  {
    var e, avg := BalanceErrorPct(qHot, qCold), MeanDuty(qHot, qCold);
    ProductZero(e, avg);
    if avg > 0.0 && e < 0.0 {
      NegativeTimesPositive(e, avg);
    }
  }

  /**
   When both streams exchange heat in the expected direction (both duties
   positive) the heat-balance error stays in [0, 200): the mismatch of two
   positive numbers is below their sum.
   */
  lemma BalanceErrorBound(qHot: real, qCold: real)
    requires qHot > 0.0 && qCold > 0.0
    ensures MeanDuty(qHot, qCold) > 0.0
    ensures 0.0 <= BalanceErrorPct(qHot, qCold) < 200.0
  {
    var avg := MeanDuty(qHot, qCold);
    var m := Abs(qHot - qCold);
    assert 0.0 <= m < 2.0 * avg;
    ScaledBelow(BalanceErrorPct(qHot, qCold), avg, m);
  }

  // ---------------------------------------------------------------------------
  // Capacity rates, effectiveness, NTU and U
  // ---------------------------------------------------------------------------

  /**
   For two positive capacity rates the ratio of the smaller to the larger
   lies in (0, 1], and it is 1 exactly when the two rates are equal.
   */
  lemma CapacityRatioBounds(cHot: real, cCold: real)
    requires cHot > 0.0 && cCold > 0.0
    ensures Max(cHot, cCold) > 0.0
    ensures 0.0 < CapacityRatio(Min(cHot, cCold), Max(cHot, cCold)) <= 1.0
    ensures CapacityRatio(Min(cHot, cCold), Max(cHot, cCold)) == 1.0 <==> cHot == cCold
  {
    var lo, hi := Min(cHot, cCold), Max(cHot, cCold);
    var r := CapacityRatio(lo, hi);
    if r <= 0.0 {
      NegativeTimesPositive(r, hi);
    }
    if r > 1.0 {
      MonotoneTimesPositive(1.0, r, hi);
    }
  }

  /** A stream with positive mass flow and specific heat has a positive capacity rate. */
  lemma PositiveCapacity(f: Fluid)
    requires f.massFlow > 0.0 && f.cp > 0.0
    ensures CapacityRate(f) > 0.0
  {
    PositiveProduct(f.massFlow, f.cp);
    PositiveProduct(f.massFlow * f.cp, WattsPerKilowatt);
  }

  /** Against a positive Q_max the effectiveness is positive exactly when the duty is. */
  lemma EffectivenessPositive(q: real, qMax: real)
    requires qMax > 0.0
    ensures Effectiveness(q, qMax) > 0.0 <==> q > 0.0
  {
    SignOfFactor(Effectiveness(q, qMax), qMax, q);
  }

  /** Against a positive Q_max the effectiveness is at most 1 exactly when the duty does not exceed Q_max. */
  lemma EffectivenessAtMostOne(q: real, qMax: real)
    requires qMax > 0.0
    ensures Effectiveness(q, qMax) <= 1.0 <==> q <= qMax
  {
    AtMostOneFactor(Effectiveness(q, qMax), qMax, q);
  }

  /**
   U cancels out of NTU: it is the duty over C_min times the LMTD, in which
   U does not appear.
   */
  lemma NtuCancelsU(q: real, u: real, lmtd: real, cMin: real)
    requires u * lmtd != 0.0 && cMin != 0.0
    ensures cMin * lmtd != 0.0
    ensures Ntu(u, Area(q, u, lmtd), cMin) == q / (cMin * lmtd)
  {
    var a := Area(q, u, lmtd);
    var n := Ntu(u, a, cMin);
    ProductZero(u, lmtd);
    ProductZero(cMin, lmtd);
    assert n * (cMin * lmtd) == (n * cMin) * lmtd == (u * a) * lmtd == a * (u * lmtd) == q;
    QuotientUnique(q, cMin * lmtd, n);
  }

  /**
   The overall coefficient U only sizes the area: under another non-zero
   coefficient u' the area scales inversely with the coefficient and NTU is
   unchanged.
   */
  lemma OnlyAreaDependsOnU(q: real, u: real, u': real, lmtd: real, cMin: real)
    requires u * lmtd != 0.0 && u' != 0.0 && cMin != 0.0
    ensures u' * lmtd != 0.0
    ensures Area(q, u', lmtd) * u' == Area(q, u, lmtd) * u
    ensures Ntu(u', Area(q, u', lmtd), cMin) == Ntu(u, Area(q, u, lmtd), cMin)
  {
    ProductZero(u, lmtd);
    ProductZero(u', lmtd);
    var a, a' := Area(q, u, lmtd), Area(q, u', lmtd);
    assert (a' * u') * lmtd == a' * (u' * lmtd) == q == a * (u * lmtd) == (a * u) * lmtd;
    CancelFactor(a' * u', a * u, lmtd);
    NtuCancelsU(q, u, lmtd, cMin);
    NtuCancelsU(q, u', lmtd, cMin);
  }

  /**
   The configuration only chooses the end deltas: when both configurations
   are well-posed, the duties, the capacity rates and their ratio, the
   largest possible duty, the effectiveness and the heat-balance error
   agree; only dT1, dT2, LMTD, the area and NTU may differ.
   */
  lemma ConfigurationIndependence(inp: ExchangerInput, ln: real -> real)
    requires WellPosed(inp, Counterflow, ln) && WellPosed(inp, Parallel, ln)
    ensures var c := Compute(inp, Counterflow, ln);
            var p := Compute(inp, Parallel, ln);
      c == p.(dT1 := c.dT1, dT2 := c.dT2, lmtd := c.lmtd, area := c.area, ntu := c.ntu)
  {
  }

  // ---------------------------------------------------------------------------
  // Physically sensible inputs
  // ---------------------------------------------------------------------------

  /** A logarithm that vanishes nowhere on the positive reals except at 1. */
  ghost predicate VanishesOnlyAtOne(ln: real -> real)
  {
    forall x :: x > 0.0 && x != 1.0 ==> ln(x) != 0.0
  }

  /**
   Physically sensible inputs are well-posed: positive flow rates, specific
   heats and U, a hot stream that cools, a cold stream that warms, a hot
   stream warmer than the cold one at both ends, and a logarithm that is zero
   only at 1.
   */
  lemma PhysicalInputsAreWellPosed(inp: ExchangerInput, cfg: Configuration, ln: real -> real)
    requires inp.hot.massFlow > 0.0 && inp.hot.cp > 0.0
    requires inp.cold.massFlow > 0.0 && inp.cold.cp > 0.0
    requires inp.u > 0.0
    requires inp.hot.tIn > inp.hot.tOut && inp.cold.tOut > inp.cold.tIn
    requires EndDeltas(inp, cfg).0 > 0.0 && EndDeltas(inp, cfg).1 > 0.0
    requires VanishesOnlyAtOne(ln)
    ensures WellPosed(inp, cfg, ln)
  {
    var d := EndDeltas(inp, cfg);
    PositiveCapacity(inp.hot);
    PositiveCapacity(inp.cold);
    PositiveDuties(inp);
    if Abs(d.0 - d.1) >= LmtdTolerance {
      LogArgumentPositiveIffSameSign(d.0, d.1);
      NotOneUnlessEqual(d.0, d.1);
    }
    assert inp.hot.tIn > inp.cold.tIn;
  }

  /** A hot stream that cools and a cold stream that warms both have positive duties. */
  lemma PositiveDuties(inp: ExchangerInput)
    requires inp.hot.massFlow > 0.0 && inp.hot.cp > 0.0
    requires inp.cold.massFlow > 0.0 && inp.cold.cp > 0.0
    requires inp.hot.tIn > inp.hot.tOut && inp.cold.tOut > inp.cold.tIn
    ensures HotDuty(inp) > 0.0 && ColdDuty(inp) > 0.0
  {
    PositiveProduct(inp.hot.massFlow, inp.hot.cp);
    PositiveProduct(inp.cold.massFlow, inp.cold.cp);
    PositiveProduct(inp.hot.massFlow * inp.hot.cp, inp.hot.tIn - inp.hot.tOut);
    PositiveProduct(inp.cold.massFlow * inp.cold.cp, inp.cold.tOut - inp.cold.tIn);
  }

  /**
   Every outcome of an evaluation happens for some inputs, whatever the
   logarithm: a result, and each failing step except the zero logarithm,
   which needs a logarithm that vanishes somewhere other than 1 (here at 2).
   */
  lemma SomeInputsEvaluate(ln: real -> real)
    ensures exists inp :: Evaluate(inp, Counterflow, ln).Ok?
  {
    var inp := ExchangerInput(Fluid(100.0, 60.0, 1.0, 1.0), Fluid(10.0, 50.0, 1.0, 1.0), 1.0);
    assert WellPosed(inp, Counterflow, ln);
    assert Evaluate(inp, Counterflow, ln).Ok?;
  }

  lemma EveryDomainErrorOccurs(ln: real -> real, e: DomainError)
    requires e == ZeroLogarithm ==> ln(2.0) == 0.0
    ensures exists inp :: Evaluate(inp, Counterflow, ln) == Err(e)
  {
    var hot, cold, u := Fluid(100.0, 60.0, 1.0, 1.0), Fluid(10.0, 50.0, 1.0, 1.0), 1.0;
    match e {
      case ZeroEndDelta =>
        hot, cold := Fluid(100.0, 20.0, 1.0, 1.0), Fluid(20.0, 50.0, 1.0, 1.0);
      case NonPositiveLogArgument =>
        hot, cold := Fluid(100.0, 10.0, 1.0, 1.0), Fluid(20.0, 50.0, 1.0, 1.0);
      case ZeroLogarithm =>
        hot, cold := Fluid(150.0, 60.0, 1.0, 1.0), Fluid(10.0, 50.0, 1.0, 1.0);
        assert 100.0 / 50.0 == 2.0;
      case ZeroAreaDivisor =>
        u := 0.0;
      case ZeroMaxCapacity =>
        hot, cold := Fluid(100.0, 60.0, 0.0, 1.0), Fluid(10.0, 50.0, 0.0, 1.0);
      case ZeroMaxHeat =>
        hot, cold := Fluid(50.0, 60.0, 1.0, 1.0), Fluid(50.0, 40.0, 1.0, 1.0);
      case ZeroAverageDuty =>
        hot, cold := Fluid(100.0, 100.0, 1.0, 1.0), Fluid(50.0, 50.0, 1.0, 1.0);
    }
    var inp := ExchangerInput(hot, cold, u);
    assert !WellPosed(inp, Counterflow, ln);
    assert FirstFailure(inp, Counterflow, ln) == e;
    assert Evaluate(inp, Counterflow, ln) == Err(e);
  }

  // ---------------------------------------------------------------------------
  // Arithmetic on reals used by the proofs
  // ---------------------------------------------------------------------------

  lemma ProductZero(a: real, b: real)
    ensures a * b == 0.0 <==> a == 0.0 || b == 0.0
  {
  }

  lemma QuotientTimesDivisor(a: real, b: real)
    requires b != 0.0
    ensures (a / b) * b == a
  {
  }

  lemma QuotientUnique(a: real, b: real, x: real)
    requires b != 0.0 && x * b == a
    ensures x == a / b
  {
  }

  lemma ScaledBelow(e: real, avg: real, m: real)
    requires avg > 0.0 && 0.0 <= m < 2.0 * avg && e * avg == 100.0 * m
    ensures 0.0 <= e < 200.0
  {
    if e < 0.0 {
      NegativeTimesPositive(e, avg);
    }
    if e >= 200.0 {
      MonotoneTimesPositive(200.0, e, avg);
    }
  }

  lemma SignOfFactor(x: real, c: real, p: real)
    requires c > 0.0 && x * c == p
    ensures x > 0.0 <==> p > 0.0
  {
    if x <= 0.0 {
      NegativeTimesPositive(x, c);
    } else {
      PositiveProduct(x, c);
    }
  }

  lemma AtMostOneFactor(x: real, c: real, p: real)
    requires c > 0.0 && x * c == p
    ensures x <= 1.0 <==> p <= c
  {
    if x <= 1.0 {
      MonotoneTimesPositive(x, 1.0, c);
      assert 1.0 * c == c;
    } else {
      PositiveProduct(x - 1.0, c);
      assert (x - 1.0) * c == x * c - c;
    }
  }

  lemma CancelFactor(x: real, y: real, c: real)
    requires c != 0.0 && x * c == y * c
    ensures x == y
  {
    assert (x - y) * c == 0.0;
    ProductZero(x - y, c);
  }

  lemma PositiveProduct(a: real, b: real)
    requires a > 0.0 && b > 0.0
    ensures a * b > 0.0
  {
  }

  lemma NegativeTimesPositive(a: real, b: real)
    requires a <= 0.0 && b > 0.0
    ensures a * b <= 0.0
  {
  }

  lemma MonotoneTimesPositive(a: real, b: real, c: real)
    requires a <= b && c > 0.0
    ensures a * c <= b * c
  {
    PositiveProduct(b - a + 1.0, c);
    assert (b - a) * c >= 0.0;
  }

  lemma NotOneUnlessEqual(a: real, b: real)
    requires b != 0.0 && a != b
    ensures a / b != 1.0
  {
    QuotientTimesDivisor(a, b);
  }
}
