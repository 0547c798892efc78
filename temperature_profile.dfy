/**
 The temperature profile plotted under the results: both stream temperatures
 sampled at evenly spaced positions along the exchanger, as straight lines
 between the inlet and outlet temperatures.
 */
module TemperatureProfile {
  import opened ThermalEngine

  /** Number of positions at which the profile is sampled. */
  const DefaultPoints: nat := 50

  /** Both stream temperatures at one fractional position x along the exchanger. */
  datatype Sample = Sample(x: real, hot: real, cold: real)

  /**
   The i-th of n evenly spaced positions from 0 to 1, both ends included; a
   single position is 0.
   */
  function Position(i: nat, n: nat): (x: real)
    requires i < n
    ensures 0.0 <= x <= 1.0
    ensures i == 0 ==> x == 0.0
    ensures n >= 2 && i == n - 1 ==> x == 1.0
  {
    if n == 1 then 0.0 else (i as real) / ((n - 1) as real)
  }

  /** The hot stream falls linearly from its inlet at x = 0 to its outlet at x = 1, in either configuration. */
  function HotAt(inp: ExchangerInput, x: real): real
  {
    inp.hot.tIn - (inp.hot.tIn - inp.hot.tOut) * x
  }

  /**
   The cold stream: in counterflow it enters at x = 1 and leaves at x = 0;
   in parallel flow it enters at x = 0 and leaves at x = 1.
   */
  function ColdAt(inp: ExchangerInput, cfg: Configuration, x: real): real
  {
    match cfg
    case Counterflow => inp.cold.tOut - (inp.cold.tOut - inp.cold.tIn) * x
    case Parallel => inp.cold.tIn + (inp.cold.tOut - inp.cold.tIn) * x
  }

  /** The profile at n evenly spaced positions. */
  function Profile(inp: ExchangerInput, cfg: Configuration, n: nat): (p: seq<Sample>)
    ensures |p| == n
    ensures forall i :: 0 <= i < n ==> p[i].x == Position(i, n)
    ensures forall i :: 0 <= i < n ==> 0.0 <= p[i].x <= 1.0
    ensures forall i :: 0 <= i < n ==> p[i].hot == HotAt(inp, p[i].x) && p[i].cold == ColdAt(inp, cfg, p[i].x)
  {
    seq(n, (i: int) requires 0 <= i < n => var x := Position(i, n); Sample(x, HotAt(inp, x), ColdAt(inp, cfg, x)))
  }

  /** The positions strictly increase along the profile. */
  lemma PositionsIncrease(i: nat, j: nat, n: nat)
    requires i < j < n
    ensures Position(i, n) < Position(j, n)
  {
    var d := (n - 1) as real;
    assert d > 0.0;
    assert Position(j, n) - Position(i, n) == ((j - i) as real) / d;
  }

  /**
   The plotted profile has DefaultPoints = 50 samples from x = 0 to x = 1,
   one forty-ninth of the length apart.
   */
  lemma DefaultProfileSpacing(inp: ExchangerInput, cfg: Configuration)
    ensures var p := Profile(inp, cfg, DefaultPoints);
      && |p| == 50 && p[0].x == 0.0 && p[49].x == 1.0
      && forall i :: 0 <= i < 49 ==> p[i + 1].x - p[i].x == 1.0 / 49.0
  {
    var p := Profile(inp, cfg, DefaultPoints);
    forall i | 0 <= i < 49
      ensures p[i + 1].x - p[i].x == 1.0 / 49.0
    {
      assert p[i + 1].x == Position(i + 1, 50) == ((i + 1) as real) / 49.0;
      assert p[i].x == Position(i, 50) == (i as real) / 49.0;
    }
  }

  /**
   At the two ends of the profile the streams are at their inlet or outlet
   temperatures: the hot stream goes from its inlet to its outlet, and so
   does the cold stream in parallel flow, while in counterflow the cold
   stream's outlet is at x = 0 and its inlet at x = 1.
   */
  lemma ProfileEnds(inp: ExchangerInput, cfg: Configuration, n: nat)
    requires n >= 2
    ensures var p := Profile(inp, cfg, n);
      && p[0].hot == inp.hot.tIn && p[n - 1].hot == inp.hot.tOut
      && (cfg == Counterflow ==> p[0].cold == inp.cold.tOut && p[n - 1].cold == inp.cold.tIn)
      && (cfg == Parallel ==> p[0].cold == inp.cold.tIn && p[n - 1].cold == inp.cold.tOut)
  {
    var p := Profile(inp, cfg, n);
    assert p[0].x == 0.0 && p[n - 1].x == 1.0;
  }

  /**
   Every sample lies on the straight line between the two end samples, for
   either stream: the temperature at x is the one at x = 0 plus x times the
   change from one end to the other.
   */
  lemma ProfileIsStraight(inp: ExchangerInput, cfg: Configuration, n: nat, i: nat)
    requires n >= 2 && i < n
    ensures var p := Profile(inp, cfg, n);
      && p[i].hot == p[0].hot + (p[n - 1].hot - p[0].hot) * p[i].x
      && p[i].cold == p[0].cold + (p[n - 1].cold - p[0].cold) * p[i].x
  {
    ProfileEnds(inp, cfg, n);
  }

  /**
   The gap between the two curves at x = 0 and at x = 1 is the pair of end
   temperature differences the LMTD is computed from, in both configurations.
   */
  lemma ProfileGapsAreEndDeltas(inp: ExchangerInput, cfg: Configuration, n: nat)
    requires n >= 2
    ensures var p := Profile(inp, cfg, n);
      (p[0].hot - p[0].cold, p[n - 1].hot - p[n - 1].cold) == EndDeltas(inp, cfg)
  {
    ProfileEnds(inp, cfg, n);
  }

  /** The configuration changes only the cold curve: the positions and the hot curve are the same. */
  lemma HotCurveIndependentOfConfiguration(inp: ExchangerInput, n: nat)
    ensures var c, p := Profile(inp, Counterflow, n), Profile(inp, Parallel, n);
      forall i :: 0 <= i < n ==> c[i].x == p[i].x && c[i].hot == p[i].hot
  {
  }

  /** Of two or more positions, position n - 1 - i is as far from the end as position i is from the start. */
  lemma PositionMirror(i: nat, n: nat)
    requires i < n && n >= 2
    ensures Position(n - 1 - i, n) == 1.0 - Position(i, n)
  {
    var d := (n - 1) as real;
    assert ((n - 1 - i) as real) == d - (i as real);
    ComplementOverDivisor(d, i as real);
  }

  /**
   The counterflow cold curve is the parallel-flow cold curve read from the
   other end: both run between the same two temperatures, in opposite
   directions. (A single sample sits at x = 0 and is not mirrored.)
   */
  lemma ColdCurvesMirror(inp: ExchangerInput, n: nat)
    requires n >= 2
    ensures var c, p := Profile(inp, Counterflow, n), Profile(inp, Parallel, n);
      forall i :: 0 <= i < n ==> c[i].cold == p[n - 1 - i].cold
  {
    var c, p := Profile(inp, Counterflow, n), Profile(inp, Parallel, n);
    forall i | 0 <= i < n
      ensures c[i].cold == p[n - 1 - i].cold
    {
      PositionMirror(i, n);
    }
  }

  /**
   A hot stream that cools is hottest at its inlet: along the profile its
   temperature never rises, and it stays between the outlet and inlet
   temperatures.
   */
  lemma HotCurveFalls(inp: ExchangerInput, cfg: Configuration, n: nat, i: nat, j: nat)
    requires inp.hot.tIn >= inp.hot.tOut
    requires i <= j < n
    ensures var p := Profile(inp, cfg, n);
      && p[j].hot <= p[i].hot
      && inp.hot.tOut <= p[j].hot <= inp.hot.tIn
  {
    var p := Profile(inp, cfg, n);
    assert p[i].hot == HotAt(inp, p[i].x) && p[j].hot == HotAt(inp, p[j].x);
    if i < j {
      PositionsIncrease(i, j, n);
    }
    HotAtFalls(inp, p[i].x, p[j].x);
  }

  /** The hot line of a stream that cools is lower further along and stays between outlet and inlet. */
  lemma HotAtFalls(inp: ExchangerInput, xi: real, xj: real)
    requires inp.hot.tIn >= inp.hot.tOut && 0.0 <= xi <= xj <= 1.0
    ensures HotAt(inp, xj) <= HotAt(inp, xi)
    ensures inp.hot.tOut <= HotAt(inp, xj) <= inp.hot.tIn
  {
    var t0, t1 := inp.hot.tIn, inp.hot.tOut;
    FallingLine(t0, t1, xi, xj);
    assert HotAt(inp, xi) == t0 - (t0 - t1) * xi;
    assert HotAt(inp, xj) == t0 - (t0 - t1) * xj;
  }

  /**
   A line falling from t0 at x = 0 to t1 at x = 1 is lower further along and
   stays between its two end values.
   */
  lemma FallingLine(t0: real, t1: real, xi: real, xj: real)
    requires t0 >= t1 && 0.0 <= xi <= xj <= 1.0
    ensures t0 - (t0 - t1) * xj <= t0 - (t0 - t1) * xi
    ensures t1 <= t0 - (t0 - t1) * xj <= t0
  {
    var k := t0 - t1;
    ScaleOrdered(k, xi, xj);
    ScaleOrdered(k, xj, 1.0);
    ScaleOrdered(k, 0.0, xj);
  }

  /** Multiplying by a non-negative factor keeps the order. */
  lemma ScaleOrdered(k: real, a: real, b: real)
    requires k >= 0.0 && a <= b
    ensures k * a <= k * b
  {
    assert k * b - k * a == k * (b - a);
  }

  lemma ComplementOverDivisor(d: real, a: real)
    requires d != 0.0
    ensures (d - a) / d == 1.0 - a / d
  {
    assert (d - a) / d == d / d - a / d;
  }
}
