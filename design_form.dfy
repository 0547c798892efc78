/**
 The design form as a whole: its default inputs, one evaluation of them in
 either configuration, and the performance rating shown for a result.
 */
module DesignForm {
  import opened ThermalEngine
  import opened PerformanceClassifier

  /**
   The values the form starts with: hot water from 150 to 90 degrees at
   2.5 kg/s, cold water from 25 to 70 degrees at 3 kg/s, both with a specific
   heat of 4.18 kJ/(kg K), and U = 500 W/(m2 K).
   */
  function Defaults(): ExchangerInput
  {
    ExchangerInput(Fluid(150.0, 90.0, 2.5, 4.18), Fluid(25.0, 70.0, 3.0, 4.18), 500.0)
  }

  /** The rating under the gauge: the tier of the effectiveness expressed in percent. */
  function Rating(v: ExchangerResult): (t: Tier)
    ensures t == Excellent <==> v.effectiveness >= 0.8
    ensures t == Good <==> 0.6 <= v.effectiveness < 0.8
    ensures t == Fair <==> 0.4 <= v.effectiveness < 0.6
    ensures t == Poor <==> v.effectiveness < 0.4
  {
    Classify(v.effectiveness * 100.0)
  }

  /**
   The default streams do not balance: the hot stream gives up 627 kW while
   the cold one takes up 564.3 kW, a heat-balance error of 200/19 percent
   (about 10.5 %).
   */
  lemma DefaultDuties()
    ensures HotDuty(Defaults()) == 627.0 && ColdDuty(Defaults()) == 564.3
    ensures MeanDuty(HotDuty(Defaults()), ColdDuty(Defaults())) == 595.65
    ensures BalanceErrorPct(HotDuty(Defaults()), ColdDuty(Defaults())) == 200.0 / 19.0
  {
    var e := BalanceErrorPct(627.0, 564.3);
    assert e * 595.65 == 6270.0;
    QuotientUnique(6270.0, 595.65, e);
  }

  /**
   The default inputs in counterflow, for a logarithm that is non-zero at
   16/13, the ratio of the end deltas 80 and 65: the evaluation succeeds
   with a duty of 595.65 kW, an LMTD of 15 over that logarithm, C_ratio 5/6,
   an effectiveness of 57/125 (45.6 %, rated Fair), an area of 79.42 m2
   times the logarithm and NTU 19/5 times it.
   */
  lemma DefaultCounterflow(ln: real -> real)
    requires ln(16.0 / 13.0) != 0.0
    ensures Evaluate(Defaults(), Counterflow, ln).Ok?
    ensures var v := Evaluate(Defaults(), Counterflow, ln).value;
      && (v.dT1, v.dT2) == (80.0, 65.0)
      && v.q == 595650.0
      && v.cHot == 10450.0 && v.cCold == 12540.0
      && v.lmtd * ln(16.0 / 13.0) == 15.0
      && v.cRatio == 5.0 / 6.0
      && v.effectiveness == 57.0 / 125.0
      && Rating(v) == Fair
      && v.area == 79.42 * ln(16.0 / 13.0)
      && v.ntu == 19.0 / 5.0 * ln(16.0 / 13.0)
  {
    var v := Evaluate(Defaults(), Counterflow, ln).value;
    assert EndDeltas(Defaults(), Counterflow) == (80.0, 65.0);
    assert 80.0 / 65.0 == 16.0 / 13.0;
    assert WellPosed(Defaults(), Counterflow, ln);
    assert v == Compute(Defaults(), Counterflow, ln);
    DefaultSizing(80.0, 65.0, v.lmtd, ln(16.0 / 13.0), v);
  }

  /**
   The default inputs in parallel flow, for a logarithm that is non-zero at
   25/4, the ratio of the end deltas 125 and 20: the evaluation succeeds
   with the same duty, C_ratio and effectiveness as in counterflow, an LMTD
   of 105 over that logarithm and NTU 19/35 times it.
   */
  lemma DefaultParallel(ln: real -> real)
    requires ln(25.0 / 4.0) != 0.0
    ensures Evaluate(Defaults(), Parallel, ln).Ok?
    ensures var v := Evaluate(Defaults(), Parallel, ln).value;
      && (v.dT1, v.dT2) == (125.0, 20.0)
      && v.q == 595650.0
      && v.cHot == 10450.0 && v.cCold == 12540.0
      && v.lmtd * ln(25.0 / 4.0) == 105.0
      && v.cRatio == 5.0 / 6.0
      && v.effectiveness == 57.0 / 125.0
      && Rating(v) == Fair
      && v.ntu == 19.0 / 35.0 * ln(25.0 / 4.0)
  {
    var v := Evaluate(Defaults(), Parallel, ln).value;
    assert EndDeltas(Defaults(), Parallel) == (125.0, 20.0);
    assert 125.0 / 20.0 == 25.0 / 4.0;
    assert WellPosed(Defaults(), Parallel, ln);
    assert v == Compute(Defaults(), Parallel, ln);
    DefaultSizing(125.0, 20.0, v.lmtd, ln(25.0 / 4.0), v);
  }

  /**
   The second stage on the default duties and capacity rates, for end deltas
   whose log-mean times the logarithm l is their difference.
   */
  lemma DefaultSizing(dT1: real, dT2: real, lmtd: real, l: real, v: ExchangerResult)
    requires l != 0.0 && dT1 != dT2 && lmtd * l == dT1 - dT2
    requires v == Assemble(627.0, 564.3, dT1, dT2, lmtd, 500.0, 10450.0, 12540.0, 125.0)
    ensures v.q == 595650.0
    ensures v.cRatio == 5.0 / 6.0
    ensures v.effectiveness == 57.0 / 125.0
    ensures v.area * (dT1 - dT2) == 1191.3 * l
    ensures v.ntu * (dT1 - dT2) == 57.0 * l
  {
  }
}
