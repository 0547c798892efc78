/**
 The performance rating shown under the effectiveness gauge: the
 effectiveness in percent falls into one of four tiers, each with a label
 and a colour for the gauge bar.
 */
module PerformanceClassifier {

  /** The four tiers, from worst to best. */
  datatype Tier = Poor | Fair | Good | Excellent
  {
    /** Position of the tier in the order Poor < Fair < Good < Excellent. */
    function Rank(): nat
    {
      match this
      case Poor => 0
      case Fair => 1
      case Good => 2
      case Excellent => 3
    }

    /** The label of the rating message. */
    function Label(): string
    {
      match this
      case Excellent => "Excellent"
      case Good => "Good"
      case Fair => "Fair"
      case Poor => "Poor"
    }

    /** The colour of the gauge bar. */
    function Color(): string
    {
      match this
      case Excellent => "green"
      case Good => "limegreen"
      case Fair => "orange"
      case Poor => "red"
    }
  }

  /** Lowest effectiveness, in percent, that earns the Fair, Good and Excellent tiers. */
  const FairFrom: real := 40.0
  const GoodFrom: real := 60.0
  const ExcellentFrom: real := 80.0

  /**
   The tier of an effectiveness given in percent. Each threshold belongs to
   the tier above it; everything below 40 is Poor, negative values and values
   above 100 included.
   */
  function Classify(pct: real): (t: Tier)
    ensures t == Excellent <==> pct >= ExcellentFrom
    ensures t == Good <==> GoodFrom <= pct < ExcellentFrom
    ensures t == Fair <==> FairFrom <= pct < GoodFrom
    ensures t == Poor <==> pct < FairFrom
  {
    if pct >= ExcellentFrom then Excellent
    else if pct >= GoodFrom then Good
    else if pct >= FairFrom then Fair
    else Poor
  }

  /** A tier's own entry condition: Poor is open to every value, the others need their threshold. */
  predicate Reaches(t: Tier, pct: real)
  {
    match t
    case Poor => true
    case Fair => pct >= FairFrom
    case Good => pct >= GoodFrom
    case Excellent => pct >= ExcellentFrom
  }

  /**
   The classification is the best tier the value reaches: it reaches its own
   tier and no tier ranked above it.
   */
  lemma ClassifyIsBestReached(pct: real, t: Tier)
    ensures Reaches(Classify(pct), pct)
    ensures t.Rank() > Classify(pct).Rank() ==> !Reaches(t, pct)
  {
  }

  /** Every tier is shown for some effectiveness on the gauge's scale from 0 to 100 percent. */
  lemma EveryTierOccurs(t: Tier)
    ensures exists pct :: 0.0 <= pct <= 100.0 && Classify(pct) == t
  {
    var pct := match t
      case Poor => 0.0
      case Fair => FairFrom
      case Good => GoodFrom
      case Excellent => ExcellentFrom;
    assert Classify(pct) == t;
  }

  /** A higher effectiveness never earns a lower tier. */
  lemma ClassifyMonotone(a: real, b: real)
    requires a <= b
    ensures Classify(a).Rank() <= Classify(b).Rank()
  {
  }

  /** Different tiers show different labels and different colours. */
  lemma LabelsAndColorsDistinct(s: Tier, t: Tier)
    requires s != t
    ensures s.Label() != t.Label()
    ensures s.Color() != t.Color()
  {
  }
}
