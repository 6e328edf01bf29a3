/**
 * The weight-category verdict derived from a body-mass index: an ordered
 * chain of thresholds at 18.5, 25 and 30, each boundary value belonging to
 * the higher category.
 */
module WeightVerdict {
  import BodyMassIndex

  datatype Category = Underweight | Normal | Overweight | Obese

  /** The text the record reports for each category. */
  function Label(c: Category): (s: string)
    ensures s == "Underweight" || s == "Normal" || s == "Overweight" || s == "Obese"
  {
    match c
    case Underweight => "Underweight"
    case Normal => "Normal"
    case Overweight => "Overweight"
    case Obese => "Obese"
  }

  /** Position of a category in the order Underweight < Normal < Overweight < Obese. */
  function Rank(c: Category): (n: nat)
    ensures n < 4
  {
    match c
    case Underweight => 0
    case Normal => 1
    case Overweight => 2
    case Obese => 3
  }

  /** The verdict for an index: the first threshold the index falls below decides it. */
  function Classify(bmi: real): (c: Category)
    ensures c == Underweight <==> bmi < 18.5
    ensures c == Normal <==> 18.5 <= bmi < 25.0
    ensures c == Overweight <==> 25.0 <= bmi < 30.0
    ensures c == Obese <==> bmi >= 30.0
  {
    if bmi < 18.5 then Underweight
    else if bmi < 25.0 then Normal
    else if bmi < 30.0 then Overweight
    else Obese
  }

  /** Distinct categories are reported under distinct labels, so the label identifies the category. */
  lemma LabelInjective(c: Category, d: Category)
    ensures Label(c) == Label(d) <==> c == d
  {
  }

  /** The half-open interval of indices that belongs to category `c`. */
  predicate InBand(c: Category, bmi: real) {
    match c
    case Underweight => bmi < 18.5
    case Normal => 18.5 <= bmi < 25.0
    case Overweight => 25.0 <= bmi < 30.0
    case Obese => 30.0 <= bmi
  }

  /**
   * The four bands cover every index and do not overlap, and the verdict is
   * the one category whose band holds the index.
   */
  lemma ClassifyBands(bmi: real)
    ensures InBand(Classify(bmi), bmi)
    ensures forall c :: InBand(c, bmi) ==> c == Classify(bmi)
  {
  }

  /** The three boundary values themselves. */
  lemma ClassifyBoundaries()
    ensures Classify(18.5) == Normal && Label(Classify(18.5)) == "Normal"
    ensures Classify(25.0) == Overweight && Label(Classify(25.0)) == "Overweight"
    ensures Classify(30.0) == Obese && Label(Classify(30.0)) == "Obese"
  {
  }

  /** A larger index never yields a lower category. */
  lemma ClassifyMonotone(b1: real, b2: real)
    requires b1 <= b2
    ensures Rank(Classify(b1)) <= Rank(Classify(b2))
  {
  }

  /**
   * Rounding the index to hundredths before classifying can only raise the
   * category, and only as far as the category of a value half a hundredth
   * higher: every threshold is a whole number of hundredths.
   */
  lemma RoundingShiftsVerdictUpOnly(x: real)
    ensures Rank(Classify(x)) <= Rank(Classify(BodyMassIndex.Round2(x)))
    ensures Rank(Classify(BodyMassIndex.Round2(x))) <= Rank(Classify(x + 0.005))
  {
  }

  /** The verdict of a record with the given height and weight. */
  function RecordVerdict(height: real, weight: real): (c: Category)
    requires height != 0.0
    ensures Rank(Classify(weight / (height * height))) <= Rank(c)
    ensures Rank(c) <= Rank(Classify(weight / (height * height) + 0.005))
  {
    RoundingShiftsVerdictUpOnly(weight / (height * height));
    Classify(BodyMassIndex.Bmi(height, weight))
  }

  /** For a fixed height, a heavier record never receives a lower verdict. */
  lemma VerdictMonotoneInWeight(height: real, w1: real, w2: real)
    requires height != 0.0 && w1 <= w2
    ensures Rank(RecordVerdict(height, w1)) <= Rank(RecordVerdict(height, w2))
  {
    BodyMassIndex.BmiMonotoneInWeight(height, w1, w2);
    ClassifyMonotone(BodyMassIndex.Bmi(height, w1), BodyMassIndex.Bmi(height, w2));
  }
}
