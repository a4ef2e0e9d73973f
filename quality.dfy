/**
 * The score classifier `score_to_quality` (vmaf.py:119-129).
 *
 * The score reaches the classifier as a Python float parsed from the measurement
 * tool's output, so it may also be an infinity or NaN.  Finite values are exact
 * reals here; the rounding of double precision is not modelled.
 */
module Quality {

  /** A Python float: a finite value, one of the two infinities, or NaN. */
  datatype Float = Finite(v: real) | PosInf | NegInf | NaN

  /** Python's `x >= t` for a float `x` and a numeric literal `t`: false for NaN. */
  predicate AtLeast(x: Float, t: real)
  {
    match x
    case Finite(v) => v >= t
    case PosInf => true
    case NegInf => false
    case NaN => false
  }

  /** Python's `a <= b` on two floats: every comparison with NaN is false. */
  predicate LessEq(a: Float, b: Float)
  {
    match (a, b)
    case (NaN, _) => false
    case (_, NaN) => false
    case (NegInf, _) => true
    case (_, PosInf) => true
    case (PosInf, _) => false
    case (_, NegInf) => false
    case (Finite(x), Finite(y)) => x <= y
  }

  /** The five quality labels, best first. */
  datatype Label = Perfect | VeryGood | Good | Fair | Poor

  /** The literal text the script puts into the mail subject for each label: "质量" and a two-character verdict. */
  function Text(q: Label): (r: string)
    ensures |r| == 4 && r[..2] == "质量"
  {
    match q
    case Perfect => "质量完美"
    case VeryGood => "质量很好"
    case Good => "质量不错"
    case Fair => "质量一般"
    case Poor => "质量较差"
  }

  /** Position of a label from worst (0) to best (4). */
  function Rank(q: Label): (r: nat)
    ensures r <= 4
  {
    match q
    case Poor => 0
    case Fair => 1
    case Good => 2
    case VeryGood => 3
    case Perfect => 4
  }

  /** The lower bound of each label's band; Poor has none. */
  function Threshold(q: Label): real
    requires q != Poor
  {
    match q
    case Perfect => 98.0
    case VeryGood => 95.0
    case Good => 90.0
    case Fair => 80.0
  }

  /** `score_to_quality`: the if/elif chain with inclusive lower bounds 98, 95, 90, 80. */
  function ScoreToQuality(score: Float): (q: Label)
    ensures q != Poor ==> AtLeast(score, Threshold(q))
    ensures forall better: Label :: Rank(better) > Rank(q) ==> !AtLeast(score, Threshold(better))
  {
    if AtLeast(score, 98.0) then Perfect
    else if AtLeast(score, 95.0) then VeryGood
    else if AtLeast(score, 90.0) then Good
    else if AtLeast(score, 80.0) then Fair
    else Poor
  }

  /** The five bands of a finite score: each label holds exactly on its half-open interval. */
  lemma FiniteBands(v: real)
    ensures ScoreToQuality(Finite(v)) == Perfect <==> v >= 98.0
    ensures ScoreToQuality(Finite(v)) == VeryGood <==> 95.0 <= v < 98.0
    ensures ScoreToQuality(Finite(v)) == Good <==> 90.0 <= v < 95.0
    ensures ScoreToQuality(Finite(v)) == Fair <==> 80.0 <= v < 90.0
    ensures ScoreToQuality(Finite(v)) == Poor <==> v < 80.0
  {
  }

  /** The boundary values: each threshold belongs to the band above it. */
  lemma BoundaryValues()
    ensures ScoreToQuality(Finite(98.0)) == Perfect
    ensures ScoreToQuality(Finite(97.9)) == VeryGood
    ensures ScoreToQuality(Finite(95.0)) == VeryGood
    ensures ScoreToQuality(Finite(90.0)) == Good
    ensures ScoreToQuality(Finite(80.0)) == Fair
    ensures ScoreToQuality(Finite(79.9)) == Poor
  {
  }

  /** The non-finite floats: +inf is perfect; -inf and NaN fail every comparison and are poor. */
  lemma NonFiniteScores()
    ensures ScoreToQuality(PosInf) == Perfect
    ensures ScoreToQuality(NegInf) == Poor
    ensures ScoreToQuality(NaN) == Poor
  {
  }

  /** A higher score never gets a worse label (Python's `<=`, so NaN is excluded by construction). */
  lemma Monotone(a: Float, b: Float)
    requires LessEq(a, b)
    ensures Rank(ScoreToQuality(a)) <= Rank(ScoreToQuality(b))
  {
    forall t: real | AtLeast(a, t)
      ensures AtLeast(b, t)
    {
    }
  }

  /** Distinct labels have distinct texts, so the subject names exactly one band. */
  lemma TextInjective(p: Label, q: Label)
    requires Text(p) == Text(q)
    ensures p == q
  {
  }
}
