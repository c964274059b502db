/**
 * The quality score value object: a score in 0..100 and its level, and the
 * additive rule that computes it from a file's metrics.
 *
 * Scores are whole numbers in every path of the source, so they are
 * integers here; the assertion ratio stays a real number.
 */
module QualityValue {
  import opened Wrappers
  import opened Text

  datatype QualityLevel = Excellent | Good | Fair | Poor

  datatype QualityScore = QualityScore(score: int, level: QualityLevel)

  /** The constructor's range check. */
  function NewQualityScore(score: int, level: QualityLevel): (r: Result<QualityScore, string>)
    ensures r.Ok? <==> 0 <= score <= 100
    ensures r.Ok? ==> r.value == QualityScore(score, level)
  {
    if 0 <= score <= 100 then Ok(QualityScore(score, level))
    else Err("Score must be between 0-100, got " + IntToString(score))
  }

  /** EXCELLENT from 80, GOOD from 60, FAIR from 40, POOR below. */
  function QualityLevelOf(score: int): QualityLevel {
    if score >= 80 then Excellent else if score >= 60 then Good else if score >= 40 then Fair else Poor
  }

  function QualityRank(l: QualityLevel): nat {
    match l
    case Poor => 0
    case Fair => 1
    case Good => 2
    case Excellent => 3
  }

  /** `from_score`: the level of the score, the score unchanged; out-of-range scores are rejected. */
  function FromScore(score: int): (r: Result<QualityScore, string>)
    ensures r.Ok? <==> 0 <= score <= 100
    ensures r.Ok? ==> r.value.score == score
  {
    NewQualityScore(score, QualityLevelOf(score))
  }

  /** A higher score never has a lower level. */
  lemma QualityLevelMonotone(s: int, t: int)
    requires s <= t
    ensures QualityRank(QualityLevelOf(s)) <= QualityRank(QualityLevelOf(t))
  {
  }

  function Clamp(x: int): (r: int)
    ensures 0 <= r <= 100
    ensures 0 <= x <= 100 ==> r == x
  {
    if x < 0 then 0 else if x > 100 then 100 else x
  }

  /** The score before clamping: smell, assertion and complexity penalties, structure and setup bonuses. */
  function RawQuality(ratio: real, hasStructure: bool, cyclomatic: int, hasSetup: bool, smells: int): int {
    100 - smells * 5
    - (if ratio < 0.5 then 30 else if ratio < 1.0 then 20 else 0)
    + (if hasStructure then 10 else 0)
    + (if hasSetup then 5 else 0)
    - (if cyclomatic > 100 then 30 else if cyclomatic > 50 then 15 else 0)
  }

  /** `calculate`: the clamped raw score; clamping keeps it in range, so it is always accepted. */
  function Calculate(ratio: real, hasStructure: bool, cyclomatic: int, hasSetup: bool, smells: int): (r: Result<QualityScore, string>)
    ensures r.Ok? && 0 <= r.value.score <= 100
    ensures r.value.level == QualityLevelOf(r.value.score)
  {
    FromScore(Clamp(RawQuality(ratio, hasStructure, cyclomatic, hasSetup, smells)))
  }

  /** More smells or a higher cyclomatic complexity never raise the score. */
  lemma CalculateAntitone(ratio: real, hasStructure: bool, hasSetup: bool,
                          cyclomatic: int, smells: int, cyclomatic': int, smells': int)
    requires cyclomatic <= cyclomatic' && smells <= smells'
    ensures Calculate(ratio, hasStructure, cyclomatic', hasSetup, smells').value.score
            <= Calculate(ratio, hasStructure, cyclomatic, hasSetup, smells).value.score
  {
  }

  /** The unit tests' scores and levels. */
  lemma QualityExamples()
    ensures FromScore(90) == Ok(QualityScore(90, Excellent))
    ensures FromScore(70) == Ok(QualityScore(70, Good))
    ensures FromScore(50) == Ok(QualityScore(50, Fair))
    ensures FromScore(30) == Ok(QualityScore(30, Poor))
    ensures var good := Calculate(1.0, true, 20, true, 0).value;
      good.score >= 60 && (good.level == Excellent || good.level == Good)
    ensures var poor := Calculate(0.3, false, 150, false, 5).value;
      poor.score < 60 && (poor.level == Poor || poor.level == Fair)
    ensures NewQualityScore(150, Excellent).Err? && NewQualityScore(-10, Poor).Err?
  {
  }
}
