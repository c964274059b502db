/**
 * The complexity value object: a score in 0..100 built from five step
 * factors, and the level the score falls in.
 *
 * The source stores the score and the factors as floats; every value it
 * ever computes is a whole number, so they are integers here.
 */
module ComplexityValue {
  import opened Wrappers
  import opened Text

  datatype ComplexityLevel = Simple | Medium | Complex

  datatype Complexity = Complexity(score: int, level: ComplexityLevel, factors: map<string, int>)

  /** The constructor's range check. */
  function NewComplexity(score: int, level: ComplexityLevel, factors: map<string, int>): (r: Result<Complexity, string>)
    ensures r.Ok? <==> 0 <= score <= 100
    ensures r.Ok? ==> r.value == Complexity(score, level, factors)
  {
    if 0 <= score <= 100 then Ok(Complexity(score, level, factors))
    else Err("Score must be between 0-100, got " + IntToString(score))
  }

  function LinesFactor(lines: int): int {
    if lines > 500 then 30 else if lines > 300 then 20 else if lines > 150 then 10 else 0
  }

  function CategoriesFactor(categories: int): int {
    if categories > 10 then 25 else if categories > 6 then 15 else if categories > 3 then 8 else 0
  }

  function TestsFactor(tests: int): int {
    if tests > 30 then 20 else if tests > 20 then 12 else if tests > 10 then 6 else 0
  }

  function MocksFactor(mocks: int): int {
    if mocks > 5 then 15 else if mocks > 3 then 10 else if mocks > 0 then 5 else 0
  }

  function HooksFactor(hooks: int): int {
    if hooks > 3 then 10 else if hooks > 0 then 5 else 0
  }

  /** COMPLEX from 60, MEDIUM from 30, SIMPLE below. */
  function LevelOf(score: int): ComplexityLevel {
    if score >= 60 then Complex else if score >= 30 then Medium else Simple
  }

  /** `from_metrics`: the sum of the five factors, with the level of that sum. */
  function FromMetrics(lines: int, categories: int, tests: int, mocks: int, hooks: int): (c: Complexity)
    ensures 0 <= c.score <= 100
    ensures NewComplexity(c.score, c.level, c.factors) == Ok(c)
    ensures c.factors.Keys == {"lines", "categories", "tests", "mocks", "hooks"}
    ensures c.factors["lines"] + c.factors["categories"] + c.factors["tests"]
            + c.factors["mocks"] + c.factors["hooks"] == c.score
  {
    var factors := map[
      "lines" := LinesFactor(lines),
      "categories" := CategoriesFactor(categories),
      "tests" := TestsFactor(tests),
      "mocks" := MocksFactor(mocks),
      "hooks" := HooksFactor(hooks)];
    var score := LinesFactor(lines) + CategoriesFactor(categories) + TestsFactor(tests)
                 + MocksFactor(mocks) + HooksFactor(hooks);
    Complexity(score, LevelOf(score), factors)
  }

  predicate IsComplex(c: Complexity) {
    c.level == Complex
  }

  predicate NeedsRefactoring(c: Complexity) {
    c.score >= 50
  }

  /** Each factor is 0 below its lowest threshold. */
  lemma FactorsVanishBelowThresholds(lines: int, categories: int, tests: int, mocks: int, hooks: int)
    requires lines <= 150 && categories <= 3 && tests <= 10 && mocks <= 0 && hooks <= 0
    ensures FromMetrics(lines, categories, tests, mocks, hooks).score == 0
    ensures FromMetrics(lines, categories, tests, mocks, hooks).level == Simple
  {
  }

  /** Raising any count never lowers the score or the level. */
  lemma FromMetricsMonotone(lines: int, categories: int, tests: int, mocks: int, hooks: int,
                            lines': int, categories': int, tests': int, mocks': int, hooks': int)
    requires lines <= lines' && categories <= categories' && tests <= tests'
    requires mocks <= mocks' && hooks <= hooks'
    ensures FromMetrics(lines, categories, tests, mocks, hooks).score
            <= FromMetrics(lines', categories', tests', mocks', hooks').score
    ensures LevelRank(FromMetrics(lines, categories, tests, mocks, hooks).level)
            <= LevelRank(FromMetrics(lines', categories', tests', mocks', hooks').level)
  {
  }

  function LevelRank(l: ComplexityLevel): nat {
    match l
    case Simple => 0
    case Medium => 1
    case Complex => 2
  }

  /** A score from the metrics is complex exactly at 60 and above, and then it needs refactoring. */
  lemma ComplexNeedsRefactoring(lines: int, categories: int, tests: int, mocks: int, hooks: int)
    ensures var c := FromMetrics(lines, categories, tests, mocks, hooks);
      (IsComplex(c) <==> c.score >= 60) && (IsComplex(c) ==> NeedsRefactoring(c))
  {
  }

  /** The unit tests' three files and the out-of-range constructor call. */
  lemma FromMetricsExamples()
    ensures FromMetrics(100, 2, 5, 1, 1).level == Simple && FromMetrics(100, 2, 5, 1, 1).score < 30
    ensures FromMetrics(250, 5, 15, 3, 2).level == Medium
    ensures 30 <= FromMetrics(250, 5, 15, 3, 2).score < 60
    ensures FromMetrics(600, 12, 35, 8, 4).level == Complex && FromMetrics(600, 12, 35, 8, 4).score >= 60
    ensures !IsComplex(FromMetrics(100, 2, 5, 1, 1)) && IsComplex(FromMetrics(600, 12, 35, 8, 4))
    ensures !NeedsRefactoring(Complexity(45, Medium, map[])) && NeedsRefactoring(Complexity(65, Complex, map[]))
    ensures NewComplexity(150, Simple, map[]).Err?
  {
  }
}
