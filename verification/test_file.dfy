/**
 * The test-file entity: the parsed structure of one file, with the
 * complexity and quality it computes and stores, and the refactoring
 * decision drawn from them.
 */
module TestFileEntity {
  import opened Wrappers
  import opened Text
  import opened ComplexityValue
  import opened QualityValue
  import opened Paths

  /** The refactoring decision from a complexity, a line count and a category count. */
  predicate RefactoringNeeded(c: Complexity, totalLines: int, categoryCount: nat) {
    NeedsRefactoring(c) || totalLines > 300 || categoryCount > 6
  }

  /** A file's path, line count, imports, mock data, categories, test cases and setup hooks. */
  type FileStructure = (Path, int, seq<string>, seq<map<string, string>>, seq<string>, seq<string>, seq<string>)

  /** The refactoring decision from a file's structure and its complexity. */
  predicate NeededFrom(structure: FileStructure, c: Complexity) {
    RefactoringNeeded(c, structure.1, |structure.4|)
  }

  /** The applicable reasons, in the order lines, categories, test cases, complexity. */
  function Reasons(totalLines: int, categoryCount: nat, testCount: nat, c: Option<Complexity>): (rs: seq<string>)
    ensures |rs| <= 4
  {
    (if totalLines > 300 then ["File too long (" + IntToString(totalLines) + " lines)"] else [])
    + (if categoryCount > 6 then ["Too many categories (" + NatToString(categoryCount) + ")"] else [])
    + (if testCount > 20 then ["Too many test cases (" + NatToString(testCount) + ")"] else [])
    + (if c.Some? && c.value.score >= 60 then ["High complexity (" + IntToString(c.value.score) + ".0)"] else [])
  }

  /** `get_refactoring_reason` once the decision is known. */
  function ReasonText(needed: bool, totalLines: int, categoryCount: nat, testCount: nat, c: Option<Complexity>): string {
    if !needed then "No refactoring needed" else Join(Reasons(totalLines, categoryCount, testCount, c), "; ")
  }

  /** `recommend_action` once the decision is known. */
  function Recommendation(needed: bool, categoryCount: nat, testCount: nat): (action: string)
    ensures action in {"keep_as_is", "split_by_category", "split_by_concern", "extract_shared"}
  {
    if !needed then "keep_as_is"
    else if categoryCount > 6 then "split_by_category"
    else if testCount > 20 then "split_by_concern"
    else "extract_shared"
  }

  /**
   * A file that needs refactoring only because its score lies in [50, 60)
   * gets an empty reason: none of the listed reasons applies.
   */
  lemma ScoreOnlyReasonIsEmpty(totalLines: int, categoryCount: nat, testCount: nat, c: Complexity)
    requires totalLines <= 300 && categoryCount <= 6 && testCount <= 20 && 50 <= c.score < 60
    ensures RefactoringNeeded(c, totalLines, categoryCount)
    ensures ReasonText(true, totalLines, categoryCount, testCount, Some(c)) == ""
  {
    assert Reasons(totalLines, categoryCount, testCount, Some(c)) == [];
  }

  /** When refactoring is needed and some reason applies, the reason names it first. */
  lemma LongFileReasonFirst(totalLines: int, categoryCount: nat, testCount: nat, c: Option<Complexity>)
    requires totalLines > 300
    ensures StartsWith(ReasonText(true, totalLines, categoryCount, testCount, c),
                       "File too long (" + IntToString(totalLines) + " lines)")
  {
    var rs := Reasons(totalLines, categoryCount, testCount, c);
    var first := "File too long (" + IntToString(totalLines) + " lines)";
    assert rs[0] == first;
    if |rs| > 1 {
      assert Join(rs, "; ") == first + "; " + Join(rs[1..], "; ");
    }
  }

  /** Recommendation is first-match: keep, categories, test cases, shared extraction. */
  lemma RecommendationOrder(needed: bool, categoryCount: nat, testCount: nat)
    ensures Recommendation(needed, categoryCount, testCount) == "keep_as_is" <==> !needed
    ensures Recommendation(needed, categoryCount, testCount) == "split_by_category" <==> needed && categoryCount > 6
    ensures Recommendation(needed, categoryCount, testCount) == "split_by_concern"
            <==> needed && categoryCount <= 6 && testCount > 20
  {
  }

  /**
   * The unit tests' files, each of 100 lines without mocks or hooks: one
   * category and two tests needs nothing; ten categories split by category;
   * one category and twenty-five tests is kept as is, since neither its
   * score (12), its length nor its categories trigger refactoring.
   */
  lemma RecommendationExamples()
    ensures !RefactoringNeeded(FromMetrics(100, 1, 2, 0, 0), 100, 1)
    ensures RefactoringNeeded(FromMetrics(500, 10, 30, 0, 0), 500, 10)
    ensures Recommendation(RefactoringNeeded(FromMetrics(100, 10, 2, 0, 0), 100, 10), 10, 2) == "split_by_category"
    ensures FromMetrics(100, 1, 25, 0, 0).score == 12
    ensures Recommendation(RefactoringNeeded(FromMetrics(100, 1, 25, 0, 0), 100, 1), 1, 25) == "keep_as_is"
  {
  }

  class TestFile {
    var path: Path
    var totalLines: int
    var imports: seq<string>
    var mockData: seq<map<string, string>>
    var categories: seq<string>
    var testCases: seq<string>
    var setupHooks: seq<string>
    var complexity: Option<Complexity>
    var quality: Option<QualityScore>

    constructor(path: Path, totalLines: int, imports: seq<string>, mockData: seq<map<string, string>>,
                categories: seq<string>, testCases: seq<string>, setupHooks: seq<string>)
      ensures this.path == path && this.totalLines == totalLines && this.imports == imports && this.mockData == mockData
      ensures this.categories == categories && this.testCases == testCases && this.setupHooks == setupHooks
      ensures complexity == None && quality == None
    {
      this.path := path;
      this.totalLines := totalLines;
      this.imports := imports;
      this.mockData := mockData;
      this.categories := categories;
      this.testCases := testCases;
      this.setupHooks := setupHooks;
      complexity := None;
      quality := None;
    }

    /** The complexity of the current structure. */
    function CurrentComplexity(): Complexity
      reads this
    {
      FromMetrics(totalLines, |categories|, |testCases|, |mockData|, |setupHooks|)
    }

    /** Every field that describes the file's structure, as one value. */
    function Structure(): FileStructure
      reads this
    {
      (path, totalLines, imports, mockData, categories, testCases, setupHooks)
    }

    /** The stored complexity, or the one `needs_refactoring` would compute and store. */
    function EffectiveComplexity(): Complexity
      reads this
    {
      if complexity.Some? then complexity.value else CurrentComplexity()
    }

    /** What `needs_refactoring` answers in the current state. */
    predicate Needed()
      reads this
    {
      NeededFrom(Structure(), EffectiveComplexity())
    }

    /** `_calculate_assertion_ratio`: 0 without test cases, else the placeholder 1. */
    function AssertionRatio(): (ratio: real)
      reads this
      ensures ratio == 0.0 <==> testCases == []
      ensures ratio == 0.0 || ratio == 1.0
    {
      if testCases == [] then 0.0 else 1.0
    }

    /** `calculate_complexity`: stores and returns the complexity of the current structure. */
    method CalculateComplexity() returns (c: Complexity)
      modifies this
      ensures c == FromMetrics(totalLines, |categories|, |testCases|, |mockData|, |setupHooks|)
      ensures complexity == Some(c)
      ensures path == old(path) && totalLines == old(totalLines) && imports == old(imports) && mockData == old(mockData)
      ensures categories == old(categories) && testCases == old(testCases) && setupHooks == old(setupHooks)
      ensures quality == old(quality)
    {
      c := CurrentComplexity();
      complexity := Some(c);
    }

    /** `calculate_quality`: structure is having categories, setup is having hooks. */
    method CalculateQuality(cyclomatic: int, smells: int) returns (q: QualityScore)
      modifies this
      ensures Calculate(AssertionRatio(), |categories| > 0, cyclomatic, |setupHooks| > 0, smells) == Ok(q)
      ensures quality == Some(q) && 0 <= q.score <= 100
      ensures path == old(path) && totalLines == old(totalLines) && imports == old(imports) && mockData == old(mockData)
      ensures categories == old(categories) && testCases == old(testCases) && setupHooks == old(setupHooks)
      ensures complexity == old(complexity)
    {
      var r := Calculate(AssertionRatio(), |categories| > 0, cyclomatic, |setupHooks| > 0, smells);
      q := r.value;
      quality := Some(q);
    }

    /** `needs_refactoring`: fills in the complexity if absent, then applies the three triggers. */
    method NeedsRefactoring() returns (needed: bool)
      modifies this
      ensures old(complexity).Some? ==> unchanged(this)
      ensures complexity == Some(old(EffectiveComplexity()))
      ensures old(complexity).Some? ==> complexity == old(complexity)
      ensures old(complexity).None? ==> complexity == Some(CurrentComplexity())
      ensures complexity.Some? && needed == RefactoringNeeded(complexity.value, totalLines, |categories|)
      ensures needed == old(Needed()) && needed == Needed()
      ensures path == old(path) && totalLines == old(totalLines) && imports == old(imports) && mockData == old(mockData)
      ensures categories == old(categories) && testCases == old(testCases) && setupHooks == old(setupHooks)
      ensures quality == old(quality)
    {
      if complexity.None? {
        var _ := CalculateComplexity();
      }
      needed := RefactoringNeeded(complexity.value, totalLines, |categories|);
    }

    /** `get_refactoring_reason` */
    method GetRefactoringReason() returns (reason: string)
      modifies this
      ensures old(complexity).Some? ==> unchanged(this)
      ensures complexity == Some(old(EffectiveComplexity()))
      ensures old(complexity).Some? ==> complexity == old(complexity)
      ensures old(complexity).None? ==> complexity == Some(CurrentComplexity())
      ensures complexity.Some?
      ensures reason == ReasonText(RefactoringNeeded(complexity.value, totalLines, |categories|),
                                   totalLines, |categories|, |testCases|, complexity)
      ensures path == old(path) && totalLines == old(totalLines) && imports == old(imports) && mockData == old(mockData)
      ensures categories == old(categories) && testCases == old(testCases) && setupHooks == old(setupHooks)
      ensures quality == old(quality)
    {
      var needed := NeedsRefactoring();
      reason := ReasonText(needed, totalLines, |categories|, |testCases|, complexity);
    }

    /** `recommend_action` */
    method RecommendAction() returns (action: string)
      modifies this
      ensures old(complexity).Some? ==> unchanged(this)
      ensures complexity == Some(old(EffectiveComplexity()))
      ensures old(complexity).Some? ==> complexity == old(complexity)
      ensures old(complexity).None? ==> complexity == Some(CurrentComplexity())
      ensures complexity.Some?
      ensures action == Recommendation(RefactoringNeeded(complexity.value, totalLines, |categories|),
                                       |categories|, |testCases|)
      ensures path == old(path) && totalLines == old(totalLines) && imports == old(imports) && mockData == old(mockData)
      ensures categories == old(categories) && testCases == old(testCases) && setupHooks == old(setupHooks)
      ensures quality == old(quality)
    {
      var needed := NeedsRefactoring();
      action := Recommendation(needed, |categories|, |testCases|);
    }
  }
}
