/**
 * The code-smell detector: six independent checks over a test file's
 * structure, each yielding at most one smell (the mock check at most two),
 * concatenated in a fixed order, and the per-severity summary of a list of
 * smells.
 */
module SmellDetector {
  import opened Text
  import opened Paths
  import opened TestFileEntity

  /** The smell tags the detector emits, in the order of its checks. */
  datatype SmellKind = LongTestFile | TooManyCategories | NoCategories | TooManyTests | MockOverload
                     | NoSetupWithMocks | FlatStructure | TooManyHooks

  /** The tag each kind is reported under. */
  function KindName(k: SmellKind): string {
    match k
    case LongTestFile => "long_test_file"
    case TooManyCategories => "too_many_categories"
    case NoCategories => "no_categories"
    case TooManyTests => "too_many_tests"
    case MockOverload => "mock_overload"
    case NoSetupWithMocks => "no_setup_with_mocks"
    case FlatStructure => "flat_structure"
    case TooManyHooks => "too_many_hooks"
  }

  /** The three severities the detector assigns. */
  datatype Severity = Low | Medium | High

  /** One detected smell. */
  datatype CodeSmell = CodeSmell(kind: SmellKind, severity: Severity, description: string, location: string,
                                 suggestion: string)

  // The detector's severity thresholds: a count strictly above the bound triggers the severity.
  const LongFileHigh := 500
  const LongFileMedium := 300
  const ManyCategoriesHigh := 10
  const ManyCategoriesMedium := 6
  const ManyTestsHigh := 30
  const ManyTestsMedium := 20
  const ManyMocksHigh := 10
  const ManyMocksMedium := 5

  // The wording of each smell: the head of its description and its suggestion.
  const LongHighText := "Test file is too long ("
  const LongHighAdvice := "Split into multiple files by category or concern"
  const LongMediumText := "Test file is getting long ("
  const LongMediumAdvice := "Consider splitting if adding more tests"
  const CategoriesHighText := "Too many test categories ("
  const CategoriesHighAdvice := "Split by category into separate files"
  const CategoriesMediumText := "Many test categories ("
  const CategoriesMediumAdvice := "Consider organizing into fewer categories"
  const NoCategoriesText := "Tests not organized into categories"
  const NoCategoriesAdvice := "Group related tests using describe blocks"
  const TestsHighText := "Too many test cases ("
  const TestsHighAdvice := "Split by testing concern or feature"
  const TestsMediumText := "Many test cases ("
  const TestsMediumAdvice := "Consider splitting large test suites"
  const MocksHighText := "Too many mock definitions ("
  const MocksHighAdvice := "Extract shared mocks to test utilities"
  const MocksMediumText := "Many mock definitions ("
  const MocksMediumAdvice := "Consider extracting common mocks"
  const NoSetupText := "Mocks defined but no setup hooks"
  const NoSetupAdvice := "Use beforeEach/beforeAll for mock setup"
  const FlatText := "Tests lack hierarchical structure"
  const FlatAdvice := "Group related tests in describe blocks"
  const HooksText := "Too many setup hooks ("
  const HooksAdvice := "Simplify test setup/teardown logic"
  const LinesClose := " lines)"
  const Close := ")"

  /** Where every smell of a file is reported: the rendered path of the file. */
  function Location(s: FileStructure): string {
    Render(s.0)
  }

  /** `_check_file_length` */
  function CheckFileLength(s: FileStructure): (r: seq<CodeSmell>)
    ensures |r| <= 1
    ensures r != [] <==> s.1 > LongFileMedium
    ensures r != [] ==> r[0].kind == LongTestFile && r[0].location == Location(s)
    ensures r != [] ==> (r[0].severity == High <==> s.1 > LongFileHigh)
    ensures r != [] ==> (r[0].severity == Medium <==> s.1 <= LongFileHigh)
  {
    var lines := s.1;
    if lines > LongFileHigh then
      [CodeSmell(LongTestFile, High, LongHighText + IntToString(lines) + LinesClose,
                 Location(s), LongHighAdvice)]
    else if lines > LongFileMedium then
      [CodeSmell(LongTestFile, Medium, LongMediumText + IntToString(lines) + LinesClose,
                 Location(s), LongMediumAdvice)]
    else []
  }

  /** `_check_categories`: too many categories, or none at all in a file of more than ten tests. */
  function CheckCategories(s: FileStructure): (r: seq<CodeSmell>)
    ensures |r| <= 1
    ensures r != [] <==> |s.4| > ManyCategoriesMedium || (|s.4| == 0 && |s.5| > 10)
    ensures r != [] ==> r[0].location == Location(s)
    ensures r != [] ==> (r[0].kind == NoCategories <==> |s.4| == 0)
    ensures r != [] ==> (r[0].kind == TooManyCategories <==> |s.4| > ManyCategoriesMedium)
    ensures r != [] ==> (r[0].severity == High <==> |s.4| > ManyCategoriesHigh)
    ensures r != [] ==> (r[0].severity == Medium <==> |s.4| <= ManyCategoriesHigh)
  {
    var count := |s.4|;
    if count > ManyCategoriesHigh then
      [CodeSmell(TooManyCategories, High, CategoriesHighText + NatToString(count) + Close,
                 Location(s), CategoriesHighAdvice)]
    else if count > ManyCategoriesMedium then
      [CodeSmell(TooManyCategories, Medium, CategoriesMediumText + NatToString(count) + Close,
                 Location(s), CategoriesMediumAdvice)]
    else if count == 0 && |s.5| > 10 then
      [CodeSmell(NoCategories, Medium, NoCategoriesText,
                 Location(s), NoCategoriesAdvice)]
    else []
  }

  /** `_check_test_count` */
  function CheckTestCount(s: FileStructure): (r: seq<CodeSmell>)
    ensures |r| <= 1
    ensures r != [] <==> |s.5| > ManyTestsMedium
    ensures r != [] ==> r[0].kind == TooManyTests && r[0].location == Location(s)
    ensures r != [] ==> (r[0].severity == High <==> |s.5| > ManyTestsHigh)
    ensures r != [] ==> (r[0].severity == Medium <==> |s.5| <= ManyTestsHigh)
  {
    var count := |s.5|;
    if count > ManyTestsHigh then
      [CodeSmell(TooManyTests, High, TestsHighText + NatToString(count) + Close,
                 Location(s), TestsHighAdvice)]
    else if count > ManyTestsMedium then
      [CodeSmell(TooManyTests, Medium, TestsMediumText + NatToString(count) + Close,
                 Location(s), TestsMediumAdvice)]
    else []
  }

  /** The overload part of `_check_mocks`. */
  function CheckMockOverload(s: FileStructure): (r: seq<CodeSmell>)
    ensures |r| <= 1
    ensures r != [] <==> |s.3| > ManyMocksMedium
    ensures r != [] ==> r[0].kind == MockOverload && r[0].location == Location(s)
    ensures r != [] ==> (r[0].severity == High <==> |s.3| > ManyMocksHigh)
    ensures r != [] ==> (r[0].severity == Medium <==> |s.3| <= ManyMocksHigh)
  {
    var count := |s.3|;
    if count > ManyMocksHigh then
      [CodeSmell(MockOverload, High, MocksHighText + NatToString(count) + Close,
                 Location(s), MocksHighAdvice)]
    else if count > ManyMocksMedium then
      [CodeSmell(MockOverload, Medium, MocksMediumText + NatToString(count) + Close,
                 Location(s), MocksMediumAdvice)]
    else []
  }

  /** The setup part of `_check_mocks`: mocks without any setup hook. */
  function CheckNoSetup(s: FileStructure): (r: seq<CodeSmell>)
    ensures |r| <= 1
    ensures r != [] <==> |s.3| > 0 && s.6 == []
    ensures r != [] ==> r[0].kind == NoSetupWithMocks && r[0].severity == Low && r[0].location == Location(s)
  {
    if |s.3| > 0 && s.6 == [] then
      [CodeSmell(NoSetupWithMocks, Low, NoSetupText,
                 Location(s), NoSetupAdvice)]
    else []
  }

  /** `_check_mocks`: the overload smell, if any, then the missing-setup smell, if any. */
  function CheckMocks(s: FileStructure): (r: seq<CodeSmell>)
    ensures |r| <= 2
  {
    CheckMockOverload(s) + CheckNoSetup(s)
  }

  /** `_check_structure`: a flat file of more than five tests. */
  function CheckStructure(s: FileStructure): (r: seq<CodeSmell>)
    ensures |r| <= 1
    ensures r != [] <==> s.4 == [] && |s.5| > 5
    ensures r != [] ==> r[0].kind == FlatStructure && r[0].severity == Low && r[0].location == Location(s)
  {
    if s.4 == [] && |s.5| > 5 then
      [CodeSmell(FlatStructure, Low, FlatText,
                 Location(s), FlatAdvice)]
    else []
  }

  /** `_check_setup_hooks`: more than three hooks. */
  function CheckSetupHooks(s: FileStructure): (r: seq<CodeSmell>)
    ensures |r| <= 1
    ensures r != [] <==> |s.6| > 3
    ensures r != [] ==> r[0].kind == TooManyHooks && r[0].severity == Medium && r[0].location == Location(s)
  {
    if |s.6| > 3 then
      [CodeSmell(TooManyHooks, Medium, HooksText + NatToString(|s.6|) + Close,
                 Location(s), HooksAdvice)]
    else []
  }

  /** `detect` on a file's structure: the six checks, concatenated in their fixed order. */
  function DetectIn(s: FileStructure): (r: seq<CodeSmell>)
    ensures |r| <= 7
  {
    CheckFileLength(s) + CheckCategories(s) + CheckTestCount(s) + CheckMocks(s) + CheckStructure(s)
    + CheckSetupHooks(s)
  }

  /** `detect` */
  function Detect(tf: TestFile): (r: seq<CodeSmell>)
    reads tf
    ensures |r| <= 7
  {
    DetectIn(tf.Structure())
  }

  /** The position of each kind in the fixed order of the checks. */
  function Rank(kind: SmellKind): nat {
    match kind
    case LongTestFile => 0
    case TooManyCategories | NoCategories => 1
    case TooManyTests => 2
    case MockOverload => 3
    case NoSetupWithMocks => 4
    case FlatStructure => 5
    case TooManyHooks => 6
  }

  /** The kinds of a list of smells, in order. */
  predicate RanksIncrease(r: seq<CodeSmell>) {
    forall i, j :: 0 <= i < j < |r| ==> Rank(r[i].kind) < Rank(r[j].kind)
  }

  /** A check's output: at most one smell, and only of a kind of rank `k`. */
  predicate RankedPart(p: seq<CodeSmell>, k: nat) {
    |p| <= 1 && (p != [] ==> Rank(p[0].kind) == k)
  }

  /** The ranks increase and all lie below `k`. */
  predicate RanksBelow(r: seq<CodeSmell>, k: nat) {
    RanksIncrease(r) && forall i :: 0 <= i < |r| ==> Rank(r[i].kind) < k
  }

  /** Appending a ranked part whose rank exceeds every rank so far keeps the ranks increasing. */
  lemma RanksIncreaseAppend(a: seq<CodeSmell>, p: seq<CodeSmell>, k: nat)
    requires RanksBelow(a, k) && RankedPart(p, k)
    ensures RanksBelow(a + p, k + 1)
  {
    if p != [] {
      assert (a + p)[|a|] == p[0];
    }
  }

  /** Seven ranked parts of ranks 0 to 6, concatenated in that order, have increasing ranks. */
  lemma RankedConcat(a: seq<CodeSmell>, b: seq<CodeSmell>, c: seq<CodeSmell>, d: seq<CodeSmell>,
                     e: seq<CodeSmell>, f: seq<CodeSmell>, g: seq<CodeSmell>)
    requires RankedPart(a, 0) && RankedPart(b, 1) && RankedPart(c, 2) && RankedPart(d, 3)
    requires RankedPart(e, 4) && RankedPart(f, 5) && RankedPart(g, 6)
    ensures RanksIncrease(a + b + c + d + e + f + g)
  {
    var r: seq<CodeSmell> := [];
    assert RanksBelow(r, 0);
    RanksIncreaseAppend(r, a, 0);
    assert r + a == a;
    RanksIncreaseAppend(a, b, 1);
    var ab := a + b;
    RanksIncreaseAppend(ab, c, 2);
    var abc := ab + c;
    RanksIncreaseAppend(abc, d, 3);
    var abcd := abc + d;
    RanksIncreaseAppend(abcd, e, 4);
    var abcde := abcd + e;
    RanksIncreaseAppend(abcde, f, 5);
    var abcdef := abcde + f;
    RanksIncreaseAppend(abcdef, g, 6);
    assert RanksBelow(abcdef + g, 7);
  }

  /**
   * The smells come out in the order of the checks: length, categories,
   * tests, mock overload, missing setup, structure, hooks. No kind is
   * reported twice.
   */
  lemma DetectOrder(s: FileStructure)
    ensures RanksIncrease(DetectIn(s))
    ensures forall i, j :: 0 <= i < j < |DetectIn(s)| ==> DetectIn(s)[i].kind != DetectIn(s)[j].kind
  {
    var a, b, c, d := CheckFileLength(s), CheckCategories(s), CheckTestCount(s), CheckMockOverload(s);
    var e, f, g := CheckNoSetup(s), CheckStructure(s), CheckSetupHooks(s);
    assert DetectIn(s) == a + b + c + d + e + f + g;
    RankedConcat(a, b, c, d, e, f, g);
  }

  /** Whether some smell of the list has the given kind. */
  predicate HasKind(r: seq<CodeSmell>, kind: SmellKind) {
    exists i :: 0 <= i < |r| && r[i].kind == kind
  }

  /** Whether some smell of the list has the given kind and severity. */
  predicate HasSmell(r: seq<CodeSmell>, kind: SmellKind, severity: Severity) {
    exists i :: 0 <= i < |r| && r[i].kind == kind && r[i].severity == severity
  }

  /** A smell is in a concatenation exactly when it is in one of the two lists. */
  lemma HasAppend(a: seq<CodeSmell>, b: seq<CodeSmell>, kind: SmellKind, severity: Severity)
    ensures HasKind(a + b, kind) <==> HasKind(a, kind) || HasKind(b, kind)
    ensures HasSmell(a + b, kind, severity) <==> HasSmell(a, kind, severity) || HasSmell(b, kind, severity)
  {
    HasKindAppend(a, b, kind);
    HasSmellAppend(a, b, kind, severity);
  }

  lemma HasKindAppend(a: seq<CodeSmell>, b: seq<CodeSmell>, kind: SmellKind)
    ensures HasKind(a + b, kind) <==> HasKind(a, kind) || HasKind(b, kind)
  {
    if HasKind(a + b, kind) {
      var i :| 0 <= i < |a + b| && (a + b)[i].kind == kind;
      if i >= |a| {
        assert b[i - |a|] == (a + b)[i];
      } else {
        assert a[i] == (a + b)[i];
      }
    }
    if HasKind(a, kind) {
      var i :| 0 <= i < |a| && a[i].kind == kind;
      assert (a + b)[i] == a[i];
    }
    if HasKind(b, kind) {
      var i :| 0 <= i < |b| && b[i].kind == kind;
      assert (a + b)[|a| + i] == b[i];
    }
  }

  lemma HasSmellAppend(a: seq<CodeSmell>, b: seq<CodeSmell>, kind: SmellKind, severity: Severity)
    ensures HasSmell(a + b, kind, severity) <==> HasSmell(a, kind, severity) || HasSmell(b, kind, severity)
  {
    if HasSmell(a + b, kind, severity) {
      var i :| 0 <= i < |a + b| && (a + b)[i].kind == kind && (a + b)[i].severity == severity;
      if i >= |a| {
        assert b[i - |a|] == (a + b)[i];
      } else {
        assert a[i] == (a + b)[i];
      }
    }
    if HasSmell(a, kind, severity) {
      var i :| 0 <= i < |a| && a[i].kind == kind && a[i].severity == severity;
      assert (a + b)[i] == a[i];
    }
    if HasSmell(b, kind, severity) {
      var i :| 0 <= i < |b| && b[i].kind == kind && b[i].severity == severity;
      assert (a + b)[|a| + i] == b[i];
    }
  }

  /** In a list of at most one smell, a smell is present exactly when it is the first. */
  lemma HasInSingle(p: seq<CodeSmell>, kind: SmellKind, severity: Severity)
    requires |p| <= 1
    ensures HasKind(p, kind) <==> p != [] && p[0].kind == kind
    ensures HasSmell(p, kind, severity) <==> p != [] && p[0].kind == kind && p[0].severity == severity
  {
    if p != [] {
      assert p[0] == p[0];
    }
  }

  /** In seven ranked parts, a smell can only come from the part of its kind's rank. */
  lemma HasInRankedConcat(a: seq<CodeSmell>, b: seq<CodeSmell>, c: seq<CodeSmell>, d: seq<CodeSmell>,
                          e: seq<CodeSmell>, f: seq<CodeSmell>, g: seq<CodeSmell>, kind: SmellKind, severity: Severity)
    requires RankedPart(a, 0) && RankedPart(b, 1) && RankedPart(c, 2) && RankedPart(d, 3)
    requires RankedPart(e, 4) && RankedPart(f, 5) && RankedPart(g, 6)
    ensures var p := [a, b, c, d, e, f, g][Rank(kind)];
      && (HasKind(a + b + c + d + e + f + g, kind) <==> p != [] && p[0].kind == kind)
      && (HasSmell(a + b + c + d + e + f + g, kind, severity) <==> p != [] && p[0].kind == kind && p[0].severity == severity)
  {
    KindInRankedConcat(a, b, c, d, e, f, g, kind, severity);
    SmellInRankedConcat(a, b, c, d, e, f, g, kind, severity);
  }

  lemma KindInRankedConcat(a: seq<CodeSmell>, b: seq<CodeSmell>, c: seq<CodeSmell>, d: seq<CodeSmell>,
                           e: seq<CodeSmell>, f: seq<CodeSmell>, g: seq<CodeSmell>, kind: SmellKind, severity: Severity)
    requires RankedPart(a, 0) && RankedPart(b, 1) && RankedPart(c, 2) && RankedPart(d, 3)
    requires RankedPart(e, 4) && RankedPart(f, 5) && RankedPart(g, 6)
    ensures var p := [a, b, c, d, e, f, g][Rank(kind)];
      HasKind(a + b + c + d + e + f + g, kind) <==> p != [] && p[0].kind == kind
  {
    var ab, abc, abcd, abcde, abcdef := a + b, a + b + c, a + b + c + d, a + b + c + d + e, a + b + c + d + e + f;
    HasKindAppend(a, b, kind);
    HasKindAppend(ab, c, kind);
    HasKindAppend(abc, d, kind);
    HasKindAppend(abcd, e, kind);
    HasKindAppend(abcde, f, kind);
    HasKindAppend(abcdef, g, kind);
    HasInSingle(a, kind, severity);
    HasInSingle(b, kind, severity);
    HasInSingle(c, kind, severity);
    HasInSingle(d, kind, severity);
    HasInSingle(e, kind, severity);
    HasInSingle(f, kind, severity);
    HasInSingle(g, kind, severity);
  }

  lemma SmellInRankedConcat(a: seq<CodeSmell>, b: seq<CodeSmell>, c: seq<CodeSmell>, d: seq<CodeSmell>,
                            e: seq<CodeSmell>, f: seq<CodeSmell>, g: seq<CodeSmell>, kind: SmellKind, severity: Severity)
    requires RankedPart(a, 0) && RankedPart(b, 1) && RankedPart(c, 2) && RankedPart(d, 3)
    requires RankedPart(e, 4) && RankedPart(f, 5) && RankedPart(g, 6)
    ensures var p := [a, b, c, d, e, f, g][Rank(kind)];
      HasSmell(a + b + c + d + e + f + g, kind, severity) <==> p != [] && p[0].kind == kind && p[0].severity == severity
  {
    var ab, abc, abcd, abcde, abcdef := a + b, a + b + c, a + b + c + d, a + b + c + d + e, a + b + c + d + e + f;
    HasSmellAppend(a, b, kind, severity);
    HasSmellAppend(ab, c, kind, severity);
    HasSmellAppend(abc, d, kind, severity);
    HasSmellAppend(abcd, e, kind, severity);
    HasSmellAppend(abcde, f, kind, severity);
    HasSmellAppend(abcdef, g, kind, severity);
    HasInSingle(a, kind, severity);
    HasInSingle(b, kind, severity);
    HasInSingle(c, kind, severity);
    HasInSingle(d, kind, severity);
    HasInSingle(e, kind, severity);
    HasInSingle(f, kind, severity);
    HasInSingle(g, kind, severity);
  }

  /** Whether `detect` reports the given kind, and whether with the given severity, read off its one check. */
  lemma DetectHas(s: FileStructure, kind: SmellKind, severity: Severity)
    ensures var p := Parts(s)[Rank(kind)];
      && (HasKind(DetectIn(s), kind) <==> p != [] && p[0].kind == kind)
      && (HasSmell(DetectIn(s), kind, severity) <==> p != [] && p[0].kind == kind && p[0].severity == severity)
  {
    var a, b, c, d := CheckFileLength(s), CheckCategories(s), CheckTestCount(s), CheckMockOverload(s);
    var e, f, g := CheckNoSetup(s), CheckStructure(s), CheckSetupHooks(s);
    assert DetectIn(s) == a + b + c + d + e + f + g;
    assert Parts(s) == [a, b, c, d, e, f, g];
    HasInRankedConcat(a, b, c, d, e, f, g, kind, severity);
  }

  /** The output of each check, in the order `detect` concatenates them. */
  function Parts(s: FileStructure): seq<seq<CodeSmell>> {
    [CheckFileLength(s), CheckCategories(s), CheckTestCount(s), CheckMockOverload(s), CheckNoSetup(s),
     CheckStructure(s), CheckSetupHooks(s)]
  }

  /** The detected smells, check by check, with the strict thresholds and the conditions of the flat-file smells. */
  lemma DetectConditions(s: FileStructure)
    ensures HasKind(DetectIn(s), LongTestFile) <==> s.1 > 300
    ensures HasSmell(DetectIn(s), LongTestFile, High) <==> s.1 > 500
    ensures HasKind(DetectIn(s), TooManyCategories) <==> |s.4| > 6
    ensures HasSmell(DetectIn(s), TooManyCategories, High) <==> |s.4| > 10
    ensures HasKind(DetectIn(s), NoCategories) <==> |s.4| == 0 && |s.5| > 10
    ensures HasKind(DetectIn(s), TooManyTests) <==> |s.5| > 20
    ensures HasSmell(DetectIn(s), TooManyTests, High) <==> |s.5| > 30
    ensures HasKind(DetectIn(s), MockOverload) <==> |s.3| > 5
    ensures HasSmell(DetectIn(s), MockOverload, High) <==> |s.3| > 10
    ensures HasKind(DetectIn(s), NoSetupWithMocks) <==> |s.3| > 0 && s.6 == []
    ensures HasKind(DetectIn(s), FlatStructure) <==> s.4 == [] && |s.5| > 5
    ensures HasKind(DetectIn(s), TooManyHooks) <==> |s.6| > 3
  {
    LengthCondition(s);
    CategoriesCondition(s);
    TestsCondition(s);
    MocksCondition(s);
    DetectHas(s, FlatStructure, Low);
    DetectHas(s, TooManyHooks, Medium);
  }

  /** The long-file smell: reported above 300 lines, at high severity above 500. */
  lemma LengthCondition(s: FileStructure)
    ensures HasKind(DetectIn(s), LongTestFile) <==> s.1 > 300
    ensures HasSmell(DetectIn(s), LongTestFile, High) <==> s.1 > 500
  {
    DetectHas(s, LongTestFile, High);
  }

  /** The category smells: too many above 6 categories (high above 10); none at all when there are more than 10 tests. */
  lemma CategoriesCondition(s: FileStructure)
    ensures HasKind(DetectIn(s), TooManyCategories) <==> |s.4| > 6
    ensures HasSmell(DetectIn(s), TooManyCategories, High) <==> |s.4| > 10
    ensures HasKind(DetectIn(s), NoCategories) <==> |s.4| == 0 && |s.5| > 10
  {
    DetectHas(s, TooManyCategories, High);
    DetectHas(s, NoCategories, High);
  }

  /** The test-count smell: reported above 20 tests, at high severity above 30. */
  lemma TestsCondition(s: FileStructure)
    ensures HasKind(DetectIn(s), TooManyTests) <==> |s.5| > 20
    ensures HasSmell(DetectIn(s), TooManyTests, High) <==> |s.5| > 30
  {
    DetectHas(s, TooManyTests, High);
    assert Parts(s)[Rank(TooManyTests)] == CheckTestCount(s);
  }

  /** The mock smells: overload above 5 mocks (high above 10); missing setup when there are mocks and no hooks. */
  lemma MocksCondition(s: FileStructure)
    ensures HasKind(DetectIn(s), MockOverload) <==> |s.3| > 5
    ensures HasSmell(DetectIn(s), MockOverload, High) <==> |s.3| > 10
    ensures HasKind(DetectIn(s), NoSetupWithMocks) <==> |s.3| > 0 && s.6 == []
  {
    DetectHas(s, MockOverload, High);
    DetectHas(s, NoSetupWithMocks, Low);
  }

  // ---------------------------------------------------------------------
  // Summary
  // ---------------------------------------------------------------------

  /** `get_summary`'s record. */
  datatype Summary = Summary(total: nat, high: nat, medium: nat, low: nat)

  /** How many smells have the given severity. */
  function CountSeverity(smells: seq<CodeSmell>, severity: Severity): (n: nat)
    ensures n <= |smells|
  {
    if smells == [] then 0
    else CountSeverity(smells[..|smells| - 1], severity) + (if smells[|smells| - 1].severity == severity then 1 else 0)
  }

  /** `get_summary`: every smell is counted under exactly one of the three severities. */
  function GetSummary(smells: seq<CodeSmell>): (s: Summary)
    ensures s.total == |smells|
    ensures s.total == s.high + s.medium + s.low
  {
    SeveritiesPartition(smells);
    Summary(|smells|, CountSeverity(smells, High), CountSeverity(smells, Medium), CountSeverity(smells, Low))
  }

  /** The three severity counts add up to the number of smells. */
  lemma {:induction false} SeveritiesPartition(smells: seq<CodeSmell>)
    ensures CountSeverity(smells, High) + CountSeverity(smells, Medium) + CountSeverity(smells, Low) == |smells|
    decreases |smells|
  {
    if smells != [] {
      SeveritiesPartition(smells[..|smells| - 1]);
    }
  }
}
