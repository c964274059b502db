/**
 * The quality analyzer's smell tags: six fixed conditions over a test
 * file's structure, each contributing its tag once, in a fixed order.
 * These are the high-severity cut-offs of the smell detector plus its two
 * structural conditions.
 */
module QualityAnalyzer {
  import opened TestFileEntity
  import SD = SmellDetector

  /** The tags `detect_smells` can return, in the order it tests for them. */
  datatype Tag = LongTestFile | TooManyCategories | TooManyTestCases | NoCategories | MockOverload | NoSetupWithMocks

  /** The text of each tag. */
  function TagName(t: Tag): string {
    match t
    case LongTestFile => "long_test_file"
    case TooManyCategories => "too_many_categories"
    case TooManyTestCases => "too_many_test_cases"
    case NoCategories => "no_categories"
    case MockOverload => "mock_overload"
    case NoSetupWithMocks => "no_setup_with_mocks"
  }

  /** The position of each tag among the six tests. */
  function Position(t: Tag): nat {
    match t
    case LongTestFile => 0
    case TooManyCategories => 1
    case TooManyTestCases => 2
    case NoCategories => 3
    case MockOverload => 4
    case NoSetupWithMocks => 5
  }

  /** The tag alone when its condition holds, nothing otherwise. */
  function When(condition: bool, t: Tag): (r: seq<Tag>)
    ensures t in r <==> condition
    ensures |r| <= 1 && (r != [] ==> r[0] == t)
  {
    if condition then [t] else []
  }

  /** `detect_smells` on a file's structure. */
  function DetectSmellsIn(s: FileStructure): (r: seq<Tag>)
    ensures |r| <= 6
  {
    When(s.1 > 500, LongTestFile)
    + When(|s.4| > 10, TooManyCategories)
    + When(|s.5| > 30, TooManyTestCases)
    + When(s.4 == [] && |s.5| > 10, NoCategories)
    + When(|s.3| > 10, MockOverload)
    + When(s.3 != [] && s.6 == [], NoSetupWithMocks)
  }

  /** `detect_smells` */
  function DetectSmells(tf: TestFile): (r: seq<Tag>)
    reads tf
    ensures |r| <= 6
  {
    DetectSmellsIn(tf.Structure())
  }

  /** Whether the tags of a list appear in the order of the tests, each at most once. */
  predicate InTestOrder(r: seq<Tag>) {
    forall i, j :: 0 <= i < j < |r| ==> Position(r[i]) < Position(r[j])
  }

  /** The tags are in test order and all lie at positions below `k`. */
  predicate OrderedBelow(r: seq<Tag>, k: nat) {
    InTestOrder(r) && forall i :: 0 <= i < |r| ==> Position(r[i]) < k
  }

  /** Appending at most one tag, at position `k`, to tags whose positions are all below `k`. */
  lemma InTestOrderAppend(a: seq<Tag>, p: seq<Tag>, k: nat)
    requires OrderedBelow(a, k) && TagAt(p, k)
    ensures OrderedBelow(a + p, k + 1)
  {
    if p != [] {
      assert (a + p)[|a|] == p[0];
    }
  }

  /** At most one tag, and only the one at position `k`. */
  predicate TagAt(p: seq<Tag>, k: nat) {
    |p| <= 1 && (p != [] ==> Position(p[0]) == k)
  }

  /** Six lists holding at most the tags at positions 0 to 5, concatenated in that order, are in test order. */
  lemma TagsInTestOrder(a: seq<Tag>, b: seq<Tag>, c: seq<Tag>, d: seq<Tag>, e: seq<Tag>, f: seq<Tag>)
    requires TagAt(a, 0) && TagAt(b, 1) && TagAt(c, 2) && TagAt(d, 3) && TagAt(e, 4) && TagAt(f, 5)
    ensures InTestOrder(a + b + c + d + e + f)
  {
    var r: seq<Tag> := [];
    assert OrderedBelow(r, 0);
    InTestOrderAppend(r, a, 0);
    assert r + a == a;
    InTestOrderAppend(a, b, 1);
    var ab := a + b;
    InTestOrderAppend(ab, c, 2);
    var abc := ab + c;
    InTestOrderAppend(abc, d, 3);
    var abcd := abc + d;
    InTestOrderAppend(abcd, e, 4);
    var abcde := abcd + e;
    InTestOrderAppend(abcde, f, 5);
    assert OrderedBelow(abcde + f, 6);
  }

  /** The tags come in the order of the tests, so no tag is returned twice. */
  lemma DetectSmellsOrder(s: FileStructure)
    ensures InTestOrder(DetectSmellsIn(s))
    ensures forall i, j :: 0 <= i < j < |DetectSmellsIn(s)| ==> DetectSmellsIn(s)[i] != DetectSmellsIn(s)[j]
  {
    var a, b, c := When(s.1 > 500, LongTestFile), When(|s.4| > 10, TooManyCategories), When(|s.5| > 30, TooManyTestCases);
    var d, e, f := When(s.4 == [] && |s.5| > 10, NoCategories), When(|s.3| > 10, MockOverload),
                   When(s.3 != [] && s.6 == [], NoSetupWithMocks);
    assert DetectSmellsIn(s) == a + b + c + d + e + f;
    TagsInTestOrder(a, b, c, d, e, f);
  }

  /** Each tag is returned exactly when its condition holds. */
  lemma DetectSmellsConditions(s: FileStructure)
    ensures LongTestFile in DetectSmellsIn(s) <==> s.1 > 500
    ensures TooManyCategories in DetectSmellsIn(s) <==> |s.4| > 10
    ensures TooManyTestCases in DetectSmellsIn(s) <==> |s.5| > 30
    ensures NoCategories in DetectSmellsIn(s) <==> s.4 == [] && |s.5| > 10
    ensures MockOverload in DetectSmellsIn(s) <==> |s.3| > 10
    ensures NoSetupWithMocks in DetectSmellsIn(s) <==> |s.3| > 0 && s.6 == []
  {
    SizeTagConditions(s);
    ShapeTagConditions(s);
  }

  /** The size tags: file length, categories, test cases. */
  lemma SizeTagConditions(s: FileStructure)
    ensures LongTestFile in DetectSmellsIn(s) <==> s.1 > 500
    ensures TooManyCategories in DetectSmellsIn(s) <==> |s.4| > 10
    ensures TooManyTestCases in DetectSmellsIn(s) <==> |s.5| > 30
  {
    var a := When(s.1 > 500, LongTestFile);
    var b := When(|s.4| > 10, TooManyCategories);
    var c := When(|s.5| > 30, TooManyTestCases);
    var d := When(s.4 == [] && |s.5| > 10, NoCategories);
    var e := When(|s.3| > 10, MockOverload);
    var f := When(s.3 != [] && s.6 == [], NoSetupWithMocks);
    assert DetectSmellsIn(s) == a + b + c + d + e + f;
  }

  /** The shape tags: missing categories, mock overload, mocks without setup. */
  lemma ShapeTagConditions(s: FileStructure)
    ensures NoCategories in DetectSmellsIn(s) <==> s.4 == [] && |s.5| > 10
    ensures MockOverload in DetectSmellsIn(s) <==> |s.3| > 10
    ensures NoSetupWithMocks in DetectSmellsIn(s) <==> |s.3| > 0 && s.6 == []
  {
    var a := When(s.1 > 500, LongTestFile);
    var b := When(|s.4| > 10, TooManyCategories);
    var c := When(|s.5| > 30, TooManyTestCases);
    var d := When(s.4 == [] && |s.5| > 10, NoCategories);
    var e := When(|s.3| > 10, MockOverload);
    var f := When(s.3 != [] && s.6 == [], NoSetupWithMocks);
    assert DetectSmellsIn(s) == a + b + c + d + e + f;
    assert |s.3| > 0 <==> s.3 != [];
  }

  /**
   * The analyzer agrees with the smell detector: its size tags are the
   * detector's high-severity smells, and its two structural tags the
   * detector's smells of the same name.
   */
  lemma AgreesWithDetector(s: FileStructure)
    ensures LongTestFile in DetectSmellsIn(s) <==> SD.HasSmell(SD.DetectIn(s), SD.LongTestFile, SD.High)
    ensures TooManyCategories in DetectSmellsIn(s) <==> SD.HasSmell(SD.DetectIn(s), SD.TooManyCategories, SD.High)
    ensures TooManyTestCases in DetectSmellsIn(s) <==> SD.HasSmell(SD.DetectIn(s), SD.TooManyTests, SD.High)
    ensures NoCategories in DetectSmellsIn(s) <==> SD.HasKind(SD.DetectIn(s), SD.NoCategories)
    ensures MockOverload in DetectSmellsIn(s) <==> SD.HasSmell(SD.DetectIn(s), SD.MockOverload, SD.High)
    ensures NoSetupWithMocks in DetectSmellsIn(s) <==> SD.HasKind(SD.DetectIn(s), SD.NoSetupWithMocks)
  {
    DetectSmellsConditions(s);
    SD.DetectConditions(s);
  }
}
