/**
 * The analysis service's own computations: the classification of a file's
 * lines into code, comment and blank lines, and the aggregate statistics
 * over the analysed files. Scanning the directory, reading and stat-ing
 * each file and the wall-clock timing are not part of this module.
 */
module AnalysisService {
  import opened Wrappers
  import opened Text
  import opened ComplexityValue
  import opened QualityValue
  import opened TestFileEntity

  // ---------------------------------------------------------------------
  // Line counts
  // ---------------------------------------------------------------------

  datatype LineKind = Code | Comment | Blank

  /** The kind of one line, judged on its stripped text. */
  function KindOf(line: string): LineKind {
    var s := Strip(line);
    if s == [] then Blank else if StartsWith(s, "//") then Comment else Code
  }

  /** How many of `lines` are of kind `k`. */
  function CountKind(lines: seq<string>, k: LineKind): (n: nat)
    ensures n <= |lines|
  {
    if lines == [] then 0
    else CountKind(lines[..|lines| - 1], k) + (if KindOf(lines[|lines| - 1]) == k then 1 else 0)
  }

  /** `_count_code_lines`: the lines whose stripped text is non-empty and does not start with "//". */
  function CountCodeLines(content: string): nat {
    CountKind(Lines(content), Code)
  }

  /** `_count_comment_lines`: the lines whose stripped text starts with "//". */
  function CountCommentLines(content: string): nat {
    CountKind(Lines(content), Comment)
  }

  /** `_count_blank_lines`: the lines whose stripped text is empty. */
  function CountBlankLines(content: string): nat {
    CountKind(Lines(content), Blank)
  }

  /** The `total_lines` recorded for a file: the number of '\n'-separated pieces, at least one. */
  function TotalLines(content: string): (n: nat)
    ensures n >= 1
  {
    |Lines(content)|
  }

  /** A line without leading or trailing whitespace is a comment exactly when it starts with "//". */
  lemma KindOfTrimmed(l: string)
    requires l != [] && !IsSpace(l[0]) && !IsSpace(l[|l| - 1])
    ensures KindOf(l) == if |l| >= 2 && l[0] == '/' && l[1] == '/' then Comment else Code
  {
    StripUntrimmed(l);
    if |l| >= 2 && l[0] == '/' && l[1] == '/' {
      assert l[..2] == "//";
    }
  }

  /** One line's share of the count of kind `k`. */
  function Tally(line: string, k: LineKind): nat {
    if KindOf(line) == k then 1 else 0
  }

  /** One more line adds its own share to each count. */
  lemma CountKindSnoc(lines: seq<string>, line: string, k: LineKind)
    ensures CountKind(lines + [line], k) == CountKind(lines, k) + Tally(line, k)
  {
    assert (lines + [line])[..|lines|] == lines;
  }

  /** The counts over five lines, line by line. */
  lemma CountFive(l1: string, l2: string, l3: string, l4: string, l5: string, k: LineKind)
    ensures CountKind([l1, l2, l3, l4, l5], k) == Tally(l1, k) + Tally(l2, k) + Tally(l3, k) + Tally(l4, k) + Tally(l5, k)
  {
    assert [] + [l1] == [l1] && [l1] + [l2] == [l1, l2] && [l1, l2] + [l3] == [l1, l2, l3];
    assert [l1, l2, l3] + [l4] == [l1, l2, l3, l4] && [l1, l2, l3, l4] + [l5] == [l1, l2, l3, l4, l5];
    CountKindSnoc([], l1, k);
    CountKindSnoc([l1], l2, k);
    CountKindSnoc([l1, l2], l3, k);
    CountKindSnoc([l1, l2, l3], l4, k);
    CountKindSnoc([l1, l2, l3, l4], l5, k);
  }

  /** The counts over six lines, line by line. */
  lemma CountSix(l1: string, l2: string, l3: string, l4: string, l5: string, l6: string, k: LineKind)
    ensures CountKind([l1, l2, l3, l4, l5, l6], k)
            == Tally(l1, k) + Tally(l2, k) + Tally(l3, k) + Tally(l4, k) + Tally(l5, k) + Tally(l6, k)
  {
    CountFive(l1, l2, l3, l4, l5, k);
    assert [l1, l2, l3, l4, l5] + [l6] == [l1, l2, l3, l4, l5, l6];
    CountKindSnoc([l1, l2, l3, l4, l5], l6, k);
  }

  /** Every line is of exactly one kind, so the three counts over a list of lines add up to its length. */
  lemma {:induction false} KindCountsPartition(lines: seq<string>)
    ensures CountKind(lines, Code) + CountKind(lines, Comment) + CountKind(lines, Blank) == |lines|
    decreases |lines|
  {
    if lines != [] {
      KindCountsPartition(lines[..|lines| - 1]);
    }
  }

  /** Code, comment and blank lines together are all the lines of the file. */
  lemma LineCountsSumToTotal(content: string)
    ensures CountCodeLines(content) + CountCommentLines(content) + CountBlankLines(content) == TotalLines(content)
  {
    KindCountsPartition(Lines(content));
  }

  /** A line is blank exactly when it is all whitespace. */
  lemma BlankIffAllSpace(line: string)
    ensures KindOf(line) == Blank <==> forall i :: 0 <= i < |line| ==> IsSpace(line[i])
  {
    StripEmptyIffAllSpace(line);
  }

  /** A line is a comment exactly when "//" follows its leading whitespace: trailing whitespace never matters. */
  lemma CommentIffSlashesAfterIndent(line: string)
    ensures KindOf(line) == Comment <==> StartsWith(LStrip(line), "//")
  {
    SlashesSurviveRStrip(LStrip(line));
  }

  /** Stripping trailing whitespace neither adds nor removes a leading "//". */
  lemma SlashesSurviveRStrip(l: string)
    ensures StartsWith(RStrip(l), "//") <==> StartsWith(l, "//")
  {
    var r := RStrip(l);
    if StartsWith(l, "//") {
      assert !IsSpace(l[1]);
      assert 2 <= |r|;
      assert r[..2] == l[..2];
    }
    if StartsWith(r, "//") {
      assert r[..2] == l[..2];
    }
  }

  // ---------------------------------------------------------------------
  // Statistics
  // ---------------------------------------------------------------------

  /** What `_calculate_statistics` reads of one file. */
  datatype FileFigures = FileFigures(totalLines: int, testCount: nat, complexity: Option<Complexity>,
                                     quality: Option<QualityScore>)

  /** The figures of each file, in order. */
  function FiguresOf(files: seq<TestFile>): (fs: seq<FileFigures>)
    reads set f | f in files
    ensures |fs| == |files|
  {
    if files == [] then []
    else
      var f := files[|files| - 1];
      FiguresOf(files[..|files| - 1]) + [FileFigures(f.totalLines, |f.testCases|, f.complexity, f.quality)]
  }

  /** The figures of file `i` are read from file `i`. */
  lemma {:induction false} FiguresOfAt(files: seq<TestFile>, i: nat)
    requires i < |files|
    ensures FiguresOf(files)[i] == FileFigures(files[i].totalLines, |files[i].testCases|, files[i].complexity, files[i].quality)
    decreases |files|
  {
    if i < |files| - 1 {
      FiguresOfAt(files[..|files| - 1], i);
    }
  }

  function SumLines(fs: seq<FileFigures>): int {
    if fs == [] then 0 else SumLines(fs[..|fs| - 1]) + fs[|fs| - 1].totalLines
  }

  function SumTests(fs: seq<FileFigures>): nat {
    if fs == [] then 0 else SumTests(fs[..|fs| - 1]) + fs[|fs| - 1].testCount
  }

  /** How many files have a complexity at level `l`. */
  function CountLevel(fs: seq<FileFigures>, l: ComplexityLevel): (n: nat)
    ensures n <= |fs|
  {
    if fs == [] then 0
    else
      var c := fs[|fs| - 1].complexity;
      CountLevel(fs[..|fs| - 1], l) + (if c.Some? && c.value.level == l then 1 else 0)
  }

  /** How many files have a quality whose score falls in the band of `l` (80, 60 and 40 are the lower bounds). */
  function CountQuality(fs: seq<FileFigures>, l: QualityLevel): (n: nat)
    ensures n <= |fs|
  {
    if fs == [] then 0
    else
      var q := fs[|fs| - 1].quality;
      CountQuality(fs[..|fs| - 1], l) + (if q.Some? && QualityLevelOf(q.value.score) == l then 1 else 0)
  }

  /** How many files have a quality at all. */
  function CountWithQuality(fs: seq<FileFigures>): (n: nat)
    ensures n <= |fs|
  {
    if fs == [] then 0 else CountWithQuality(fs[..|fs| - 1]) + (if fs[|fs| - 1].quality.Some? then 1 else 0)
  }

  /** When every file has a complexity, the three levels count every file once. */
  lemma {:induction false} LevelCountsPartition(fs: seq<FileFigures>)
    requires forall i :: 0 <= i < |fs| ==> fs[i].complexity.Some?
    ensures CountLevel(fs, Simple) + CountLevel(fs, Medium) + CountLevel(fs, Complex) == |fs|
    decreases |fs|
  {
    if fs != [] {
      LevelCountsPartition(fs[..|fs| - 1]);
    }
  }

  /** The quality bands are disjoint and count exactly the files that have a quality. */
  lemma {:induction false} QualityCountsPartition(fs: seq<FileFigures>)
    ensures CountQuality(fs, Excellent) + CountQuality(fs, Good) + CountQuality(fs, Fair) + CountQuality(fs, Poor)
            == CountWithQuality(fs)
    decreases |fs|
  {
    if fs != [] {
      QualityCountsPartition(fs[..|fs| - 1]);
    }
  }

  /** Floor division by a positive count lies between the two neighbouring multiples. */
  lemma FloorDivBounds(x: int, n: int)
    requires n > 0
    ensures (x / n) * n <= x < (x / n + 1) * n
  {
    assert x == (x / n) * n + x % n;
  }

  datatype Statistics = Statistics(
    totalFiles: nat,
    totalLines: int,
    totalTests: nat,
    avgLines: int,
    avgTests: int,
    simple: nat,
    medium: nat,
    complex: nat,
    excellent: nat,
    good: nat,
    fair: nat,
    poor: nat)

  /**
   * `_calculate_statistics` on the files' figures: nothing for no files;
   * otherwise the totals, the floor-divided averages and the two
   * distributions.
   */
  function StatisticsOf(fs: seq<FileFigures>): (r: Option<Statistics>)
    requires forall i :: 0 <= i < |fs| ==> fs[i].complexity.Some?
    ensures r.None? <==> fs == []
    ensures r.Some? ==> r.value.totalFiles == |fs| && r.value.totalLines == SumLines(fs) && r.value.totalTests == SumTests(fs)
    ensures r.Some? ==> r.value.avgLines * |fs| <= r.value.totalLines < (r.value.avgLines + 1) * |fs|
    ensures r.Some? ==> r.value.avgTests * |fs| <= r.value.totalTests < (r.value.avgTests + 1) * |fs|
    ensures r.Some? ==> r.value.simple + r.value.medium + r.value.complex == |fs|
    ensures r.Some? ==> r.value.excellent + r.value.good + r.value.fair + r.value.poor <= |fs|
  {
    if fs == [] then None
    else
      LevelCountsPartition(fs);
      QualityCountsPartition(fs);
      var n := |fs|;
      FloorDivBounds(SumLines(fs), n);
      FloorDivBounds(SumTests(fs), n);
      Some(Statistics(n, SumLines(fs), SumTests(fs), SumLines(fs) / n, SumTests(fs) / n,
                      CountLevel(fs, Simple), CountLevel(fs, Medium), CountLevel(fs, Complex),
                      CountQuality(fs, Excellent), CountQuality(fs, Good), CountQuality(fs, Fair),
                      CountQuality(fs, Poor)))
  }

  /** `_calculate_statistics` on the files themselves; every file must have its complexity computed. */
  function CalculateStatistics(files: seq<TestFile>): (r: Option<Statistics>)
    reads set f | f in files
    requires forall i :: 0 <= i < |files| ==> files[i].complexity.Some?
    ensures r.None? <==> files == []
    ensures r.Some? ==> r.value.totalFiles == |files| && r.value.simple + r.value.medium + r.value.complex == |files|
  {
    var fs := FiguresOf(files);
    forall i | 0 <= i < |fs|
      ensures fs[i].complexity.Some?
    {
      FiguresOfAt(files, i);
    }
    StatisticsOf(fs)
  }

  /** Three files of 100, 150 and 200 lines with five tests each: 450 lines, 150 on average, 5 tests on average. */
  lemma StatisticsExample(c: Complexity)
    ensures var fs := [FileFigures(100, 5, Some(c), None), FileFigures(150, 5, Some(c), None), FileFigures(200, 5, Some(c), None)];
      var r := StatisticsOf(fs);
      r.Some? && r.value.totalFiles == 3 && r.value.totalLines == 450 && r.value.avgLines == 150
      && r.value.totalTests == 15 && r.value.avgTests == 5
  {
    var fs := [FileFigures(100, 5, Some(c), None), FileFigures(150, 5, Some(c), None), FileFigures(200, 5, Some(c), None)];
    assert fs[..2] == [fs[0], fs[1]];
    assert fs[..2][..1] == [fs[0]];
    assert SumLines(fs[..2][..1]) == 100 && SumTests(fs[..2][..1]) == 5;
    assert SumLines(fs[..2]) == 250 && SumTests(fs[..2]) == 10;
  }
}

/** The line-count examples of the analysis service's unit tests. */
module AnalysisExamples {
  import opened Text
  import opened AnalysisService

  /** The comment-counter test's text, written line by line: two of its six lines are comments. */
  lemma CommentCountExample()
    ensures CountCommentLines(Join(["", "// Comment 1", "const x = 1;", "// Comment 2", "const y = 2;", ""], "\n")) == 2
  {
    SplitJoin(["", "// Comment 1", "const x = 1;", "// Comment 2", "const y = 2;", ""], '\n');
    CommentExampleKinds();
  }

  lemma CommentExampleKinds()
    ensures CountKind(["", "// Comment 1", "const x = 1;", "// Comment 2", "const y = 2;", ""], Comment) == 2
  {
    CommentExampleTallies();
    CountSix("", "// Comment 1", "const x = 1;", "// Comment 2", "const y = 2;", "", Comment);
  }

  lemma CommentExampleTallies()
    ensures Tally("", Comment) == 0 && Tally("// Comment 1", Comment) == 1 && Tally("const x = 1;", Comment) == 0
    ensures Tally("// Comment 2", Comment) == 1 && Tally("const y = 2;", Comment) == 0
  {
    EmptyLineIsBlank();
    FirstCommentKind();
    SecondCommentKind();
    FirstCodeKind();
    SecondCodeKind();
  }

  /** The empty line is blank. */
  lemma EmptyLineIsBlank()
    ensures KindOf("") == Blank
  {
    assert Strip("") == [];
  }

  lemma FirstCommentKind()
    ensures KindOf("// Comment 1") == Comment
  {
    KindOfTrimmed("// Comment 1");
  }

  lemma SecondCommentKind()
    ensures KindOf("// Comment 2") == Comment
  {
    KindOfTrimmed("// Comment 2");
  }

  lemma FirstCodeKind()
    ensures KindOf("const x = 1;") == Code
  {
    KindOfTrimmed("const x = 1;");
  }

  lemma SecondCodeKind()
    ensures KindOf("const y = 2;") == Code
  {
    KindOfTrimmed("const y = 2;");
  }

  /** The blank-counter test's text, written line by line: two of its five lines are blank. */
  lemma BlankCountExample()
    ensures CountBlankLines(Join(["line1", "", "line2", "", "line3"], "\n")) == 2
  {
    SplitJoin(["line1", "", "line2", "", "line3"], '\n');
    BlankExampleKinds();
  }

  lemma BlankExampleKinds()
    ensures CountKind(["line1", "", "line2", "", "line3"], Blank) == 2
  {
    KindOfTrimmed("line1");
    KindOfTrimmed("line2");
    KindOfTrimmed("line3");
    CountFive("line1", "", "line2", "", "line3", Blank);
  }
}
