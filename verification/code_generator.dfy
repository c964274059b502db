/**
 * The code generator: TypeScript test scaffolding written out as text.
 * Describe blocks nest, every level indented by two more spaces; test
 * cases are `it` blocks whose body is a list of lines; mocks become
 * `const` declarations, or `export const` ones in a utilities file.
 * Each writer is a method with the loops of the source, proved equal to
 * a function that defines its output; the lemmas read the output back
 * line by line.
 */
module CodeGenerator {
  import opened Wrappers
  import opened Text

  /** `self.indent`: one level of indentation. */
  const Unit := "  "

  /** A mock as a dictionary whose `name` and `content` keys may be missing. */
  datatype Mock = Mock(name: Option<string>, content: Option<string>)

  /** A test body: a list of lines, or a single string that stands for one line. */
  datatype Body = BodyLines(lines: seq<string>) | BodyText(text: string)

  /** A test case: `name` may be missing, `async` defaults to false and a missing body to no lines. */
  datatype TestCase = TestCase(name: Option<string>, isAsync: bool, body: Body)

  /** A describe block: a missing `beforeEach`, `tests` or `nested` key reads as false or empty. */
  datatype Describe = Describe(name: Option<string>, beforeEach: bool, tests: seq<TestCase>, nested: seq<Describe>)

  /** A helper function for a utilities file. */
  datatype Helper = Helper(name: Option<string>, params: seq<string>, body: Option<string>)

  /** `d.get(key, default)` */
  function OrDefault(o: Option<string>, default: string): string {
    match o
    case Some(v) => v
    case None => default
  }

  /** `self.indent * level` */
  function Indent(level: nat): (r: string)
    ensures |r| == 2 * level
    ensures forall k :: 0 <= k < |r| ==> r[k] == ' '
  {
    if level == 0 then "" else Indent(level - 1) + Unit
  }

  /** A single line of text. */
  predicate NoNewline(s: string) {
    '\n' !in s
  }

  // ---------------------------------------------------------------------
  // Imports and mocks
  // ---------------------------------------------------------------------

  /** `_generate_imports` */
  function ImportsSection(imports: seq<string>): string {
    Join(imports, "\n")
  }

  function MockName(m: Mock): string {
    OrDefault(m.name, "mockData")
  }

  function MockContent(m: Mock): string {
    OrDefault(m.content, "{}")
  }

  /** The declaration of one mock. */
  function MockLine(m: Mock): string {
    "const " + MockName(m) + " = " + MockContent(m) + ";"
  }

  /** One declaration per mock, in order. */
  function MockLines(mocks: seq<Mock>): (r: seq<string>)
    ensures |r| == |mocks|
  {
    if mocks == [] then [] else MockLines(mocks[..|mocks| - 1]) + [MockLine(mocks[|mocks| - 1])]
  }

  /** Declaration `k` declares mock `k`. */
  lemma {:induction false} MockLinesAt(mocks: seq<Mock>, k: nat)
    requires k < |mocks|
    ensures MockLines(mocks)[k] == MockLine(mocks[k])
    decreases |mocks|
  {
    if k < |mocks| - 1 {
      MockLinesAt(mocks[..|mocks| - 1], k);
    }
  }

  /** What `_generate_mocks` returns. */
  function MocksSection(mocks: seq<Mock>): string {
    Join(MockLines(mocks), "\n")
  }

  /** `_generate_mocks` */
  method GenerateMocks(mocks: seq<Mock>) returns (text: string)
    ensures text == MocksSection(mocks)
  {
    var lines: seq<string> := [];
    for i := 0 to |mocks|
      invariant lines == MockLines(mocks[..i])
    {
      assert mocks[..i + 1][..i] == mocks[..i];
      lines := lines + [MockLine(mocks[i])];
    }
    assert mocks[..|mocks|] == mocks;
    text := Join(lines, "\n");
  }

  // ---------------------------------------------------------------------
  // Test cases
  // ---------------------------------------------------------------------

  function TestName(t: TestCase): string {
    OrDefault(t.name, "should work")
  }

  /** The body as a list of lines: a string body is one line. */
  function BodyOf(b: Body): seq<string> {
    match b
    case BodyLines(lines) => lines
    case BodyText(text) => [text]
  }

  /** The assertion written when the body has no lines. */
  const DefaultAssertion := "expect(true).toBe(true);"

  /** The opening line of an `it` block. */
  function Header(t: TestCase, level: nat): string {
    Indent(level) + "it('" + TestName(t) + "', " + (if t.isAsync then "async " else "") + "() => {"
  }

  /** The line that closes a block. */
  function Closing(level: nat): string {
    Indent(level) + "});"
  }

  /** Each line behind `prefix`. */
  function Prefixed(lines: seq<string>, prefix: string): (r: seq<string>)
    ensures |r| == |lines|
  {
    if lines == [] then [] else Prefixed(lines[..|lines| - 1], prefix) + [prefix + lines[|lines| - 1]]
  }

  /** Line `k` is line `k` of the input behind the prefix. */
  lemma {:induction false} PrefixedAt(lines: seq<string>, prefix: string, k: nat)
    requires k < |lines|
    ensures Prefixed(lines, prefix)[k] == prefix + lines[k]
    decreases |lines|
  {
    if k < |lines| - 1 {
      PrefixedAt(lines[..|lines| - 1], prefix, k);
    }
  }

  /** The lines of an `it` block. */
  function TestCaseLines(t: TestCase, level: nat): seq<string> {
    var body := BodyOf(t.body);
    [Header(t, level)]
      + Prefixed(body, Indent(level) + Unit)
      + (if body == [] then [Indent(level) + Unit + DefaultAssertion] else [])
      + [Closing(level)]
  }

  /** What `_generate_test_case` returns. */
  function TestCaseText(t: TestCase, level: nat): string {
    Join(TestCaseLines(t, level), "\n")
  }

  /** `_generate_test_case` */
  method GenerateTestCase(t: TestCase, level: nat) returns (text: string)
    ensures text == TestCaseText(t, level)
  {
    var indent := Indent(level);
    var asyncKeyword := if t.isAsync then "async " else "";
    var lines := [indent + "it('" + TestName(t) + "', " + asyncKeyword + "() => {"];
    var body := BodyOf(t.body);
    for i := 0 to |body|
      invariant lines == [Header(t, level)] + Prefixed(body[..i], indent + Unit)
    {
      assert body[..i + 1][..i] == body[..i] && body[..i + 1][i] == body[i];
      lines := lines + [indent + Unit + body[i]];
    }
    assert body[..|body|] == body;
    if body == [] {
      lines := lines + [indent + Unit + DefaultAssertion];
    }
    lines := lines + [indent + "});"];
    assert lines == TestCaseLines(t, level);
    text := Join(lines, "\n");
  }

  // ---------------------------------------------------------------------
  // Describe blocks
  // ---------------------------------------------------------------------

  function DescribeName(d: Describe): string {
    OrDefault(d.name, "Test Suite")
  }

  /** The opening line of a `describe` block. */
  function Opening(d: Describe, level: nat): string {
    Indent(level) + "describe('" + DescribeName(d) + "', () => {"
  }

  /** The `beforeEach` hook and the blank line after it. */
  function HookLines(level: nat): seq<string> {
    [Indent(level) + Unit + "beforeEach(() => {", Indent(level) + Unit + Unit + "// Setup", Indent(level) + Unit + "});", ""]
  }

  /** Each test case's text followed by an empty line. */
  function TestEntries(tests: seq<TestCase>, level: nat): seq<string> {
    if tests == [] then []
    else TestEntries(tests[..|tests| - 1], level) + [TestCaseText(tests[|tests| - 1], level), ""]
  }

  /** One more test case adds its text and an empty line. */
  lemma TestEntriesStep(head: seq<string>, lines: seq<string>, tests: seq<TestCase>, i: nat, level: nat, t: string)
    requires i < |tests|
    requires lines == head + TestEntries(tests[..i], level) && t == TestCaseText(tests[i], level)
    ensures lines + [t, ""] == head + TestEntries(tests[..i + 1], level)
  {
    assert tests[..i + 1][..i] == tests[..i];
  }

  /** The text of each of the first `k` nested describes, each followed by an empty line. */
  function NestedEntries(d: Describe, k: nat, level: nat): seq<string>
    requires k <= |d.nested|
    decreases d, 0, k
  {
    if k == 0 then [] else NestedEntries(d, k - 1, level) + [DescribeText(d.nested[k - 1], level), ""]
  }

  /** One more nested describe adds its text and an empty line. */
  lemma NestedEntriesStep(head: seq<string>, lines: seq<string>, d: Describe, j: nat, level: nat, n: string)
    requires j < |d.nested|
    requires lines == head + NestedEntries(d, j, level) && n == DescribeText(d.nested[j], level)
    ensures lines + [n, ""] == head + NestedEntries(d, j + 1, level)
  {
  }

  /** The pieces `_generate_describe_block` joins: each is a line or a whole nested block. */
  function DescribeParts(d: Describe, level: nat): seq<string>
    decreases d, 2
  {
    [Opening(d, level)] + DescribeMiddle(d, level) + [Closing(level)]
  }

  /** The hook, if any, then the test entries, then the nested entries. */
  function DescribeMiddle(d: Describe, level: nat): seq<string>
    decreases d, 1
  {
    (if d.beforeEach then HookLines(level) else [])
      + TestEntries(d.tests, level + 1)
      + NestedEntries(d, |d.nested|, level + 1)
  }

  /** The opening line and the hook, if any. */
  function DescribeHead(d: Describe, level: nat): seq<string> {
    [Opening(d, level)] + (if d.beforeEach then HookLines(level) else [])
  }

  /** The pieces in the order the loops add them, closed by the closing line. */
  lemma DescribeFinish(head: seq<string>, lines: seq<string>, d: Describe, level: nat)
    requires head == DescribeHead(d, level)
    requires lines == head + TestEntries(d.tests, level + 1) + NestedEntries(d, |d.nested|, level + 1)
    ensures lines + [Closing(level)] == DescribeParts(d, level)
  {
    Regroup(Opening(d, level), if d.beforeEach then HookLines(level) else [],
      TestEntries(d.tests, level + 1), NestedEntries(d, |d.nested|, level + 1), Closing(level));
  }

  /** Gathering the middle pieces between a first and a last element. */
  lemma Regroup<T>(first: T, a: seq<T>, b: seq<T>, c: seq<T>, last: T)
    ensures [first] + a + b + c + [last] == [first] + (a + b + c) + [last]
  {
  }

  /** What `_generate_describe_block` returns. */
  function DescribeText(d: Describe, level: nat): string
    decreases d, 3
  {
    Join(DescribeParts(d, level), "\n")
  }

  /** The loop over the test cases of `_generate_describe_block`: each one's text, then an empty line. */
  method AppendTests(lines0: seq<string>, tests: seq<TestCase>, level: nat) returns (lines: seq<string>)
    ensures lines == lines0 + TestEntries(tests, level)
  {
    lines := lines0;
    for i := 0 to |tests|
      invariant lines == lines0 + TestEntries(tests[..i], level)
    {
      var t := GenerateTestCase(tests[i], level);
      TestEntriesStep(lines0, lines, tests, i, level, t);
      lines := lines + [t, ""];
    }
    assert tests[..|tests|] == tests;
  }

  /** The loop over the nested describes of `_generate_describe_block`: each one's block, then an empty line. */
  method AppendNested(lines0: seq<string>, d: Describe, level: nat) returns (lines: seq<string>)
    ensures lines == lines0 + NestedEntries(d, |d.nested|, level)
    decreases d, 0
  {
    lines := lines0;
    for j := 0 to |d.nested|
      invariant lines == lines0 + NestedEntries(d, j, level)
    {
      var n := GenerateDescribeBlock(d.nested[j], level);
      NestedEntriesStep(lines0, lines, d, j, level, n);
      lines := lines + [n, ""];
    }
  }

  /** `_generate_describe_block`: test cases and nested describes one level deeper, each followed by an empty line. */
  method GenerateDescribeBlock(d: Describe, level: nat) returns (text: string)
    ensures text == DescribeText(d, level)
    decreases d, 1
  {
    var indent := Indent(level);
    var lines := [indent + "describe('" + DescribeName(d) + "', () => {"];
    if d.beforeEach {
      lines := lines + [indent + Unit + "beforeEach(() => {"];
      lines := lines + [indent + Unit + Unit + "// Setup"];
      lines := lines + [indent + Unit + "});"];
      lines := lines + [""];
    }
    ghost var head := lines;
    assert head == DescribeHead(d, level);
    lines := AppendTests(lines, d.tests, level + 1);
    lines := AppendNested(lines, d, level + 1);
    DescribeFinish(head, lines, d, level);
    lines := lines + [indent + "});"];
    assert lines == DescribeParts(d, level);
    text := Join(lines, "\n");
  }

  // ---------------------------------------------------------------------
  // Reading the output back, line by line
  // ---------------------------------------------------------------------

  /** No name or body line holds a newline. */
  predicate CleanTest(t: TestCase) {
    && NoNewline(TestName(t))
    && forall k :: 0 <= k < |BodyOf(t.body)| ==> NoNewline(BodyOf(t.body)[k])
  }

  /** No name or body line anywhere in the block holds a newline. */
  predicate Clean(d: Describe)
    decreases d
  {
    && NoNewline(DescribeName(d))
    && (forall k :: 0 <= k < |d.tests| ==> CleanTest(d.tests[k]))
    && forall k :: 0 <= k < |d.nested| ==> Clean(d.nested[k])
  }

  /** Every non-empty line starts with `ind`. */
  predicate AllAt(ls: seq<string>, ind: string) {
    forall k :: 0 <= k < |ls| && ls[k] != "" ==> StartsWith(ls[k], ind)
  }

  /** Every piece, read as lines, has its non-empty lines starting with `ind`. */
  predicate PartsAt(parts: seq<string>, ind: string) {
    forall k :: 0 <= k < |parts| ==> AllAt(Lines(parts[k]), ind)
  }

  /** A line indented one level deeper is indented at least as deep. */
  lemma AllAtDeeper(ls: seq<string>, level: nat)
    requires AllAt(ls, Indent(level + 1))
    ensures AllAt(ls, Indent(level))
  {
    forall k | 0 <= k < |ls| && ls[k] != ""
      ensures StartsWith(ls[k], Indent(level))
    {
      assert ls[k][..2 * level] == ls[k][..2 * level + 2][..2 * level] == Indent(level + 1)[..2 * level];
    }
  }

  /** One line with its indentation. */
  lemma LineAt(x: string, ind: string, y: string)
    requires NoNewline(x) && x == ind + y
    ensures AllAt(Lines(x), ind)
  {
    SplitNoSeparator(x, '\n');
    assert x[..|ind|] == ind;
  }

  /** Concatenated line lists keep what each list keeps. */
  lemma {:induction false} ConcatAllAt(xss: seq<seq<string>>, ind: string)
    requires forall k :: 0 <= k < |xss| ==> AllAt(xss[k], ind)
    ensures AllAt(Concat(xss), ind)
    decreases |xss|
  {
    if xss != [] {
      ConcatAllAt(xss[1..], ind);
      var a, b := xss[0], Concat(xss[1..]);
      forall k | 0 <= k < |a + b| && (a + b)[k] != ""
        ensures StartsWith((a + b)[k], ind)
      {
        if k >= |a| {
          assert (a + b)[k] == b[k - |a|];
        }
      }
    }
  }

  /** Each line of a test case is one line, at the block's level. */
  lemma TestCaseLine(t: TestCase, level: nat, k: nat)
    requires CleanTest(t) && k < |TestCaseLines(t, level)|
    ensures NoNewline(TestCaseLines(t, level)[k]) && StartsWith(TestCaseLines(t, level)[k], Indent(level))
  {
    var ls := TestCaseLines(t, level);
    var body := BodyOf(t.body);
    var ind := Indent(level);
    IndentLine(level);
    if 0 < k <= |body| {
      PrefixedAt(body, ind + Unit, k - 1);
      Continued(ind, ind, Unit);
      Continued(ind + Unit, ind, body[k - 1]);
    } else if k == 0 {
      Continued(ind, ind, "it('");
      Continued(ind + "it('", ind, TestName(t));
      Continued(ind + "it('" + TestName(t), ind, "', ");
      Continued(ind + "it('" + TestName(t) + "', ", ind, if t.isAsync then "async " else "");
      Continued(ind + "it('" + TestName(t) + "', " + (if t.isAsync then "async " else ""), ind, "() => {");
    } else if k == |ls| - 1 {
      ClosingAt(level);
    } else {
      Continued(ind, ind, Unit);
      Continued(ind + Unit, ind, DefaultAssertion);
    }
  }

  /** The text of a test case splits back into its lines, all at the block's level. */
  lemma TestCaseSplits(t: TestCase, level: nat)
    requires CleanTest(t)
    ensures Lines(TestCaseText(t, level)) == TestCaseLines(t, level)
    ensures AllAt(TestCaseLines(t, level), Indent(level))
  {
    var ls := TestCaseLines(t, level);
    forall k | 0 <= k < |ls|
      ensures NoNewline(ls[k]) && StartsWith(ls[k], Indent(level))
    {
      TestCaseLine(t, level, k);
    }
    SplitJoin(ls, '\n');
  }

  /**
   * `_generate_test_case`, read back line by line: the opening line ends in
   * `async () => {` exactly when the test is async; then one line per body
   * line, or the default assertion alone when the body is empty, each
   * indented one level deeper; then the closing line. Every line is
   * indented at least to the test's level.
   */
  lemma TestCaseShape(t: TestCase, level: nat)
    requires CleanTest(t)
    ensures var ls := Lines(TestCaseText(t, level));
      var body := BodyOf(t.body);
      && |ls| == (if body == [] then 3 else |body| + 2)
      && (EndsWith(ls[0], "async () => {") <==> t.isAsync)
      && (forall k :: 0 < k < |ls| - 1 ==> ls[k] == Indent(level + 1) + (if body == [] then DefaultAssertion else body[k - 1]))
      && ls[|ls| - 1] == Indent(level) + "});"
      && AllAt(ls, Indent(level))
  {
    TestCaseSplits(t, level);
    var ls := TestCaseLines(t, level);
    var body := BodyOf(t.body);
    var h := ls[0];
    if t.isAsync {
      assert h == Indent(level) + "it('" + TestName(t) + "', " + "async () => {";
    } else {
      assert h == Indent(level) + "it('" + TestName(t) + "', " + "() => {";
      assert h[|h| - 10] == '\'' != "async () => {"[3];
    }
    forall k | 0 < k <= |body|
      ensures ls[k] == Indent(level + 1) + body[k - 1]
    {
      PrefixedAt(body, Indent(level) + Unit, k - 1);
    }
  }

  /** Pieces that each keep the indentation keep it together. */
  lemma PartsAtAppend(a: seq<string>, b: seq<string>, ind: string)
    requires PartsAt(a, ind) && PartsAt(b, ind)
    ensures PartsAt(a + b, ind)
  {
    forall k | 0 <= k < |a + b|
      ensures AllAt(Lines((a + b)[k]), ind)
    {
      if k >= |a| {
        assert (a + b)[k] == b[k - |a|];
      }
    }
  }

  /** The empty line between entries. */
  lemma BlankAt(ind: string)
    ensures AllAt(Lines(""), ind)
  {
    assert Lines("") == [""];
  }

  /** The hook lines sit one level deeper than the block. */
  lemma HooksAt(level: nat)
    ensures PartsAt(HookLines(level), Indent(level + 1))
  {
    var ind := Indent(level + 1);
    LineAt(ind + "beforeEach(() => {", ind, "beforeEach(() => {");
    LineAt(ind + Unit + "// Setup", ind, Unit + "// Setup");
    LineAt(ind + "});", ind, "});");
    BlankAt(ind);
  }

  /** The test entries of a block sit at the level they were written at. */
  lemma {:induction false} TestEntriesAt(tests: seq<TestCase>, level: nat)
    requires forall k :: 0 <= k < |tests| ==> CleanTest(tests[k])
    ensures PartsAt(TestEntries(tests, level), Indent(level))
    decreases |tests|
  {
    if tests != [] {
      var n := |tests| - 1;
      TestEntriesAt(tests[..n], level);
      TestCaseSplits(tests[n], level);
      BlankAt(Indent(level));
      PartsAtAppend(TestEntries(tests[..n], level), [TestCaseText(tests[n], level), ""], Indent(level));
    }
  }

  /** The nested entries of a block sit at the level they were written at. */
  lemma {:induction false} NestedEntriesAt(d: Describe, k: nat, level: nat)
    requires Clean(d) && k <= |d.nested|
    ensures PartsAt(NestedEntries(d, k, level), Indent(level))
    decreases d, 0, k
  {
    if k > 0 {
      NestedEntriesAt(d, k - 1, level);
      DescribeShape(d.nested[k - 1], level);
      BlankAt(Indent(level));
      PartsAtAppend(NestedEntries(d, k - 1, level), [DescribeText(d.nested[k - 1], level), ""], Indent(level));
    }
  }

  /** Everything between the opening and the closing line sits one level deeper. */
  lemma {:induction false} DescribeMiddleAt(d: Describe, level: nat)
    requires Clean(d)
    ensures PartsAt(DescribeMiddle(d, level), Indent(level + 1))
    decreases d, 1
  {
    var inner := Indent(level + 1);
    var hooks := if d.beforeEach then HookLines(level) else [];
    if d.beforeEach {
      HooksAt(level);
    }
    TestEntriesAt(d.tests, level + 1);
    NestedEntriesAt(d, |d.nested|, level + 1);
    PartsAtAppend(hooks, TestEntries(d.tests, level + 1), inner);
    PartsAtAppend(hooks + TestEntries(d.tests, level + 1), NestedEntries(d, |d.nested|, level + 1), inner);
  }

  /** A block framed by lines at its level, with its inside one level deeper. */
  lemma Framed(open: string, body: seq<string>, close: string, level: nat)
    requires StartsWith(open, Indent(level)) && StartsWith(close, Indent(level))
    requires AllAt(body, Indent(level + 1))
    ensures AllAt([open] + body + [close], Indent(level))
  {
    AllAtDeeper(body, level);
    var ls := [open] + body + [close];
    forall k | 0 < k < |ls| - 1
      ensures ls[k] == body[k - 1]
    {
    }
  }

  /**
   * Lines `ls` open with `open`, close with `close`, hold in between only
   * lines that are empty or indented one level deeper than `level`, and so
   * have every non-empty line indented at least to `level`.
   */
  predicate Shaped(ls: seq<string>, open: string, close: string, level: nat) {
    && |ls| >= 2
    && ls[0] == open
    && ls[|ls| - 1] == close
    && AllAt(ls[1..|ls| - 1], Indent(level + 1))
    && AllAt(ls, Indent(level))
  }

  /** A line begun with `ind` and continued without a newline is still begun with `ind`. */
  lemma Continued(x: string, ind: string, y: string)
    requires StartsWith(x, ind) && NoNewline(x) && NoNewline(y)
    ensures StartsWith(x + y, ind) && NoNewline(x + y)
  {
    assert (x + y)[..|ind|] == x[..|ind|];
  }

  /** An indentation is a line begun with itself. */
  lemma IndentLine(level: nat)
    ensures StartsWith(Indent(level), Indent(level)) && NoNewline(Indent(level))
  {
    assert Indent(level)[..|Indent(level)|] == Indent(level);
  }

  /** The opening line is one line at the block's level. */
  lemma OpeningAt(d: Describe, level: nat)
    requires NoNewline(DescribeName(d))
    ensures NoNewline(Opening(d, level)) && StartsWith(Opening(d, level), Indent(level))
  {
    var ind := Indent(level);
    IndentLine(level);
    Continued(ind, ind, "describe('");
    Continued(ind + "describe('", ind, DescribeName(d));
    Continued(ind + "describe('" + DescribeName(d), ind, "', () => {");
  }

  /** The closing line is one line at the block's level. */
  lemma ClosingAt(level: nat)
    ensures NoNewline(Closing(level)) && StartsWith(Closing(level), Indent(level))
  {
    IndentLine(level);
    Continued(Indent(level), Indent(level), "});");
  }

  /** Pieces one level deeper, joined between an opening and a closing line at the level, give a shaped block. */
  lemma FramedJoin(open: string, middle: seq<string>, close: string, level: nat)
    requires NoNewline(open) && StartsWith(open, Indent(level))
    requires NoNewline(close) && StartsWith(close, Indent(level))
    requires PartsAt(middle, Indent(level + 1))
    ensures Shaped(Lines(Join([open] + middle + [close], "\n")), open, close, level)
  {
    LinesJoin([open] + middle + [close]);
    MiddleLines(open, middle, close);
    ConcatAllAt(MapLines(middle), Indent(level + 1));
    var body := Concat(MapLines(middle));
    var ls := [open] + body + [close];
    assert ls[1..|ls| - 1] == body;
    Framed(open, body, close, level);
  }

  /**
   * `_generate_describe_block`, read back line by line: the opening line,
   * then lines that are empty or indented one level deeper (the hook, the
   * test cases and the nested blocks), then the closing line; so every
   * non-empty line is indented at least to the block's level.
   */
  lemma {:induction false} DescribeShape(d: Describe, level: nat)
    requires Clean(d)
    ensures Shaped(Lines(DescribeText(d, level)), Opening(d, level), Closing(level), level)
    decreases d, 2
  {
    DescribeMiddleAt(d, level);
    OpeningAt(d, level);
    ClosingAt(level);
    FramedJoin(Opening(d, level), DescribeMiddle(d, level), Closing(level), level);
  }

  /** The lines of an opening line, some pieces and a closing line. */
  lemma MiddleLines(open: string, middle: seq<string>, close: string)
    requires NoNewline(open) && NoNewline(close)
    ensures Concat(MapLines([open] + middle + [close])) == [open] + Concat(MapLines(middle)) + [close]
  {
    SplitNoSeparator(open, '\n');
    SplitNoSeparator(close, '\n');
    assert MapLines([open] + middle + [close]) == [[open]] + MapLines(middle) + [[close]];
    ConcatAppend([[open]] + MapLines(middle), [[close]]);
    ConcatAppend([[open]], MapLines(middle));
    assert Concat([[close]]) == [close] + Concat([]);
    assert Concat([[open]]) == [open] + Concat([]);
  }

  // ---------------------------------------------------------------------
  // Files
  // ---------------------------------------------------------------------

  /** The describe blocks at level 0, in order. */
  function DescribeTexts(ds: seq<Describe>): (r: seq<string>)
    ensures |r| == |ds|
  {
    if ds == [] then [] else DescribeTexts(ds[..|ds| - 1]) + [DescribeText(ds[|ds| - 1], 0)]
  }

  /** Block `k` is the text of describe `k`. */
  lemma {:induction false} DescribeTextsAt(ds: seq<Describe>, k: nat)
    requires k < |ds|
    ensures DescribeTexts(ds)[k] == DescribeText(ds[k], 0)
    decreases |ds|
  {
    if k < |ds| - 1 {
      DescribeTextsAt(ds[..|ds| - 1], k);
    }
  }

  /** The imports section if there are imports, the mocks section if there are mocks, then one section per describe. */
  function TestFileSections(imports: seq<string>, mocks: seq<Mock>, describes: seq<Describe>): seq<string> {
    (if imports != [] then [ImportsSection(imports)] else [])
      + (if mocks != [] then [MocksSection(mocks)] else [])
      + DescribeTexts(describes)
  }

  /** What `generate_test_file` returns. */
  function TestFileText(imports: seq<string>, mocks: seq<Mock>, describes: seq<Describe>): string {
    Join(TestFileSections(imports, mocks, describes), "\n\n") + "\n"
  }

  /** `generate_test_file` */
  method GenerateTestFile(imports: seq<string>, mocks: seq<Mock>, describes: seq<Describe>) returns (text: string)
    ensures text == TestFileText(imports, mocks, describes)
  {
    var sections: seq<string> := [];
    if imports != [] {
      sections := sections + [ImportsSection(imports)];
    }
    if mocks != [] {
      var m := GenerateMocks(mocks);
      sections := sections + [m];
    }
    ghost var head := sections;
    assert head == (if imports != [] then [ImportsSection(imports)] else []) + (if mocks != [] then [MocksSection(mocks)] else []);
    for i := 0 to |describes|
      invariant sections == head + DescribeTexts(describes[..i])
    {
      assert describes[..i + 1][..i] == describes[..i] && describes[..i + 1][i] == describes[i];
      var block := GenerateDescribeBlock(describes[i], 0);
      sections := sections + [block];
    }
    assert describes[..|describes|] == describes;
    text := Join(sections, "\n\n") + "\n";
  }

  /** The describe block of a split file: named after the category, no hook, nothing nested. */
  function SplitDescribe(category: string, tests: seq<TestCase>): Describe {
    Describe(Some(category), false, tests, [])
  }

  /** `generate_split_file` */
  method GenerateSplitFile(category: string, imports: seq<string>, mocks: seq<Mock>, tests: seq<TestCase>) returns (text: string)
    ensures text == TestFileText(imports, mocks, [SplitDescribe(category, tests)])
  {
    text := GenerateTestFile(imports, mocks, [SplitDescribe(category, tests)]);
  }

  /** The declaration of a mock in a utilities file: `export const <name> = <content>;`. */
  function ExportLine(m: Mock): string {
    "export " + MockLine(m)
  }

  /** One exported declaration per mock, in order. */
  function ExportLines(mocks: seq<Mock>): (r: seq<string>)
    ensures |r| == |mocks|
  {
    if mocks == [] then [] else ExportLines(mocks[..|mocks| - 1]) + [ExportLine(mocks[|mocks| - 1])]
  }

  /** Declaration `k` exports mock `k`. */
  lemma {:induction false} ExportLinesAt(mocks: seq<Mock>, k: nat)
    requires k < |mocks|
    ensures ExportLines(mocks)[k] == ExportLine(mocks[k]) == "export " + MockLine(mocks[k])
    decreases |mocks|
  {
    if k < |mocks| - 1 {
      ExportLinesAt(mocks[..|mocks| - 1], k);
    }
  }

  function HelperName(h: Helper): string {
    OrDefault(h.name, "helperFunction")
  }

  function HelperBody(h: Helper): string {
    OrDefault(h.body, "return null;")
  }

  /** `_generate_helper` */
  function HelperText(h: Helper): string {
    "export function " + HelperName(h) + "(" + Join(h.params, ", ") + ") {\n  " + HelperBody(h) + "\n}"
  }

  /** One helper text per helper, in order. */
  function HelperTexts(helpers: seq<Helper>): (r: seq<string>)
    ensures |r| == |helpers|
  {
    if helpers == [] then [] else HelperTexts(helpers[..|helpers| - 1]) + [HelperText(helpers[|helpers| - 1])]
  }

  /** The sections `generate_utils_file` joins. */
  function UtilsSections(mocks: seq<Mock>, helpers: seq<Helper>): seq<string> {
    (if mocks != [] then ["// Mock Data"] + ExportLines(mocks) else [])
      + (if helpers != [] then ["\n// Helper Functions"] + HelperTexts(helpers) else [])
  }

  /** What `generate_utils_file` returns. */
  function UtilsFileText(mocks: seq<Mock>, helpers: seq<Helper>): string {
    Join(UtilsSections(mocks, helpers), "\n\n") + "\n"
  }

  /** `generate_utils_file` */
  method GenerateUtilsFile(mocks: seq<Mock>, helpers: seq<Helper>) returns (text: string)
    ensures text == UtilsFileText(mocks, helpers)
  {
    var sections: seq<string> := [];
    if mocks != [] {
      sections := sections + ["// Mock Data"];
      for i := 0 to |mocks|
        invariant sections == ["// Mock Data"] + ExportLines(mocks[..i])
      {
        assert mocks[..i + 1][..i] == mocks[..i] && mocks[..i + 1][i] == mocks[i];
        sections := sections + [ExportLine(mocks[i])];
      }
      assert mocks[..|mocks|] == mocks;
    }
    ghost var head := sections;
    assert head == (if mocks != [] then ["// Mock Data"] + ExportLines(mocks) else []);
    if helpers != [] {
      sections := sections + ["\n// Helper Functions"];
      for j := 0 to |helpers|
        invariant sections == head + ["\n// Helper Functions"] + HelperTexts(helpers[..j])
      {
        assert helpers[..j + 1][..j] == helpers[..j] && helpers[..j + 1][j] == helpers[j];
        sections := sections + [HelperText(helpers[j])];
      }
      assert helpers[..|helpers|] == helpers;
    } else {
      assert sections == head + [];
    }
    assert sections == UtilsSections(mocks, helpers);
    text := Join(sections, "\n\n") + "\n";
  }

  // ---------------------------------------------------------------------
  // Reading the files back, line by line
  // ---------------------------------------------------------------------

  /** Neither the name nor the content of the mock holds a newline. */
  predicate MockClean(m: Mock) {
    NoNewline(MockName(m)) && NoNewline(MockContent(m))
  }

  /** `_generate_mocks`, read back: one declaration per line, in the order of the mocks. */
  lemma MocksSectionLines(mocks: seq<Mock>)
    requires mocks != []
    requires forall k :: 0 <= k < |mocks| ==> MockClean(mocks[k])
    ensures |Lines(MocksSection(mocks))| == |mocks|
    ensures forall k :: 0 <= k < |mocks| ==>
              Lines(MocksSection(mocks))[k] == "const " + MockName(mocks[k]) + " = " + MockContent(mocks[k]) + ";"
  {
    forall k | 0 <= k < |mocks|
      ensures '\n' !in MockLines(mocks)[k]
    {
      MockLinesAt(mocks, k);
    }
    SplitJoin(MockLines(mocks), '\n');
    forall k | 0 <= k < |mocks|
      ensures MockLines(mocks)[k] == MockLine(mocks[k])
    {
      MockLinesAt(mocks, k);
    }
  }

  /** The line groups of a test file: the imports, the mock declarations, then the lines of each describe block. */
  function TestFileGroups(imports: seq<string>, mocks: seq<Mock>, describes: seq<Describe>): seq<seq<string>> {
    (if imports != [] then [imports] else [])
      + (if mocks != [] then [MockLines(mocks)] else [])
      + MapLines(DescribeTexts(describes))
  }

  /** Each section reads back as its group of lines. */
  lemma SectionsAsGroups(imports: seq<string>, mocks: seq<Mock>, describes: seq<Describe>)
    requires forall k :: 0 <= k < |imports| ==> NoNewline(imports[k])
    requires forall k :: 0 <= k < |mocks| ==> MockClean(mocks[k])
    ensures MapLines(TestFileSections(imports, mocks, describes)) == TestFileGroups(imports, mocks, describes)
  {
    var a := if imports != [] then [ImportsSection(imports)] else [];
    var b := if mocks != [] then [MocksSection(mocks)] else [];
    if imports != [] {
      SplitJoin(imports, '\n');
      assert MapLines(a) == [imports];
    }
    if mocks != [] {
      forall k | 0 <= k < |mocks|
        ensures '\n' !in MockLines(mocks)[k]
      {
        MockLinesAt(mocks, k);
      }
      SplitJoin(MockLines(mocks), '\n');
      assert MapLines(b) == [MockLines(mocks)];
    }
    MapLinesAppend(a + b, DescribeTexts(describes));
    MapLinesAppend(a, b);
  }

  /**
   * `generate_test_file`, read back line by line: the imports one per
   * line, the mock declarations one per line, then the lines of each
   * describe block, with an empty line between neighbouring sections and
   * an empty last line after the final newline; a file with no section at
   * all is a single newline. Each describe block's lines are framed as
   * `DescribeShape` states.
   */
  lemma TestFileLayout(imports: seq<string>, mocks: seq<Mock>, describes: seq<Describe>)
    requires forall k :: 0 <= k < |imports| ==> NoNewline(imports[k])
    requires forall k :: 0 <= k < |mocks| ==> MockClean(mocks[k])
    ensures var groups := TestFileGroups(imports, mocks, describes);
      Lines(TestFileText(imports, mocks, describes)) == (if groups == [] then [""] else Spaced(groups)) + [""]
    ensures imports == [] && mocks == [] && describes == [] ==> TestFileText(imports, mocks, describes) == "\n"
  {
    var sections := TestFileSections(imports, mocks, describes);
    SectionsAsGroups(imports, mocks, describes);
    TrailingNewline(Join(sections, "\n\n"));
    if sections != [] {
      LinesJoinSpaced(sections);
    } else {
      assert Lines("") == [""];
    }
  }

  /**
   * The one describe block of a split file, read back: it opens with the
   * category as its name, holds the tests one level deeper, and neither a
   * hook nor a nested block.
   */
  lemma SplitFileDescribe(category: string, tests: seq<TestCase>)
    requires NoNewline(category)
    ensures Lines(DescribeText(SplitDescribe(category, tests), 0))
         == ["describe('" + category + "', () => {"] + Concat(MapLines(TestEntries(tests, 1))) + ["});"]
  {
    var d := SplitDescribe(category, tests);
    assert DescribeMiddle(d, 0) == TestEntries(tests, 1);
    assert Opening(d, 0) == "describe('" + category + "', () => {";
    assert Closing(0) == "});";
    LinesJoin(DescribeParts(d, 0));
    MiddleLines(Opening(d, 0), TestEntries(tests, 1), Closing(0));
  }

  /** Joining one-line pieces with a one-line separator gives one line. */
  lemma {:induction false} JoinOneLine(parts: seq<string>, sep: string)
    requires NoNewline(sep) && forall k :: 0 <= k < |parts| ==> NoNewline(parts[k])
    ensures NoNewline(Join(parts, sep))
    decreases |parts|
  {
    if |parts| > 1 {
      JoinOneLine(parts[1..], sep);
    }
  }

  /** No part of the helper holds a newline. */
  predicate HelperClean(h: Helper) {
    NoNewline(HelperName(h)) && NoNewline(HelperBody(h)) && forall k :: 0 <= k < |h.params| ==> NoNewline(h.params[k])
  }

  /** `_generate_helper`, read back: the signature, the body indented by two spaces, the closing brace. */
  lemma HelperLines(h: Helper)
    requires HelperClean(h)
    ensures Lines(HelperText(h)) == ["export function " + HelperName(h) + "(" + Join(h.params, ", ") + ") {", "  " + HelperBody(h), "}"]
  {
    JoinOneLine(h.params, ", ");
    var a := "export function " + HelperName(h) + "(" + Join(h.params, ", ") + ") {";
    var b := "  " + HelperBody(h);
    assert HelperText(h) == a + ['\n'] + (b + ['\n'] + "}");
    SplitAppend(a, b + ['\n'] + "}", '\n');
    SplitAppend(b, "}", '\n');
    SplitNoSeparator(a, '\n');
    SplitNoSeparator(b, '\n');
    SplitNoSeparator("}", '\n');
  }

  /** Groups that are single lines are spaced onto the even lines, with empty lines between. */
  lemma {:induction false} SpacedSingles(gs: seq<seq<string>>, xs: seq<string>)
    requires |xs| <= |gs|
    requires forall k :: 0 <= k < |xs| ==> gs[k] == [xs[k]]
    ensures forall k :: 0 <= k < |xs| ==> 2 * k < |Spaced(gs)| && Spaced(gs)[2 * k] == xs[k]
    ensures forall k :: 0 <= k < |xs| && k < |gs| - 1 ==> 2 * k + 1 < |Spaced(gs)| && Spaced(gs)[2 * k + 1] == ""
    decreases |xs|
  {
    if xs != [] && |gs| > 1 {
      SpacedSingles(gs[1..], xs[1..]);
      var rest := Spaced(gs[1..]);
      assert Spaced(gs) == [xs[0]] + [""] + rest;
      forall k | 0 < k < |xs|
        ensures 2 * k < |Spaced(gs)| && Spaced(gs)[2 * k] == xs[k]
        ensures k < |gs| - 1 ==> 2 * k + 1 < |Spaced(gs)| && Spaced(gs)[2 * k + 1] == ""
      {
        assert Spaced(gs)[2 * k] == rest[2 * (k - 1)];
        if k < |gs| - 1 {
          assert Spaced(gs)[2 * k + 1] == rest[2 * (k - 1) + 1];
        }
      }
    }
  }

  /** `generate_utils_file`, read back: its sections spaced as in a test file, and a final newline. */
  lemma UtilsFileLines(mocks: seq<Mock>, helpers: seq<Helper>)
    ensures var sections := UtilsSections(mocks, helpers);
      Lines(UtilsFileText(mocks, helpers)) == (if sections == [] then [""] else Spaced(MapLines(sections))) + [""]
  {
    var sections := UtilsSections(mocks, helpers);
    TrailingNewline(Join(sections, "\n\n"));
    if sections != [] {
      LinesJoinSpaced(sections);
    } else {
      assert Lines("") == [""];
    }
  }

  /** The mock part of a utilities file reads back as single lines. */
  lemma MockPartSingles(mocks: seq<Mock>, helpers: seq<Helper>)
    requires mocks != []
    requires forall k :: 0 <= k < |mocks| ==> MockClean(mocks[k])
    ensures var xs := ["// Mock Data"] + ExportLines(mocks);
      forall k :: 0 <= k < |xs| ==> MapLines(UtilsSections(mocks, helpers))[k] == [xs[k]]
  {
    var sections := UtilsSections(mocks, helpers);
    var xs := ["// Mock Data"] + ExportLines(mocks);
    assert sections[..|xs|] == xs;
    forall k | 0 <= k < |xs|
      ensures MapLines(sections)[k] == [xs[k]]
    {
      if k > 0 {
        ExportLinesAt(mocks, k - 1);
      }
      assert sections[k] == xs[k];
      SplitNoSeparator(xs[k], '\n');
    }
  }

  /** Single-line groups, spaced: the first line, then each further line after an empty one. */
  lemma SpacedSinglesShift(gs: seq<seq<string>>, xs: seq<string>)
    requires 1 <= |xs| <= |gs|
    requires forall k :: 0 <= k < |xs| ==> gs[k] == [xs[k]]
    ensures |Spaced(gs)| > 2 * (|xs| - 1)
    ensures Spaced(gs)[0] == xs[0]
    ensures forall k :: 0 <= k < |xs| - 1 ==> Spaced(gs)[2 * k + 1] == "" && Spaced(gs)[2 * k + 2] == xs[k + 1]
  {
    SpacedSingles(gs, xs);
    forall k | 0 <= k < |xs| - 1
      ensures 2 * k + 2 < |Spaced(gs)| && Spaced(gs)[2 * k + 1] == "" && Spaced(gs)[2 * k + 2] == xs[k + 1]
    {
      assert 2 * k + 2 == 2 * (k + 1);
    }
  }

  /**
   * Lines `ls` open with `// Mock Data` and then hold, each after an empty
   * line, the test file's declaration of each mock behind `export `.
   */
  predicate MocksLaidOut(ls: seq<string>, mocks: seq<Mock>) {
    && |ls| > 2 * |mocks| + 1
    && ls[0] == "// Mock Data"
    && forall k :: 0 <= k < |mocks| ==> ls[2 * k + 1] == "" && ls[2 * k + 2] == "export " + MockLine(mocks[k])
  }

  /** `generate_utils_file` with mocks, read back line by line: the mock part comes first, laid out as above. */
  lemma UtilsFileMocks(mocks: seq<Mock>, helpers: seq<Helper>)
    requires mocks != []
    requires forall k :: 0 <= k < |mocks| ==> MockClean(mocks[k])
    ensures MocksLaidOut(Lines(UtilsFileText(mocks, helpers)), mocks)
  {
    var xs := ["// Mock Data"] + ExportLines(mocks);
    var gs := MapLines(UtilsSections(mocks, helpers));
    assert UtilsSections(mocks, helpers) != [];
    UtilsFileLines(mocks, helpers);
    MockPartSingles(mocks, helpers);
    SpacedSinglesShift(gs, xs);
    ExportPart(mocks, xs);
    MocksLaidOutFrom(Lines(UtilsFileText(mocks, helpers)), Spaced(gs), xs, mocks);
  }

  /** Spaced single lines followed by the final empty line give the layout. */
  lemma MocksLaidOutFrom(ls: seq<string>, sp: seq<string>, xs: seq<string>, mocks: seq<Mock>)
    requires ls == sp + [""]
    requires |xs| == |mocks| + 1 && xs[0] == "// Mock Data"
    requires |sp| > 2 * (|xs| - 1) && sp[0] == xs[0]
    requires forall k :: 0 <= k < |xs| - 1 ==> sp[2 * k + 1] == "" && sp[2 * k + 2] == xs[k + 1]
    requires forall k :: 0 <= k < |mocks| ==> xs[k + 1] == "export " + MockLine(mocks[k])
    ensures MocksLaidOut(ls, mocks)
  {
  }

  /** The exported declarations follow the heading, one per mock. */
  lemma ExportPart(mocks: seq<Mock>, xs: seq<string>)
    requires xs == ["// Mock Data"] + ExportLines(mocks)
    ensures |xs| == |mocks| + 1
    ensures forall k :: 0 <= k < |mocks| ==> xs[k + 1] == "export " + MockLine(mocks[k])
  {
    forall k | 0 <= k < |mocks|
      ensures xs[k + 1] == "export " + MockLine(mocks[k])
    {
      AfterHead("// Mock Data", ExportLines(mocks), k);
      ExportLinesAt(mocks, k);
    }
  }

  /** Behind a heading, every index moves up by one. */
  lemma AfterHead<T>(h: T, e: seq<T>, k: nat)
    requires k < |e|
    ensures ([h] + e)[k + 1] == e[k]
  {
  }
}
