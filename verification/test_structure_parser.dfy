/**
 * The line-oriented recogniser of `describe` / `it` / hook blocks in a
 * TypeScript test file. Blocks are delimited by brace balance, children of a
 * `describe` are found by a sub-cursor, and the tree is flattened depth-first
 * into category names and test-case names.
 */
module TestStructureParser {
  import opened Wrappers
  import opened Text

  datatype BlockType = Describe | It | BeforeEach | AfterEach | BeforeAll | AfterAll

  /** The enum's value string, which is also the text of the call in the file. */
  function KindName(k: BlockType): string {
    match k
    case Describe => "describe"
    case It => "it"
    case BeforeEach => "beforeEach"
    case AfterEach => "afterEach"
    case BeforeAll => "beforeAll"
    case AfterAll => "afterAll"
  }

  predicate IsHook(k: BlockType) {
    k != Describe && k != It
  }

  /** The metadata dictionary a block carries, by kind. */
  datatype Metadata =
    | NoMetadata
    | DescribeMeta(indentation: nat, isNested: bool)
    | ItMeta(expectCount: nat, hasAsync: bool, lineCount: nat)

  datatype TestBlock = TestBlock(
    kind: BlockType,
    name: string,
    startLine: nat,
    endLine: nat,
    content: string,
    children: seq<TestBlock>,
    metadata: Metadata)

  /** What a line announces: the kind of block it opens and that block's name. */
  datatype Header = Header(kind: BlockType, name: string)

  // ---------------------------------------------------------------------------
  // Brace balance
  // ---------------------------------------------------------------------------

  /** Some line of `ls` holds a `{`. */
  predicate Opened(ls: seq<string>)
    decreases |ls|
  {
    ls != [] && (Opened(ls[..|ls| - 1]) || '{' in ls[|ls| - 1])
  }

  /** At the end of line `i`, a `{` has been seen since `start` and the braces balance. */
  predicate Closes(lines: seq<string>, start: nat, i: nat)
    requires start <= i < |lines|
  {
    Opened(lines[start..i + 1]) && NetLines(lines[start..i + 1], '{', '}') == 0
  }

  /**
   * `end` is where the block opened on line `start` ends: the first line that
   * closes it, or the last line of the file when none does.
   */
  predicate IsBlockEnd(lines: seq<string>, start: nat, end: nat) {
    && start <= end < |lines|
    && (forall k :: start <= k < end ==> !Closes(lines, start, k))
    && (Closes(lines, start, end) || end == |lines| - 1)
  }

  /** Brace-balancing scan for the end of the block opened on line `start`. */
  method FindBlockEnd(lines: seq<string>, start: nat) returns (end: nat)
    requires start < |lines|
    ensures IsBlockEnd(lines, start, end)
  {
    var braceCount := 0;
    var started := false;
    for i := start to |lines|
      invariant braceCount == NetLines(lines[start..i], '{', '}')
      invariant started == Opened(lines[start..i])
      invariant forall k :: start <= k < i ==> !Closes(lines, start, k)
    {
      var line := lines[i];
      for j := 0 to |line|
        invariant braceCount == NetLines(lines[start..i], '{', '}') + Net(line[..j], '{', '}')
        invariant started == (Opened(lines[start..i]) || '{' in line[..j])
      {
        assert line[..j + 1][..j] == line[..j];
        assert '{' in line[..j + 1] <==> '{' in line[..j] || line[j] == '{';
        if line[j] == '{' {
          braceCount := braceCount + 1;
          started := true;
        } else if line[j] == '}' {
          braceCount := braceCount - 1;
        }
      }
      assert line[..|line|] == line;
      assert lines[start..i + 1][..i - start] == lines[start..i];
      if started && braceCount == 0 {
        return i;
      }
    }
    return |lines| - 1;
  }

  /** Only one line index satisfies the block-end characterisation. */
  lemma BlockEndUnique(lines: seq<string>, start: nat, e1: nat, e2: nat)
    requires IsBlockEnd(lines, start, e1) && IsBlockEnd(lines, start, e2)
    ensures e1 == e2
  {
  }

  lemma {:induction false} NeverOpened(ls: seq<string>)
    requires forall k :: 0 <= k < |ls| ==> '{' !in ls[k]
    ensures !Opened(ls)
    decreases |ls|
  {
    if ls != [] {
      NeverOpened(ls[..|ls| - 1]);
    }
  }

  /** A block none of whose lines holds a `{` runs to the last line of the file. */
  lemma NoBraceBlockRunsToEnd(lines: seq<string>, start: nat, end: nat)
    requires forall k :: start <= k < |lines| ==> '{' !in lines[k]
    requires IsBlockEnd(lines, start, end)
    ensures end == |lines| - 1
  {
    NeverOpened(lines[start..end + 1]);
  }

  /** A start line that opens a brace and balances it, such as `beforeEach(() => { x(); });`, is a whole block. */
  lemma OneLineBlock(lines: seq<string>, start: nat, end: nat)
    requires start < |lines| && '{' in lines[start] && Net(lines[start], '{', '}') == 0
    requires IsBlockEnd(lines, start, end)
    ensures end == start
  {
    var one := lines[start..start + 1];
    assert one[..0] == [];
    assert Closes(lines, start, start);
  }

  // ---------------------------------------------------------------------------
  // The three regular expressions, as matchers
  // ---------------------------------------------------------------------------

  predicate IsQuote(c: char) {
    c == '\'' || c == '"'
  }

  /** The regex tail `\s*,` matches at index `i`. */
  predicate CommaAt(s: string, i: nat)
    requires i <= |s|
  {
    var j := SkipSpaces(s, i);
    j < |s| && s[j] == ','
  }

  /** The name `s[a..e]` is closed by a quote at `e` followed by `\s*,`. */
  predicate NameClosedAt(s: string, e: nat)
    requires e < |s|
  {
    IsQuote(s[e]) && CommaAt(s, e + 1)
  }

  /**
   * The lazy group `(.+?)` started at `a` and tried up to `e - 1`: the first
   * closing index at or after `e`, as long as `.` (anything but a newline)
   * can extend the name that far.
   */
  function LazyName(s: string, a: nat, e: nat): (r: Option<nat>)
    requires a < e
    ensures r.Some? ==> e <= r.value < |s| && NameClosedAt(s, r.value)
    ensures r.Some? ==> forall x :: e <= x < r.value ==> !NameClosedAt(s, x)
    ensures r.Some? ==> forall x :: e - 1 <= x < r.value ==> s[x] != '\n'
    decreases |s| - e
  {
    if e >= |s| || s[e - 1] == '\n' then None
    else if NameClosedAt(s, e) then Some(e)
    else LazyName(s, a, e + 1)
  }

  /** The regex `kw\(['"](.+?)['"]\s*,` tried at position `p`; the group it captures. */
  function CallAt(s: string, kw: string, p: nat): (r: Option<string>)
    ensures r.Some? ==> OccursAt(s, kw + "(", p) && r.value != [] && '\n' !in r.value
  {
    var a := p + |kw| + 2;
    if OccursAt(s, kw + "(", p) && p + |kw| + 1 < |s| && IsQuote(s[p + |kw| + 1]) then
      match LazyName(s, a, a + 1)
      case Some(e) =>
        assert forall x :: 0 <= x < |s[a..e]| ==> s[a..e][x] == s[a + x];
        Some(s[a..e])
      case None => None
    else None
  }

  /** `re.search` from position `p` on: the leftmost match. */
  function SearchCall(s: string, kw: string, p: nat): Option<string>
    decreases |s| - p
  {
    if p >= |s| then None
    else if CallAt(s, kw, p).Some? then CallAt(s, kw, p)
    else SearchCall(s, kw, p + 1)
  }

  /** The captured name of the first `kw('...',` call on the line. */
  function CallName(line: string, kw: string): Option<string> {
    SearchCall(line, kw, 0)
  }

  /** The search finds the leftmost position at which the pattern matches. */
  lemma {:induction false} SearchCallLeftmost(s: string, kw: string, p: nat)
    requires SearchCall(s, kw, p).Some?
    ensures exists q: nat :: p <= q < |s| && CallAt(s, kw, q) == SearchCall(s, kw, p)
                             && forall x :: p <= x < q ==> CallAt(s, kw, x).None?
    decreases |s| - p
  {
    if CallAt(s, kw, p).None? {
      SearchCallLeftmost(s, kw, p + 1);
      var q: nat :| p + 1 <= q < |s| && CallAt(s, kw, q) == SearchCall(s, kw, p + 1)
                    && forall x :: p + 1 <= x < q ==> CallAt(s, kw, x).None?;
      assert forall x :: p <= x < q ==> CallAt(s, kw, x).None?;
    } else {
      assert CallAt(s, kw, p) == SearchCall(s, kw, p);
    }
  }

  /** A line whose call pattern matches contains `kw(`, and the captured name is a non-empty one-line string. */
  lemma CallNameSound(line: string, kw: string)
    requires CallName(line, kw).Some?
    ensures Contains(line, kw + "(")
    ensures CallName(line, kw).value != [] && '\n' !in CallName(line, kw).value
  {
    SearchCallLeftmost(line, kw, 0);
    var q: nat :| q < |line| && CallAt(line, kw, q) == CallName(line, kw);
    ContainsWitness(line, kw + "(", q);
  }

  /** The hooks in the order the alternation `(beforeEach|afterEach|beforeAll|afterAll)` tries them. */
  const Hooks: seq<BlockType> := [BeforeEach, AfterEach, BeforeAll, AfterAll]

  /** The hook alternation followed by `(` tried at position `p`. */
  function HookAt(s: string, p: nat): (r: Option<BlockType>)
    ensures r.Some? ==> IsHook(r.value) && OccursAt(s, KindName(r.value) + "(", p)
  {
    if OccursAt(s, "beforeEach(", p) then Some(BeforeEach)
    else if OccursAt(s, "afterEach(", p) then Some(AfterEach)
    else if OccursAt(s, "beforeAll(", p) then Some(BeforeAll)
    else if OccursAt(s, "afterAll(", p) then Some(AfterAll)
    else None
  }

  /** `HOOK_PATTERN.search` from position `p` on. */
  function SearchHook(s: string, p: nat): (r: Option<BlockType>)
    ensures r.Some? ==> IsHook(r.value)
    decreases |s| - p
  {
    if p >= |s| then None
    else if HookAt(s, p).Some? then HookAt(s, p)
    else SearchHook(s, p + 1)
  }

  /** `any(hook in line for hook in [...])`: a hook name appears, with or without a call. */
  predicate MentionsHook(s: string) {
    exists k :: k in Hooks && Contains(s, KindName(k))
  }

  // ---------------------------------------------------------------------------
  // Which lines open blocks
  // ---------------------------------------------------------------------------

  /**
   * The header a line opens inside a `describe` (`_parse_child_block`):
   * the first of `describe(`, `it(`, a hook name that the stripped line
   * contains decides which pattern is tried, and a failing pattern means
   * no block.
   */
  function ChildOpener(line: string): Option<Header> {
    var s := Strip(line);
    if Contains(s, "describe(") then
      (match CallName(line, "describe") case Some(n) => Some(Header(Describe, n)) case None => None)
    else if Contains(s, "it(") then
      (match CallName(line, "it") case Some(n) => Some(Header(It, n)) case None => None)
    else if MentionsHook(s) then
      (match SearchHook(line, 0) case Some(k) => Some(Header(k, KindName(k))) case None => None)
    else None
  }

  /**
   * The header a line opens at the top level (`parse_structure`): blank lines
   * and `//` comments open nothing, and a pattern that fails falls through
   * to the next kind.
   */
  function TopOpener(line: string): Option<Header> {
    var s := Strip(line);
    if s == [] || StartsWith(s, "//") then None
    else if Contains(s, "describe(") && CallName(line, "describe").Some? then
      Some(Header(Describe, CallName(line, "describe").value))
    else if Contains(s, "it(") && CallName(line, "it").Some? then
      Some(Header(It, CallName(line, "it").value))
    else if MentionsHook(s) && SearchHook(line, 0).Some? then
      Some(Header(SearchHook(line, 0).value, KindName(SearchHook(line, 0).value)))
    else None
  }

  /** The header each line opens, at the top level or inside a `describe`. */
  function Openers(lines: seq<string>, top: bool): (hs: seq<Option<Header>>)
    ensures |hs| == |lines|
  {
    seq(|lines|, j requires 0 <= j < |lines| => if top then TopOpener(lines[j]) else ChildOpener(lines[j]))
  }

  // ---------------------------------------------------------------------------
  // What a correct parse looks like
  // ---------------------------------------------------------------------------

  /** Line `j` lies inside one of the blocks `bs`. */
  predicate Covered(bs: seq<TestBlock>, j: int) {
    exists k :: 0 <= k < |bs| && bs[k].startLine <= j <= bs[k].endLine
  }

  lemma CoveredSnoc(bs: seq<TestBlock>, c: TestBlock, j: int)
    ensures Covered(bs + [c], j) <==> Covered(bs, j) || c.startLine <= j <= c.endLine
  {
    if Covered(bs, j) {
      var k :| 0 <= k < |bs| && bs[k].startLine <= j <= bs[k].endLine;
      assert (bs + [c])[k] == bs[k];
    }
    if c.startLine <= j <= c.endLine {
      assert (bs + [c])[|bs|] == c;
    }
  }

  /**
   * `bs` is what a cursor over the lines `[lo, hi)` collects once it has
   * passed index `upTo`: the blocks start inside the range, in order and
   * without overlapping; each starts on a line that opens it; and every line
   * before `upTo` that no block covers opens nothing.
   */
  predicate Collected(heads: seq<Option<Header>>, lo: nat, hi: nat, upTo: nat, bs: seq<TestBlock>) {
    && (forall k :: 0 <= k < |bs| ==> lo <= bs[k].startLine < hi && bs[k].startLine <= bs[k].endLine < |heads|)
    && (forall k :: 0 <= k < |bs| - 1 ==> bs[k].endLine < bs[k + 1].startLine)
    && (forall k :: 0 <= k < |bs| ==> heads[bs[k].startLine] == Some(Header(bs[k].kind, bs[k].name)))
    && (forall j :: lo <= j < upTo && j < hi && j < |heads| && !Covered(bs, j) ==> heads[j].None?)
  }

  /** The metadata the parser attaches to a block of kind `k` spanning `start..end`. */
  predicate MetadataOk(lines: seq<string>, b: TestBlock)
    requires b.startLine <= b.endLine < |lines|
  {
    var line := lines[b.startLine];
    match b.kind
    case Describe => b.metadata == DescribeMeta(|line| - |LStrip(line)|, StartsWith(line, " "))
    case It =>
      b.metadata == ItMeta(Count(b.content, "expect("),
                           Contains(line, "async") || Contains(b.content, "await"),
                           b.endLine - b.startLine + 1)
    case _ => b.metadata == NoMetadata
  }

  /**
   * A block as the parser builds it: its end is the brace-balanced end of its
   * start line, its content is exactly its lines joined with newlines, its
   * metadata is computed from them, and a `describe` holds precisely the
   * children its sub-cursor collects from the lines strictly between its
   * first and last line, each well formed in turn.
   */
  predicate WellFormed(lines: seq<string>, b: TestBlock)
    decreases b
  {
    && IsBlockEnd(lines, b.startLine, b.endLine)
    && b.content == Join(lines[b.startLine..b.endLine + 1], "\n")
    && MetadataOk(lines, b)
    && (b.kind == Describe ==> Collected(Openers(lines, false), b.startLine + 1, b.endLine, b.endLine, b.children))
    && (b.kind != Describe ==> b.children == [])
    && (forall c :: c in b.children ==> WellFormed(lines, c))
  }

  // ---------------------------------------------------------------------------
  // The parser
  // ---------------------------------------------------------------------------

  /** `parse_structure`: top-level blocks, the cursor jumping past each one it captures. */
  method ParseStructure(lines: seq<string>) returns (blocks: seq<TestBlock>)
    ensures Collected(Openers(lines, true), 0, |lines|, |lines|, blocks)
    ensures forall k :: 0 <= k < |blocks| ==> WellFormed(lines, blocks[k])
  {
    blocks := [];
    var i := 0;
    while i < |lines|
      invariant i <= |lines|
      invariant Scanned(lines, Openers(lines, true), 0, |lines|, i, blocks)
      decreases |lines| - i
    {
      blocks, i := TopStep(lines, i, blocks);
    }
  }

  /** One turn of the top-level cursor: capture the block opening at `i` and jump past it, or step one line. */
  method TopStep(lines: seq<string>, i: nat, blocks: seq<TestBlock>) returns (blocks': seq<TestBlock>, next: nat)
    requires i < |lines|
    requires Scanned(lines, Openers(lines, true), 0, |lines|, i, blocks)
    ensures i < next <= |lines|
    ensures Scanned(lines, Openers(lines, true), 0, |lines|, next, blocks')
  {
    var b := ParseTopBlock(lines, i);
    assert Openers(lines, true)[i] == TopOpener(lines[i]);
    ScanStep(lines, Openers(lines, true), 0, |lines|, i, blocks, b);
    blocks', next := Advance(blocks, i, b).0, Advance(blocks, i, b).1;
  }

  /** One step of `parse_structure` at line `start`: describe, then it, then hooks. */
  method ParseTopBlock(lines: seq<string>, start: nat) returns (r: Option<TestBlock>)
    requires start < |lines|
    ensures r.None? <==> TopOpener(lines[start]).None?
    ensures r.Some? ==> TopOpener(lines[start]) == Some(Header(r.value.kind, r.value.name))
    ensures r.Some? ==> r.value.startLine == start && WellFormed(lines, r.value)
  {
    var s := Strip(lines[start]);
    if s == [] || StartsWith(s, "//") {
      return None;
    }
    if Contains(s, "describe(") {
      r := ParseDescribeBlock(lines, start);
      if r.Some? {
        return;
      }
    }
    if Contains(s, "it(") {
      r := ParseItBlock(lines, start);
      if r.Some? {
        return;
      }
    }
    if MentionsHook(s) {
      r := ParseHook(lines, start);
      if r.Some? {
        return;
      }
    }
    return None;
  }

  /** `_parse_describe_block`: the block, then its children found by a sub-cursor. */
  method ParseDescribeBlock(lines: seq<string>, start: nat) returns (r: Option<TestBlock>)
    requires start < |lines|
    ensures r.None? <==> CallName(lines[start], "describe").None?
    ensures r.Some? ==> r.value.kind == Describe && r.value.name == CallName(lines[start], "describe").value
    ensures r.Some? ==> r.value.startLine == start && WellFormed(lines, r.value)
    decreases |lines| - start, 1
  {
    var line := lines[start];
    var m := CallName(line, "describe");
    if m.None? {
      return None;
    }
    var end := FindBlockEnd(lines, start);
    var children := CollectChildren(lines, start, end);
    DescribeWellFormed(lines, m.value, start, end, children);
    return Some(DescribeBlock(lines, m.value, start, end, children));
  }

  /** The describe block spanning `start..end` with the given name and children. */
  function DescribeBlock(lines: seq<string>, name: string, start: nat, end: nat, children: seq<TestBlock>): TestBlock
    requires start <= end < |lines|
  {
    TestBlock(Describe, name, start, end, Join(lines[start..end + 1], "\n"), children,
              DescribeMeta(|lines[start]| - |LStrip(lines[start])|, StartsWith(lines[start], " ")))
  }

  /** The sub-cursor of `_parse_describe_block`: from `start + 1` while below `end`. */
  method CollectChildren(lines: seq<string>, start: nat, end: nat) returns (children: seq<TestBlock>)
    requires start <= end < |lines|
    ensures Collected(Openers(lines, false), start + 1, end, end, children)
    ensures forall k :: 0 <= k < |children| ==> WellFormed(lines, children[k])
    decreases |lines| - start, 0
  {
    children := [];
    var i := start + 1;
    while i < end
      invariant start + 1 <= i <= |lines|
      invariant Scanned(lines, Openers(lines, false), start + 1, end, i, children)
      decreases |lines| - i
    {
      children, i := ChildStep(lines, start, end, i, children);
    }
  }

  /** One turn of the sub-cursor: capture the child opening at `i` and jump past it, or step one line. */
  method ChildStep(lines: seq<string>, start: nat, end: nat, i: nat, children: seq<TestBlock>)
    returns (children': seq<TestBlock>, next: nat)
    requires start + 1 <= i < end < |lines|
    requires Scanned(lines, Openers(lines, false), start + 1, end, i, children)
    ensures i < next <= |lines|
    ensures Scanned(lines, Openers(lines, false), start + 1, end, next, children')
    decreases |lines| - i, 3
  {
    var child := ParseChildBlock(lines, i);
    assert Openers(lines, false)[i] == ChildOpener(lines[i]);
    ScanStep(lines, Openers(lines, false), start + 1, end, i, children, child);
    children', next := Advance(children, i, child).0, Advance(children, i, child).1;
  }

  /** A describe block assembled from its end, content, metadata and collected children is well formed. */
  lemma DescribeWellFormed(lines: seq<string>, name: string, start: nat, end: nat, children: seq<TestBlock>)
    requires IsBlockEnd(lines, start, end)
    requires Collected(Openers(lines, false), start + 1, end, end, children)
    requires forall k :: 0 <= k < |children| ==> WellFormed(lines, children[k])
    ensures WellFormed(lines, DescribeBlock(lines, name, start, end, children))
  {
    forall c | c in children
      ensures WellFormed(lines, c)
    {
      var k :| 0 <= k < |children| && children[k] == c;
    }
  }

  /** `_parse_it_block`: a test case with its `expect(` count, async flag and line count. */
  method ParseItBlock(lines: seq<string>, start: nat) returns (r: Option<TestBlock>)
    requires start < |lines|
    ensures r.None? <==> CallName(lines[start], "it").None?
    ensures r.Some? ==> r.value.kind == It && r.value.name == CallName(lines[start], "it").value
    ensures r.Some? ==> r.value.startLine == start && WellFormed(lines, r.value)
  {
    var line := lines[start];
    var m := CallName(line, "it");
    if m.None? {
      return None;
    }
    var end := FindBlockEnd(lines, start);
    var content := Join(lines[start..end + 1], "\n");
    var expectCount := Count(content, "expect(");
    return Some(TestBlock(It, m.value, start, end, content, [],
                          ItMeta(expectCount, Contains(line, "async") || Contains(content, "await"), end - start + 1)));
  }

  /** `_parse_hook`: a setup or teardown block named after its hook. */
  method ParseHook(lines: seq<string>, start: nat) returns (r: Option<TestBlock>)
    requires start < |lines|
    ensures r.None? <==> SearchHook(lines[start], 0).None?
    ensures r.Some? ==> r.value.kind == SearchHook(lines[start], 0).value && r.value.name == KindName(r.value.kind)
    ensures r.Some? ==> r.value.startLine == start && WellFormed(lines, r.value)
  {
    var line := lines[start];
    var m := SearchHook(line, 0);
    if m.None? {
      return None;
    }
    var end := FindBlockEnd(lines, start);
    return Some(TestBlock(m.value, KindName(m.value), start, end, Join(lines[start..end + 1], "\n"), [], NoMetadata));
  }

  /** `_parse_child_block`: the first kind the stripped line mentions decides, with no fall-through. */
  method ParseChildBlock(lines: seq<string>, start: nat) returns (r: Option<TestBlock>)
    requires start < |lines|
    ensures r.None? <==> ChildOpener(lines[start]).None?
    ensures r.Some? ==> ChildOpener(lines[start]) == Some(Header(r.value.kind, r.value.name))
    ensures r.Some? ==> r.value.startLine == start && WellFormed(lines, r.value)
    decreases |lines| - start, 2
  {
    var s := Strip(lines[start]);
    if Contains(s, "describe(") {
      r := ParseDescribeBlock(lines, start);
    } else if Contains(s, "it(") {
      r := ParseItBlock(lines, start);
    } else if MentionsHook(s) {
      r := ParseHook(lines, start);
    } else {
      r := None;
    }
  }

  /** The invariant of both cursors: the blocks so far are collected, end before the cursor and are well formed. */
  predicate Scanned(lines: seq<string>, heads: seq<Option<Header>>, lo: nat, hi: nat, i: nat, bs: seq<TestBlock>) {
    && Collected(heads, lo, hi, i, bs)
    && (forall k :: 0 <= k < |bs| ==> bs[k].endLine < i)
    && (forall k :: 0 <= k < |bs| ==> WellFormed(lines, bs[k]))
  }

  /** Where a cursor at `i` goes with what it parsed there: past the captured block, or to the next line. */
  function Advance(bs: seq<TestBlock>, i: nat, r: Option<TestBlock>): (seq<TestBlock>, nat) {
    if r.Some? then (bs + [r.value], r.value.endLine + 1) else (bs, i + 1)
  }

  /** Either outcome of parsing the line at the cursor keeps the cursor's invariant, and the cursor moves forward. */
  lemma ScanStep(lines: seq<string>, heads: seq<Option<Header>>, lo: nat, hi: nat, i: nat, bs: seq<TestBlock>,
                 r: Option<TestBlock>)
    requires lo <= i < hi <= |heads| == |lines|
    requires Scanned(lines, heads, lo, hi, i, bs)
    requires r.None? <==> heads[i].None?
    requires r.Some? ==> heads[i] == Some(Header(r.value.kind, r.value.name))
    requires r.Some? ==> r.value.startLine == i && WellFormed(lines, r.value)
    ensures i < Advance(bs, i, r).1 <= |lines|
    ensures Scanned(lines, heads, lo, hi, Advance(bs, i, r).1, Advance(bs, i, r).0)
  {
    if r.Some? {
      ScanCapture(lines, heads, lo, hi, i, bs, r.value);
    } else {
      SkipInScan(lines, heads, lo, hi, i, bs);
    }
  }

  /** Capturing a well-formed block `b` at the cursor keeps the cursor's invariant, past `b`'s end. */
  lemma ScanCapture(lines: seq<string>, heads: seq<Option<Header>>, lo: nat, hi: nat, i: nat, bs: seq<TestBlock>,
                    b: TestBlock)
    requires lo <= i < hi <= |heads| == |lines| && b.startLine == i
    requires Scanned(lines, heads, lo, hi, i, bs)
    requires heads[i] == Some(Header(b.kind, b.name)) && WellFormed(lines, b)
    ensures i < b.endLine + 1 <= |lines|
    ensures Scanned(lines, heads, lo, hi, b.endLine + 1, bs + [b])
  {
    assert IsBlockEnd(lines, i, b.endLine);
    AddToScan(heads, lo, hi, i, bs, b);
  }

  /** The scan invariant survives capturing block `b` at the cursor. */
  lemma AddToScan(heads: seq<Option<Header>>, lo: nat, hi: nat, i: nat, bs: seq<TestBlock>, b: TestBlock)
    requires lo <= i < hi && b.startLine == i <= b.endLine < |heads|
    requires Collected(heads, lo, hi, i, bs)
    requires forall k :: 0 <= k < |bs| ==> bs[k].endLine < i
    requires heads[i] == Some(Header(b.kind, b.name))
    ensures Collected(heads, lo, hi, b.endLine + 1, bs + [b])
  {
    var bs' := bs + [b];
    forall j | lo <= j < b.endLine + 1 && j < hi && j < |heads| && !Covered(bs', j)
      ensures heads[j].None?
    {
      CoveredSnoc(bs, b, j);
    }
  }

  /** The scan invariant survives stepping over a line that opens nothing. */
  lemma SkipInScan(lines: seq<string>, heads: seq<Option<Header>>, lo: nat, hi: nat, i: nat, bs: seq<TestBlock>)
    requires lo <= i < |heads|
    requires Scanned(lines, heads, lo, hi, i, bs)
    requires heads[i].None?
    ensures Scanned(lines, heads, lo, hi, i + 1, bs)
  {
  }

  // ---------------------------------------------------------------------------
  // Flattening
  // ---------------------------------------------------------------------------

  /** `extract_categories`: nested describe names, recursing only into describes. */
  function ExtractCategories(blocks: seq<TestBlock>): seq<string>
    decreases blocks
  {
    if blocks == [] then []
    else
      var b := blocks[0];
      var here :=
        if b.kind == Describe then
          (if b.metadata.DescribeMeta? && b.metadata.isNested then [b.name] else [])
          + ExtractCategories(b.children)
        else [];
      here + ExtractCategories(blocks[1..])
  }

  /** `extract_test_cases`: `it` names, recursing into every other block's children. */
  function ExtractTestCases(blocks: seq<TestBlock>): seq<string>
    decreases blocks
  {
    if blocks == [] then []
    else
      var b := blocks[0];
      var here := if b.kind == It then [b.name] else ExtractTestCases(b.children);
      here + ExtractTestCases(blocks[1..])
  }

  /** Every block of the forest, depth-first in source order. */
  function Preorder(blocks: seq<TestBlock>): seq<TestBlock>
    decreases blocks
  {
    if blocks == [] then [] else [blocks[0]] + Preorder(blocks[0].children) + Preorder(blocks[1..])
  }

  /** The names of the blocks of kind `It`, in order. */
  function ItNames(bs: seq<TestBlock>): seq<string> {
    if bs == [] then [] else (if bs[0].kind == It then [bs[0].name] else []) + ItNames(bs[1..])
  }

  /** The names of the describes whose start line is indented by a space, in order. */
  function NestedDescribeNames(bs: seq<TestBlock>): seq<string> {
    if bs == [] then []
    else
      (if bs[0].kind == Describe && bs[0].metadata.DescribeMeta? && bs[0].metadata.isNested then [bs[0].name] else [])
      + NestedDescribeNames(bs[1..])
  }

  lemma {:induction false} ItNamesAppend(a: seq<TestBlock>, b: seq<TestBlock>)
    ensures ItNames(a + b) == ItNames(a) + ItNames(b)
    decreases |a|
  {
    if a != [] {
      assert (a + b)[0] == a[0] && (a + b)[1..] == a[1..] + b;
      ItNamesAppend(a[1..], b);
    } else {
      assert a + b == b;
    }
  }

  lemma {:induction false} NestedDescribeNamesAppend(a: seq<TestBlock>, b: seq<TestBlock>)
    ensures NestedDescribeNames(a + b) == NestedDescribeNames(a) + NestedDescribeNames(b)
    decreases |a|
  {
    if a != [] {
      assert (a + b)[0] == a[0] && (a + b)[1..] == a[1..] + b;
      NestedDescribeNamesAppend(a[1..], b);
    } else {
      assert a + b == b;
    }
  }

  /** Only describes have children, at every level. */
  predicate OnlyDescribesNest(blocks: seq<TestBlock>)
    decreases blocks
  {
    forall k :: 0 <= k < |blocks| ==>
      (blocks[k].kind != Describe ==> blocks[k].children == [])
      && OnlyDescribesNest(blocks[k].children)
  }

  lemma {:induction false} WellFormedNests(lines: seq<string>, blocks: seq<TestBlock>)
    requires forall k :: 0 <= k < |blocks| ==> WellFormed(lines, blocks[k])
    ensures OnlyDescribesNest(blocks)
    decreases blocks
  {
    forall k | 0 <= k < |blocks|
      ensures OnlyDescribesNest(blocks[k].children)
    {
      var cs := blocks[k].children;
      forall x | 0 <= x < |cs|
        ensures WellFormed(lines, cs[x])
      {
        assert cs[x] in blocks[k].children;
      }
      WellFormedNests(lines, cs);
    }
  }

  /** The first block's children and the remaining blocks of a nesting-correct forest are nesting-correct. */
  lemma OnlyDescribesNestParts(blocks: seq<TestBlock>)
    requires blocks != [] && OnlyDescribesNest(blocks)
    ensures blocks[0].kind != Describe ==> blocks[0].children == []
    ensures OnlyDescribesNest(blocks[0].children) && OnlyDescribesNest(blocks[1..])
  {
    forall k | 0 <= k < |blocks[1..]|
      ensures (blocks[1..][k].kind != Describe ==> blocks[1..][k].children == [])
              && OnlyDescribesNest(blocks[1..][k].children)
    {
      assert blocks[1..][k] == blocks[k + 1];
    }
  }

  /** For a parsed forest, the test cases are exactly the `it` blocks in depth-first order. */
  lemma {:induction false} TestCasesArePreorderIts(blocks: seq<TestBlock>)
    requires OnlyDescribesNest(blocks)
    ensures ExtractTestCases(blocks) == ItNames(Preorder(blocks))
    decreases blocks
  {
    if blocks != [] {
      var b := blocks[0];
      OnlyDescribesNestParts(blocks);
      TestCasesArePreorderIts(b.children);
      TestCasesArePreorderIts(blocks[1..]);
      ItNamesAppend([b] + Preorder(b.children), Preorder(blocks[1..]));
      ItNamesAppend([b], Preorder(b.children));
      if b.kind == It {
        assert Preorder(b.children) == [];
      }
    }
  }

  /** For a parsed forest, the categories are exactly the nested describes in depth-first order. */
  lemma {:induction false} CategoriesArePreorderNestedDescribes(blocks: seq<TestBlock>)
    requires OnlyDescribesNest(blocks)
    ensures ExtractCategories(blocks) == NestedDescribeNames(Preorder(blocks))
    decreases blocks
  {
    if blocks != [] {
      var b := blocks[0];
      OnlyDescribesNestParts(blocks);
      CategoriesArePreorderNestedDescribes(b.children);
      CategoriesArePreorderNestedDescribes(blocks[1..]);
      NestedDescribeNamesAppend([b] + Preorder(b.children), Preorder(blocks[1..]));
      NestedDescribeNamesAppend([b], Preorder(b.children));
      if b.kind != Describe {
        assert Preorder(b.children) == [];
      }
    }
  }
}
