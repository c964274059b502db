/**
 * The parser façade: runs the import, mock and structure parsers over one
 * test file and derives the hook list and the complexity metrics.
 */
module TypeScriptParser {
  import opened Wrappers
  import opened Text
  import TS = TestStructureParser
  import MP = MockParser
  import IP = ImportParser

  /** Whether a path names a TypeScript test file. */
  predicate CanParse(path: string) {
    EndsWith(path, ".spec.ts") || EndsWith(path, ".test.ts")
    || EndsWith(path, ".spec.tsx") || EndsWith(path, ".test.tsx")
  }

  /** Every accepted path is a `.ts` or `.tsx` file whose stem ends in `.spec` or `.test`. */
  lemma AcceptedPathsAreTypeScriptTests(path: string)
    ensures CanParse(path) <==>
      (EndsWith(path, ".ts") && (EndsWith(path[..|path| - 3], ".spec") || EndsWith(path[..|path| - 3], ".test")))
      || (EndsWith(path, ".tsx") && (EndsWith(path[..|path| - 4], ".spec") || EndsWith(path[..|path| - 4], ".test")))
  {
    EndsWithBoth(path, ".spec", ".ts");
    EndsWithBoth(path, ".test", ".ts");
    EndsWithBoth(path, ".spec", ".tsx");
    EndsWithBoth(path, ".test", ".tsx");
    assert ".spec" + ".ts" == ".spec.ts" && ".test" + ".ts" == ".test.ts";
    assert ".spec" + ".tsx" == ".spec.tsx" && ".test" + ".tsx" == ".test.tsx";
  }

  /** Ending with `a + b` is ending with `b` after a stem that ends with `a`. */
  lemma EndsWithBoth(s: string, a: string, b: string)
    ensures EndsWith(s, a + b) <==> EndsWith(s, b) && EndsWith(s[..|s| - |b|], a)
  {
    if |a| + |b| <= |s| {
      var stem := s[..|s| - |b|];
      assert s[|s| - |a + b|..] == stem[|stem| - |a|..] + s[|s| - |b|..];
      if EndsWith(s, a + b) {
        assert stem[|stem| - |a|..] == (a + b)[..|a|] == a;
        assert s[|s| - |b|..] == (a + b)[|a|..] == b;
      }
    }
  }

  /** The unit tests' rejected paths. */
  lemma RejectedExamples()
    ensures !CanParse("service.ts") && !CanParse("component.tsx") && !CanParse("index.js")
  {
    Rejected("service.ts");
    Rejected("component.tsx");
    Rejected("index.js");
  }

  /** A stem followed by any of the four accepted suffixes is accepted. */
  lemma AcceptedSuffixes(stem: string)
    ensures CanParse(stem + ".spec.ts") && CanParse(stem + ".test.ts")
    ensures CanParse(stem + ".spec.tsx") && CanParse(stem + ".test.tsx")
  {
    EndsWithAppended(stem, ".spec.ts");
    EndsWithAppended(stem, ".test.ts");
    EndsWithAppended(stem, ".spec.tsx");
    EndsWithAppended(stem, ".test.tsx");
  }

  lemma EndsWithAppended(a: string, b: string)
    ensures EndsWith(a + b, b)
  {
    assert (a + b)[|a + b| - |b|..] == b;
  }

  /** A string does not end with a suffix whose first character it lacks at that distance from its end. */
  lemma NotEndingWith(s: string, suffix: string)
    requires suffix != [] && (|suffix| > |s| || s[|s| - |suffix|] != suffix[0])
    ensures !EndsWith(s, suffix)
  {
    if |suffix| <= |s| {
      assert s[|s| - |suffix|..][0] == s[|s| - |suffix|];
    }
  }

  /** A path without a dot eight or nine characters from its end is not accepted. */
  lemma Rejected(path: string)
    requires |path| < 8 || path[|path| - 8] != '.'
    requires |path| < 9 || path[|path| - 9] != '.'
    ensures !CanParse(path)
  {
    NotEndingWith(path, ".spec.ts");
    NotEndingWith(path, ".test.ts");
    NotEndingWith(path, ".spec.tsx");
    NotEndingWith(path, ".test.tsx");
  }

  // ---------------------------------------------------------------------------
  // Complexity metrics
  // ---------------------------------------------------------------------------

  /** One plus the non-overlapping counts of the branching tokens in the whole text. */
  function Cyclomatic(content: string): nat {
    Count(content, "if ") + Count(content, "else ") + Count(content, "switch ")
    + Count(content, "for ") + Count(content, "while ") + Count(content, "&&")
    + Count(content, "||") + 1
  }

  /** The baseline 1 is reached exactly when no branching token occurs. */
  lemma CyclomaticBaseline(content: string)
    ensures Cyclomatic(content) >= 1
    ensures Cyclomatic(content) == 1 <==>
      !Contains(content, "if ") && !Contains(content, "else ") && !Contains(content, "switch ")
      && !Contains(content, "for ") && !Contains(content, "while ") && !Contains(content, "&&")
      && !Contains(content, "||")
  {
    CountPositiveIffContains(content, "if ");
    CountPositiveIffContains(content, "else ");
    CountPositiveIffContains(content, "switch ");
    CountPositiveIffContains(content, "for ");
    CountPositiveIffContains(content, "while ");
    CountPositiveIffContains(content, "&&");
    CountPositiveIffContains(content, "||");
  }

  /** The largest element of a non-empty list. */
  function SeqMax(xs: seq<nat>): (m: nat)
    requires xs != []
    decreases |xs|
  {
    if |xs| == 1 then xs[0]
    else
      var rest := SeqMax(xs[1..]);
      if xs[0] >= rest then xs[0] else rest
  }

  /** The maximum bounds every element and is one of them. */
  lemma {:induction false} SeqMaxIsMaximum(xs: seq<nat>)
    requires xs != []
    ensures forall i :: 0 <= i < |xs| ==> xs[i] <= SeqMax(xs)
    ensures exists i :: 0 <= i < |xs| && xs[i] == SeqMax(xs)
    decreases |xs|
  {
    if |xs| > 1 {
      SeqMaxIsMaximum(xs[1..]);
      assert forall i :: 1 <= i < |xs| ==> xs[i] == xs[1..][i - 1];
      if xs[0] < SeqMax(xs[1..]) {
        var j :| 0 <= j < |xs[1..]| && xs[1..][j] == SeqMax(xs[1..]);
        assert xs[j + 1] == xs[1..][j];
      } else {
        assert xs[0] == SeqMax(xs);
      }
    }
  }

  /** `get_depth`: the current depth at a leaf, otherwise the deepest child one level down. */
  function GetDepth(b: TS.TestBlock, depth: nat): nat
    decreases b
  {
    if b.children == [] then depth
    else SeqMax(seq(|b.children|, i requires 0 <= i < |b.children| => GetDepth(b.children[i], depth + 1)))
  }

  /** `_calculate_nesting_depth`: 0 without blocks, else the deepest top-level block. */
  function NestingDepth(blocks: seq<TS.TestBlock>): nat {
    if blocks == [] then 0
    else SeqMax(seq(|blocks|, i requires 0 <= i < |blocks| => GetDepth(blocks[i], 0)))
  }

  /** `path` is a chain of child links from `b`: each entry picks a child of the previous block. */
  predicate Chain(b: TS.TestBlock, path: seq<nat>)
    decreases |path|
  {
    path == [] || (path[0] < |b.children| && Chain(b.children[path[0]], path[1..]))
  }

  /** No chain of child links below `b` is longer than `get_depth` counts. */
  lemma {:induction false} ChainsAreBounded(b: TS.TestBlock, depth: nat, path: seq<nat>)
    requires Chain(b, path)
    ensures depth + |path| <= GetDepth(b, depth)
    decreases b
  {
    if path != [] {
      var c := b.children[path[0]];
      ChainsAreBounded(c, depth + 1, path[1..]);
      var xs := seq(|b.children|, i requires 0 <= i < |b.children| => GetDepth(b.children[i], depth + 1));
      SeqMaxIsMaximum(xs);
      assert xs[path[0]] == GetDepth(c, depth + 1);
    } else if b.children != [] {
      var xs := seq(|b.children|, i requires 0 <= i < |b.children| => GetDepth(b.children[i], depth + 1));
      SeqMaxIsMaximum(xs);
      assert xs[0] == GetDepth(b.children[0], depth + 1);
      GetDepthAtLeast(b.children[0], depth + 1);
    }
  }

  lemma {:induction false} GetDepthAtLeast(b: TS.TestBlock, depth: nat)
    ensures depth <= GetDepth(b, depth)
    decreases b
  {
    if b.children != [] {
      var xs := seq(|b.children|, i requires 0 <= i < |b.children| => GetDepth(b.children[i], depth + 1));
      SeqMaxIsMaximum(xs);
      assert xs[0] == GetDepth(b.children[0], depth + 1);
      GetDepthAtLeast(b.children[0], depth + 1);
    }
  }

  /** Some chain of child links below `b` is exactly as long as `get_depth` counts. */
  lemma {:induction false} DeepestChainExists(b: TS.TestBlock, depth: nat)
    ensures exists path :: Chain(b, path) && GetDepth(b, depth) == depth + |path|
    decreases b
  {
    if b.children == [] {
      assert Chain(b, []);
    } else {
      var xs := seq(|b.children|, i requires 0 <= i < |b.children| => GetDepth(b.children[i], depth + 1));
      SeqMaxIsMaximum(xs);
      var i :| 0 <= i < |xs| && xs[i] == GetDepth(b, depth);
      DeepestChainExists(b.children[i], depth + 1);
      var p :| Chain(b.children[i], p) && GetDepth(b.children[i], depth + 1) == depth + 1 + |p|;
      var path := [i as nat] + p;
      assert path[1..] == p;
      assert Chain(b, path);
    }
  }

  /** The nesting depth is 0 for no blocks, and otherwise the longest chain of child links from a top-level block. */
  lemma NestingDepthIsLongestChain(blocks: seq<TS.TestBlock>)
    ensures blocks == [] ==> NestingDepth(blocks) == 0
    ensures forall k, path :: 0 <= k < |blocks| && Chain(blocks[k], path) ==> |path| <= NestingDepth(blocks)
    ensures blocks != [] ==> exists k, path :: 0 <= k < |blocks| && Chain(blocks[k], path) && |path| == NestingDepth(blocks)
  {
    if blocks != [] {
      var xs := seq(|blocks|, i requires 0 <= i < |blocks| => GetDepth(blocks[i], 0));
      SeqMaxIsMaximum(xs);
      forall k, path | 0 <= k < |blocks| && Chain(blocks[k], path)
        ensures |path| <= NestingDepth(blocks)
      {
        ChainsAreBounded(blocks[k], 0, path);
        assert xs[k] == GetDepth(blocks[k], 0);
      }
      var k :| 0 <= k < |xs| && xs[k] == NestingDepth(blocks);
      DeepestChainExists(blocks[k], 0);
    }
  }

  datatype Metrics = Metrics(cyclomatic: nat, maxNestingDepth: nat, totalBlocks: nat)

  /** `_calculate_complexity`; `total_blocks` counts top-level blocks only. */
  function CalculateComplexity(content: string, blocks: seq<TS.TestBlock>): (m: Metrics)
    ensures m.cyclomatic >= 1 && m.totalBlocks == |blocks|
    ensures blocks == [] ==> m.maxNestingDepth == 0
  {
    Metrics(Cyclomatic(content), NestingDepth(blocks), |blocks|)
  }

  // ---------------------------------------------------------------------------
  // The parse result
  // ---------------------------------------------------------------------------

  /** One entry of `mock_data`: the fields of a mock variable. */
  datatype MockData = MockData(
    name: string,
    content: string,
    mockType: MP.MockType,
    complexity: nat,
    startLine: nat,
    endLine: nat)

  datatype ParseResult = ParseResult(
    imports: seq<string>,
    mockData: seq<MockData>,
    categories: seq<string>,
    testCases: seq<string>,
    setupHooks: seq<string>,
    metrics: Metrics,
    importStatements: seq<IP.ImportStatement>,
    mockVariables: seq<MP.MockVariable>,
    blocks: seq<TS.TestBlock>)

  /** The names of the top-level hook blocks, in order; hooks inside a `describe` are not included. */
  function SetupHooks(blocks: seq<TS.TestBlock>): (names: seq<string>)
    ensures |names| <= |blocks|
  {
    if blocks == [] then []
    else (if TS.IsHook(blocks[0].kind) then [blocks[0].name] else []) + SetupHooks(blocks[1..])
  }

  /** Each reported hook is a top-level hook block, and every top-level hook block is reported. */
  lemma {:induction false} SetupHooksAreTopLevelHooks(blocks: seq<TS.TestBlock>, name: string)
    ensures name in SetupHooks(blocks) <==>
      exists k :: 0 <= k < |blocks| && TS.IsHook(blocks[k].kind) && blocks[k].name == name
    decreases |blocks|
  {
    if blocks != [] {
      SetupHooksAreTopLevelHooks(blocks[1..], name);
      if exists k :: 0 <= k < |blocks[1..]| && TS.IsHook(blocks[1..][k].kind) && blocks[1..][k].name == name {
        var k :| 0 <= k < |blocks[1..]| && TS.IsHook(blocks[1..][k].kind) && blocks[1..][k].name == name;
        assert blocks[k + 1] == blocks[1..][k];
      }
      if exists k :: 0 <= k < |blocks| && TS.IsHook(blocks[k].kind) && blocks[k].name == name {
        var k :| 0 <= k < |blocks| && TS.IsHook(blocks[k].kind) && blocks[k].name == name;
        if k > 0 {
          assert blocks[1..][k - 1] == blocks[k];
        }
      }
    }
  }

  /** A parsed empty file holds no top-level blocks. */
  lemma EmptyFileHasNoBlocks(blocks: seq<TS.TestBlock>)
    requires TS.Collected(TS.Openers(Lines(""), true), 0, |Lines("")|, |Lines("")|, blocks)
    ensures blocks == []
  {
    var lines := Lines("");
    EmptyContentIsOneBlankLine();
    NothingOpensOnBlankLine(lines);
    NoOpenersNoBlocks(TS.Openers(lines, true), 0, 1, 1, blocks);
  }

  lemma NothingOpensOnBlankLine(lines: seq<string>)
    requires lines == [""]
    ensures forall j :: 0 <= j < |lines| ==> TS.Openers(lines, true)[j].None?
  {
    assert Strip("") == [];
  }

  /** Blocks collected where no line opens one: there are none. */
  lemma NoOpenersNoBlocks(heads: seq<Option<TS.Header>>, lo: nat, hi: nat, upTo: nat, bs: seq<TS.TestBlock>)
    requires TS.Collected(heads, lo, hi, upTo, bs)
    requires forall j :: lo <= j < hi && j < |heads| ==> heads[j].None?
    ensures bs == []
  {
    if bs != [] {
      FirstBlockOpens(heads, lo, hi, upTo, bs);
      assert false;
    }
  }

  /** The first block collected starts at a line in range that opens it. */
  lemma FirstBlockOpens(heads: seq<Option<TS.Header>>, lo: nat, hi: nat, upTo: nat, bs: seq<TS.TestBlock>)
    requires TS.Collected(heads, lo, hi, upTo, bs) && bs != []
    ensures lo <= bs[0].startLine < hi && bs[0].startLine < |heads| && heads[bs[0].startLine].Some?
  {
  }

  /** A parsed empty file holds no mocks. */
  lemma EmptyFileHasNoMocks(mocks: seq<MP.MockVariable>)
    requires forall k :: 0 <= k < |mocks| ==> MP.CapturedAt(Lines(""), mocks[k])
    ensures mocks == []
  {
    EmptyContentIsOneBlankLine();
    assert mocks == [] || MP.ConstName("") == Some(mocks[0].name);
    assert MP.ConstName("") == None;
  }

  /** A parsed empty file holds no imports. */
  lemma EmptyFileHasNoImports()
    ensures IP.Present(IP.Statements(Lines(""))) == []
  {
    EmptyContentIsOneBlankLine();
    assert Strip("") == "";
    IP.NoKeywordNoImports(Lines(""));
  }

  lemma EmptyContentIsOneBlankLine()
    ensures Lines("") == [""]
  {
  }

  /** The result record built from the three sub-parsers' outputs. */
  function Assemble(content: string, statements: seq<IP.ImportStatement>,
                    mocks: seq<MP.MockVariable>, blocks: seq<TS.TestBlock>): (r: ParseResult)
    ensures |r.imports| == |statements| && |r.mockData| == |mocks|
    ensures r.importStatements == statements && r.mockVariables == mocks && r.blocks == blocks
  {
    ParseResult(
      seq(|statements|, k requires 0 <= k < |statements| => statements[k].raw),
      seq(|mocks|, k requires 0 <= k < |mocks| =>
        MockData(mocks[k].name, mocks[k].content, mocks[k].mockType, mocks[k].complexity,
                 mocks[k].startLine, mocks[k].endLine)),
      TS.ExtractCategories(blocks),
      TS.ExtractTestCases(blocks),
      SetupHooks(blocks),
      CalculateComplexity(content, blocks),
      statements, mocks, blocks)
  }

  /** Each reported import is the stripped text of the line it was found on. */
  lemma ImportsAreStrippedLines(content: string, statements: seq<IP.ImportStatement>,
                                mocks: seq<MP.MockVariable>, blocks: seq<TS.TestBlock>)
    requires IP.ImportsUpTo(IP.Statements(Lines(content)), |Lines(content)|, statements)
    ensures forall k :: 0 <= k < |statements| ==>
      statements[k].lineNumber < |Lines(content)|
      && Assemble(content, statements, mocks, blocks).imports[k] == Strip(Lines(content)[statements[k].lineNumber])
  {
    var lines := Lines(content);
    var found := IP.Statements(lines);
    forall k | 0 <= k < |statements|
      ensures statements[k].lineNumber < |lines|
      ensures Assemble(content, statements, mocks, blocks).imports[k] == Strip(lines[statements[k].lineNumber])
    {
      assert found[statements[k].lineNumber] == Some(statements[k]);
    }
  }

  /** The empty file: no imports, mocks, categories, test cases or hooks; cyclomatic 1 and depth 0. */
  lemma EmptyFileParse(statements: seq<IP.ImportStatement>, mocks: seq<MP.MockVariable>, blocks: seq<TS.TestBlock>)
    requires statements == IP.Present(IP.Statements(Lines("")))
    requires forall k :: 0 <= k < |mocks| ==> MP.CapturedAt(Lines(""), mocks[k])
    requires TS.Collected(TS.Openers(Lines(""), true), 0, |Lines("")|, |Lines("")|, blocks)
    ensures Assemble("", statements, mocks, blocks) == ParseResult([], [], [], [], [], Metrics(1, 0, 0), [], [], [])
  {
    EmptyFileHasNoImports();
    EmptyFileHasNoMocks(mocks);
    EmptyFileHasNoBlocks(blocks);
    assert Cyclomatic("") == 1;
  }

  /**
   * `parse`: runs the three sub-parsers over the file and reports the raw
   * import lines, the mocks field for field, the flattened names, the
   * top-level hooks and the metrics.
   */
  method Parse(content: string) returns (r: ParseResult)
    ensures var lines := Lines(content);
      && r.importStatements == IP.Present(IP.Statements(lines))
      && IP.ImportsUpTo(IP.Statements(lines), |lines|, r.importStatements)
      && MP.MocksUpTo(MP.MockStarts(lines), |lines|, r.mockVariables)
      && (forall k :: 0 <= k < |r.mockVariables| ==> MP.CapturedAt(lines, r.mockVariables[k]))
      && TS.Collected(TS.Openers(lines, true), 0, |lines|, |lines|, r.blocks)
      && (forall k :: 0 <= k < |r.blocks| ==> TS.WellFormed(lines, r.blocks[k]))
    ensures r == Assemble(content, r.importStatements, r.mockVariables, r.blocks)
    ensures forall k :: 0 <= k < |r.imports| ==>
      r.importStatements[k].lineNumber < |Lines(content)|
      && r.imports[k] == Strip(Lines(content)[r.importStatements[k].lineNumber])
    ensures content == [] ==> r == ParseResult([], [], [], [], [], Metrics(1, 0, 0), [], [], [])
  {
    var statements := IP.ParseImports(content);
    var mocks := MP.ParseMocks(Lines(content));
    var blocks := TS.ParseStructure(Lines(content));
    r := Assemble(content, statements, mocks, blocks);
    ImportsAreStrippedLines(content, statements, mocks, blocks);
    if content == [] {
      EmptyFileParse(statements, mocks, blocks);
    }
  }
}
