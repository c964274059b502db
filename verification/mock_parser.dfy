/**
 * Recognition of mock variables: `const` declarations whose name marks them
 * as test data, captured from their first line to the line where the
 * declaration's brackets balance and a `;` appears.
 */
module MockParser {
  import opened Wrappers
  import opened Text

  /** The shape of a mock's initialiser, as inferred from its text. */
  datatype MockType = Function | Repository | Object | Array | Primitive

  datatype MockVariable = MockVariable(
    name: string,
    content: string,
    startLine: nat,
    endLine: nat,
    mockType: MockType,
    complexity: nat)

  const MockPrefixes: seq<string> := ["mock", "test", "fixture", "stub", "spy"]

  // ---------------------------------------------------------------------------
  // `^\s*const\s+(\w+)\s*[:=]`
  // ---------------------------------------------------------------------------

  /**
   * The name a line declares with `const`, when the whole pattern matches at
   * the start of the line. Every quantifier in the pattern is followed by a
   * character it cannot consume, so only its longest run can succeed.
   */
  function ConstName(line: string): (r: Option<string>)
    ensures r.Some? ==> OccursAt(line, "const", SkipSpaces(line, 0))
    ensures r.Some? ==> r.value != [] && forall k :: 0 <= k < |r.value| ==> IsWordChar(r.value[k])
  {
    var p := SkipSpaces(line, 0);
    if !OccursAt(line, "const", p) then None
    else
      var q := SkipSpaces(line, p + 5);
      var e := WordEnd(line, q);
      var t := SkipSpaces(line, e);
      if q == p + 5 || e == q || t == |line| || (line[t] != ':' && line[t] != '=') then None
      else
        assert forall k :: 0 <= k < |line[q..e]| ==> line[q..e][k] == line[q + k];
        Some(line[q..e])
  }

  /** A `let` or `var` declaration never matches: only `const` can start a mock. */
  lemma LetAndVarNeverMatch(line: string)
    requires StartsWith(LStrip(line), "let ") || StartsWith(LStrip(line), "var ")
    ensures ConstName(line).None?
  {
    var p := SkipSpaces(line, 0);
    assert line[0..] == line;
    SkipSpacesIsLStrip(line, 0);
    var l := LStrip(line);
    assert l[..4][0] == l[0];
    assert l[0] == line[p];
    FirstCharBlocks(line, "const", p);
  }

  /** A word cannot occur where its first character does not. */
  lemma FirstCharBlocks(s: string, t: string, i: nat)
    requires i < |s| && t != [] && s[i] != t[0]
    ensures !OccursAt(s, t, i)
  {
  }

  /** `_is_mock_variable`: the lower-cased name starts or ends with a mock prefix. */
  predicate IsMockVariable(name: string) {
    exists k :: 0 <= k < |MockPrefixes| &&
      (StartsWith(Lower(name), MockPrefixes[k]) || EndsWith(Lower(name), MockPrefixes[k]))
  }

  lemma MockNamesFromTheTests()
    ensures IsMockVariable("mockUser") && IsMockVariable("mockRepository") && IsMockVariable("mockData")
    ensures IsMockVariable("testData") && IsMockVariable("testUser")
  {
    assert StartsWith(Lower("mockUser"), MockPrefixes[0]);
    assert StartsWith(Lower("mockRepository"), MockPrefixes[0]);
    assert StartsWith(Lower("mockData"), MockPrefixes[0]);
    assert StartsWith(Lower("testData"), MockPrefixes[1]);
    assert StartsWith(Lower("testUser"), MockPrefixes[1]);
  }

  /** A lower-case name that neither starts nor ends with any prefix is not a mock. */
  lemma NotAffixed(name: string)
    requires Lower(name) == name
    requires forall k :: 0 <= k < |MockPrefixes| ==> !StartsWith(name, MockPrefixes[k]) && !EndsWith(name, MockPrefixes[k])
    ensures !IsMockVariable(name)
  {
  }

  lemma PlainNamesFromTheTests()
    ensures !IsMockVariable("service") && !IsMockVariable("controller") && !IsMockVariable("result")
  {
    ServiceIsPlain();
    ControllerIsPlain();
    ResultIsPlain();
  }

  lemma ServiceIsPlain()
    ensures !IsMockVariable("service")
  {
    var n := "service";
    assert Lower(n) == n;
    assert n[..4][0] != "mock"[0] && n[..4][0] != "test"[0] && n[..4][1] != "stub"[1];
    assert n[..3][1] != "spy"[1] && n[..7][0] != "fixture"[0];
    assert n[3..][0] != "mock"[0] && n[3..][0] != "test"[0] && n[3..][0] != "stub"[0];
    assert n[4..][0] != "spy"[0] && n[0..][0] != "fixture"[0];
    NotAffixed(n);
  }

  lemma ControllerIsPlain()
    ensures !IsMockVariable("controller")
  {
    var n := "controller";
    assert Lower(n) == n;
    assert n[..4][0] != "mock"[0] && n[..4][0] != "test"[0] && n[..4][0] != "stub"[0];
    assert n[..3][0] != "spy"[0] && n[..7][0] != "fixture"[0];
    assert n[6..][0] != "mock"[0] && n[6..][0] != "test"[0] && n[6..][0] != "stub"[0];
    assert n[7..][0] != "spy"[0] && n[3..][0] != "fixture"[0];
    NotAffixed(n);
  }

  lemma ResultIsPlain()
    ensures !IsMockVariable("result")
  {
    var n := "result";
    assert Lower(n) == n;
    assert n[..4][0] != "mock"[0] && n[..4][0] != "test"[0] && n[..4][0] != "stub"[0];
    assert n[..3][0] != "spy"[0];
    assert n[2..][0] != "mock"[0] && n[2..][0] != "test"[0] && n[2..][1] != "stub"[1];
    assert n[3..][0] != "spy"[0];
    NotAffixed(n);
  }

  // ---------------------------------------------------------------------------
  // End of a declaration
  // ---------------------------------------------------------------------------

  /** After line `i`, braces, parentheses and brackets all balance and the line holds a `;`. */
  predicate DeclarationCloses(lines: seq<string>, start: nat, i: nat)
    requires start <= i < |lines|
  {
    var ls := lines[start..i + 1];
    && NetLines(ls, '{', '}') == 0
    && NetLines(ls, '(', ')') == 0
    && NetLines(ls, '[', ']') == 0
    && ';' in lines[i]
  }

  /** `end` is the first line closing the declaration begun on `start`, or the last line of the file. */
  predicate IsDeclarationEnd(lines: seq<string>, start: nat, end: nat) {
    && start <= end < |lines|
    && (forall k :: start <= k < end ==> !DeclarationCloses(lines, start, k))
    && (DeclarationCloses(lines, start, end) || end == |lines| - 1)
  }

  /** `_find_declaration_end`: three bracket counters, checked at the end of every line. */
  method FindDeclarationEnd(lines: seq<string>, start: nat) returns (end: nat)
    requires start < |lines|
    ensures IsDeclarationEnd(lines, start, end)
  {
    var braceCount := 0;
    var parenCount := 0;
    var bracketCount := 0;
    for i := start to |lines|
      invariant braceCount == NetLines(lines[start..i], '{', '}')
      invariant parenCount == NetLines(lines[start..i], '(', ')')
      invariant bracketCount == NetLines(lines[start..i], '[', ']')
      invariant forall k :: start <= k < i ==> !DeclarationCloses(lines, start, k)
    {
      var line := lines[i];
      for j := 0 to |line|
        invariant braceCount == NetLines(lines[start..i], '{', '}') + Net(line[..j], '{', '}')
        invariant parenCount == NetLines(lines[start..i], '(', ')') + Net(line[..j], '(', ')')
        invariant bracketCount == NetLines(lines[start..i], '[', ']') + Net(line[..j], '[', ']')
      {
        assert line[..j + 1][..j] == line[..j];
        if line[j] == '{' {
          braceCount := braceCount + 1;
        } else if line[j] == '}' {
          braceCount := braceCount - 1;
        } else if line[j] == '(' {
          parenCount := parenCount + 1;
        } else if line[j] == ')' {
          parenCount := parenCount - 1;
        } else if line[j] == '[' {
          bracketCount := bracketCount + 1;
        } else if line[j] == ']' {
          bracketCount := bracketCount - 1;
        }
      }
      assert line[..|line|] == line;
      assert lines[start..i + 1][..i - start] == lines[start..i];
      if braceCount == 0 && parenCount == 0 && bracketCount == 0 {
        if ';' in line {
          return i;
        }
      }
    }
    return |lines| - 1;
  }

  /** A declaration that ends before the last line ends on a line with a `;`. */
  lemma DeclarationEndHasSemicolon(lines: seq<string>, start: nat, end: nat)
    requires IsDeclarationEnd(lines, start, end) && end < |lines| - 1
    ensures ';' in lines[end]
  {
  }

  // ---------------------------------------------------------------------------
  // Type and complexity
  // ---------------------------------------------------------------------------

  /** `_infer_mock_type`: the first rule that applies. */
  function InferMockType(content: string): (t: MockType)
    ensures t == Function <==> Contains(Lower(content), "jest.fn")
    ensures t == Repository <==> (!Contains(Lower(content), "jest.fn")
      && '{' in content && '}' in content && Contains(Lower(content), "repository"))
    ensures t == Object <==> (!Contains(Lower(content), "jest.fn")
      && '{' in content && '}' in content && !Contains(Lower(content), "repository"))
    ensures t == Array <==> (!Contains(Lower(content), "jest.fn")
      && !('{' in content && '}' in content) && '[' in content && ']' in content)
    ensures t == Primitive <==> (!Contains(Lower(content), "jest.fn")
      && !('{' in content && '}' in content) && !('[' in content && ']' in content))
  {
    var lower := Lower(content);
    if Contains(lower, "jest.fn") then Function
    else if '{' in content && '}' in content then
      (if Contains(lower, "repository") then Repository else Object)
    else if '[' in content && ']' in content then Array
    else Primitive
  }

  /**
   * `len(re.findall(r'\w+:', s))` from index `p`: a match needs a run of word
   * characters directly followed by `:`, and the scan resumes after the `:`.
   */
  function KeyCount(s: string, p: nat): nat
    requires p <= |s|
    decreases |s| - p
  {
    if p == |s| then 0
    else
      var e := WordEnd(s, p);
      if e > p && e < |s| && s[e] == ':' then 1 + KeyCount(s, e + 1)
      else KeyCount(s, p + 1)
  }

  /**
   * The number of colons after `p` that directly follow a word character:
   * each such colon ends exactly one `\w+:` match.
   */
  function KeysFrom(s: string, p: nat): nat
    requires p <= |s|
    decreases |s| - p
  {
    if p + 1 >= |s| then 0
    else (if s[p + 1] == ':' && IsWordChar(s[p]) then 1 else 0) + KeysFrom(s, p + 1)
  }

  /** The scan counts every colon that follows a word character, and nothing else. */
  lemma {:induction false} KeyCountIsKeys(s: string, p: nat)
    requires p <= |s|
    ensures KeyCount(s, p) == KeysFrom(s, p)
    decreases |s| - p
  {
    if p < |s| {
      var e := WordEnd(s, p);
      if e > p && e < |s| && s[e] == ':' {
        KeyCountIsKeys(s, e + 1);
        KeysInWord(s, p, e);
      } else {
        KeyCountIsKeys(s, p + 1);
      }
    }
  }

  /** A run of word characters from `p` up to a colon at `e` holds exactly one key. */
  lemma {:induction false} KeysInWord(s: string, p: nat, e: nat)
    requires p < e < |s| && s[e] == ':'
    requires forall k :: p <= k < e ==> IsWordChar(s[k])
    ensures KeysFrom(s, p) == 1 + KeysFrom(s, e + 1)
    decreases e - p
  {
    if p + 1 < e {
      KeysInWord(s, p + 1, e);
    } else {
      assert !IsWordChar(s[e]);
    }
  }

  /** Every key needs its own colon. */
  lemma {:induction false} KeysAtMostColons(s: string, p: nat)
    requires p < |s|
    ensures KeysFrom(s, p) <= Count(s[p + 1..], ":")
    decreases |s| - p
  {
    if p + 1 < |s| {
      KeysAtMostColons(s, p + 1);
      assert s[p + 1..][..1] == [s[p + 1]];
      assert s[p + 1..][1..] == s[p + 2..];
    }
  }

  /** `_calculate_mock_complexity`: opening braces and brackets, `key:` pairs and arrows. */
  function MockComplexity(content: string): nat {
    Count(content, "{") + Count(content, "[") + KeyCount(content, 0) + Count(content, "=>")
  }

  /**
   * The nested mock of the complexity test scores higher than the flat
   * `{ id: 1 }` one: its first three opening braces alone outweigh the flat
   * mock's one brace and one key. The nested text is given as four pieces,
   * each of the first three ending at one of those braces.
   */
  lemma ComplexityFromTheTests(simple: string, complex: string, a: string, b: string, c: string, d: string)
    requires simple == "const mockUser = { id: 1 };"
    requires a == "\n        const mockUser = {"
    requires b == "\n          id: 1,\n          name: 'Test',\n          profile: {"
    requires c == "\n            age: 30,\n            address: {"
    requires d == "\n              city: 'Test'\n            }\n          },\n          getData: () => {}\n        };\n        "
    requires complex == a + b + c + d
    ensures MockComplexity(complex) > MockComplexity(simple)
  {
    assert simple == "const mockUser = " + "{" + " id" + ":" + " 1 };";
    FlatMockFromTheTests(simple, "const mockUser = ", " id", " 1 };");
    assert a[|a| - 1] == '{' && b[|b| - 1] == '{' && c[|c| - 1] == '{';
    ThreeBraces(a, b, c, d);
  }

  /** `const mockUser = { id: 1 };` scores at most two. */
  lemma FlatMockFromTheTests(simple: string, head: string, key: string, tail: string)
    requires head == "const mockUser = " && key == " id" && tail == " 1 };"
    requires simple == head + "{" + key + ":" + tail
    ensures MockComplexity(simple) <= 2
  {
    assert '[' !in head && '[' !in key && '[' !in tail;
    assert '>' !in head && '>' !in key && '>' !in tail;
    FlatMockComplexity(simple, head, key, tail);
  }

  /** Texts holding three opening braces score at least three. */
  lemma ThreeBraces(a: string, b: string, c: string, d: string)
    requires '{' in a && '{' in b && '{' in c
    ensures MockComplexity(a + b + c + d) >= 3
  {
    CountCharAppend(a + b + c, d, '{');
    CountCharAppend(a + b, c, '{');
    CountCharAppend(a, b, '{');
    CountCharPresent(a, '{');
    CountCharPresent(b, '{');
    CountCharPresent(c, '{');
  }

  /**
   * A mock made of a text, one brace, one key and its colon, with no other
   * brace, bracket, colon or arrow, scores at most two.
   */
  lemma FlatMockComplexity(simple: string, head: string, key: string, tail: string)
    requires head != [] && simple == head + "{" + key + ":" + tail
    requires '{' !in head && ':' !in head && '{' !in key && ':' !in key && '{' !in tail && ':' !in tail
    requires '[' !in simple && '>' !in simple
    ensures MockComplexity(simple) <= 2
  {
    OnlyOnce(head, key + ":" + tail, '{');
    assert simple == head + "{" + (key + ":" + tail);
    OnlyOnce(head[1..] + "{" + key, tail, ':');
    assert simple[1..] == head[1..] + "{" + key + ":" + tail;
    KeyCountIsKeys(simple, 0);
    KeysAtMostColons(simple, 0);
    CountCharMissing(simple, '[');
    CountPositiveIffContains(simple, "=>");
    MissingCharNotContained(simple, "=>", 1);
  }

  /** A character placed once between two texts without it is counted once. */
  lemma OnlyOnce(a: string, b: string, c: char)
    requires c !in a && c !in b
    ensures Count(a + [c] + b, [c]) == 1
  {
    CountCharAppend(a, [c] + b, c);
    assert a + [c] + b == a + ([c] + b);
    CountCharMissing(a, c);
    assert ([c] + b)[..1] == [c] && ([c] + b)[1..] == b;
    CountCharMissing(b, c);
  }

  lemma ObjectMockFromTheTests()
    ensures InferMockType("const mockUser = { id: 1, name: 'Test' };") == Object
  {
    var obj := "const mockUser = { id: 1, name: 'Test' };";
    assert obj[17] == '{' && obj[39] == '}';
    ObjectExampleIsNoFunction(obj);
    ObjectExampleIsNoRepository(obj);
  }

  lemma ObjectExampleIsNoFunction(obj: string)
    requires obj == "const mockUser = { id: 1, name: 'Test' };"
    ensures !Contains(Lower(obj), "jest.fn")
  {
    LowerKeepsOtherChars(obj, '.');
    MissingCharNotContained(Lower(obj), "jest.fn", 4);
  }

  lemma ObjectExampleIsNoRepository(obj: string)
    requires obj == "const mockUser = { id: 1, name: 'Test' };"
    ensures !Contains(Lower(obj), "repository")
  {
    LowerKeepsMissingLetter(obj, 'p');
    MissingCharNotContained(Lower(obj), "repository", 2);
  }

  lemma FunctionMockFromTheTests()
    ensures InferMockType("const mockFn = jest.fn();") == Function
  {
    var fn := "const mockFn = jest.fn();";
    assert Lower(fn) == "const mockfn = jest.fn();";
    assert OccursAt(Lower(fn), "jest.fn", 15);
    ContainsWitness(Lower(fn), "jest.fn", 15);
  }

  /**
   * The repository test's mock also calls `jest.fn`, and that rule comes
   * first: the text is typed as a function mock, not as a repository.
   */
  lemma RepositoryMockWithJestFnIsFunction()
    ensures InferMockType("const mockRepository = { findOne: jest.fn() };") == Function
  {
    var repo := "const mockRepository = { findOne: jest.fn() };";
    assert Lower(repo)[34..41] == "jest.fn";
    assert OccursAt(Lower(repo), "jest.fn", 34);
    ContainsWitness(Lower(repo), "jest.fn", 34);
  }

  lemma ArrayMockFromTheTests()
    ensures InferMockType("const testData = [1, 2, 3];") == Array
  {
    var arr := "const testData = [1, 2, 3];";
    assert arr[17] == '[' && arr[25] == ']';
    assert '{' !in arr;
    LowerKeepsOtherChars(arr, '.');
    MissingCharNotContained(Lower(arr), "jest.fn", 4);
  }

  // ---------------------------------------------------------------------------
  // The scan
  // ---------------------------------------------------------------------------

  /** The line starts a mock: a `const` declaration of a mock-like name. */
  predicate StartsMock(line: string) {
    ConstName(line).Some? && IsMockVariable(ConstName(line).value)
  }

  /** Whether each line starts a mock. */
  function MockStarts(lines: seq<string>): (starts: seq<bool>)
    ensures |starts| == |lines|
  {
    seq(|lines|, j requires 0 <= j < |lines| => StartsMock(lines[j]))
  }

  /**
   * `m` is the mock captured from its start line: the declared name, the lines
   * up to the end of the declaration joined with newlines, and the type and
   * complexity inferred from that text.
   */
  predicate CapturedAt(lines: seq<string>, m: MockVariable) {
    && m.startLine < |lines|
    && ConstName(lines[m.startLine]) == Some(m.name)
    && IsMockVariable(m.name)
    && IsDeclarationEnd(lines, m.startLine, m.endLine)
    && m.content == Join(lines[m.startLine..m.endLine + 1], "\n")
    && m.mockType == InferMockType(m.content)
    && m.complexity == MockComplexity(m.content)
  }

  predicate InsideSome(ms: seq<MockVariable>, j: int) {
    exists k :: 0 <= k < |ms| && ms[k].startLine <= j <= ms[k].endLine
  }

  /**
   * `ms` is what the scan has collected on reaching `upTo`: mocks in order
   * with non-overlapping line ranges, and no line before `upTo` outside them
   * starting a mock.
   */
  predicate MocksUpTo(starts: seq<bool>, upTo: nat, ms: seq<MockVariable>) {
    && (forall k :: 0 <= k < |ms| ==> ms[k].startLine <= ms[k].endLine < |starts|)
    && (forall k :: 0 <= k < |ms| - 1 ==> ms[k].endLine < ms[k + 1].startLine)
    && (forall j :: 0 <= j < upTo && j < |starts| && !InsideSome(ms, j) ==> !starts[j])
  }

  /** `parse_mocks`: the cursor jumps past each captured declaration, otherwise moves one line. */
  method ParseMocks(lines: seq<string>) returns (mocks: seq<MockVariable>)
    ensures MocksUpTo(MockStarts(lines), |lines|, mocks)
    ensures forall k :: 0 <= k < |mocks| ==> CapturedAt(lines, mocks[k])
  {
    mocks := [];
    var i := 0;
    while i < |lines|
      invariant i <= |lines|
      invariant MocksUpTo(MockStarts(lines), i, mocks)
      invariant forall k :: 0 <= k < |mocks| ==> CapturedAt(lines, mocks[k])
      invariant forall k :: 0 <= k < |mocks| ==> mocks[k].endLine < i
      decreases |lines| - i
    {
      var line := lines[i];
      var m := ConstName(line);
      assert MockStarts(lines)[i] == (m.Some? && IsMockVariable(m.value));
      if m.Some? && IsMockVariable(m.value) {
        var mock := CaptureMock(lines, i, m.value);
        CaptureLoopStep(lines, i, mocks, mock);
        mocks := mocks + [mock];
        i := mock.endLine + 1;
      } else {
        SkipStep(MockStarts(lines), i, mocks);
        i := i + 1;
      }
    }
  }

  /** The record `parse_mocks` builds for the mock declared on line `i`. */
  method CaptureMock(lines: seq<string>, i: nat, name: string) returns (mock: MockVariable)
    requires i < |lines| && ConstName(lines[i]) == Some(name) && IsMockVariable(name)
    ensures mock.startLine == i && mock.name == name && CapturedAt(lines, mock)
  {
    var endLine := FindDeclarationEnd(lines, i);
    var content := Join(lines[i..endLine + 1], "\n");
    mock := MockVariable(name, content, i, endLine, InferMockType(content), MockComplexity(content));
  }

  /** All three invariants of the scan survive capturing `m` at the cursor. */
  lemma CaptureLoopStep(lines: seq<string>, i: nat, ms: seq<MockVariable>, m: MockVariable)
    requires MocksUpTo(MockStarts(lines), i, ms)
    requires forall k :: 0 <= k < |ms| ==> CapturedAt(lines, ms[k]) && ms[k].endLine < i
    requires m.startLine == i <= m.endLine < |lines| && CapturedAt(lines, m)
    ensures MocksUpTo(MockStarts(lines), m.endLine + 1, ms + [m])
    ensures forall k :: 0 <= k < |ms + [m]| ==> CapturedAt(lines, (ms + [m])[k]) && (ms + [m])[k].endLine < m.endLine + 1
  {
    CaptureStep(MockStarts(lines), i, ms, m);
  }

  /** The scan invariant survives moving past a line that starts no mock. */
  lemma SkipStep(starts: seq<bool>, i: nat, ms: seq<MockVariable>)
    requires MocksUpTo(starts, i, ms)
    requires i < |starts| && !starts[i]
    ensures MocksUpTo(starts, i + 1, ms)
  {
  }

  /** The scan invariant survives capturing `m` at the cursor. */
  lemma CaptureStep(starts: seq<bool>, i: nat, ms: seq<MockVariable>, m: MockVariable)
    requires MocksUpTo(starts, i, ms)
    requires forall k :: 0 <= k < |ms| ==> ms[k].endLine < i
    requires m.startLine == i <= m.endLine < |starts|
    ensures MocksUpTo(starts, m.endLine + 1, ms + [m])
  {
    var ms' := ms + [m];
    forall j | 0 <= j < m.endLine + 1 && j < |starts| && !InsideSome(ms', j)
      ensures !starts[j]
    {
      InsideSomeSnoc(ms, m, j);
    }
  }

  lemma InsideSomeSnoc(ms: seq<MockVariable>, m: MockVariable, j: int)
    ensures InsideSome(ms + [m], j) <==> InsideSome(ms, j) || m.startLine <= j <= m.endLine
  {
    if InsideSome(ms, j) {
      var k :| 0 <= k < |ms| && ms[k].startLine <= j <= ms[k].endLine;
      assert (ms + [m])[k] == ms[k];
    }
    if m.startLine <= j <= m.endLine {
      assert (ms + [m])[|ms|] == m;
    }
  }
}
