/**
 * Recognition of one-line `import ... from '...'` statements, extraction of
 * the imported names, and the four-way bucketing of imports.
 */
module ImportParser {
  import opened Wrappers
  import opened Text

  datatype ImportStatement = ImportStatement(
    raw: string,
    imports: string,
    source: string,
    isTypeImport: bool,
    lineNumber: nat)

  predicate IsQuote(c: char) {
    c == '\'' || c == '"'
  }

  // ---------------------------------------------------------------------------
  // `^import\s+(.+?)\s+from\s+['"](.+?)['"]`
  // ---------------------------------------------------------------------------

  /**
   * The lazy group `(.+?)` from `a`, closed by the first quote at or after
   * index `f` (`f > a`), as long as no newline intervenes.
   */
  function QuotedTo(s: string, a: nat, f: nat): (r: Option<nat>)
    requires a < f
    ensures r.Some? ==> f <= r.value < |s| && IsQuote(s[r.value])
    ensures r.Some? ==> forall x :: f <= x < r.value ==> !IsQuote(s[x])
    decreases |s| - f
  {
    if f >= |s| || s[f - 1] == '\n' then None
    else if IsQuote(s[f]) then Some(f)
    else QuotedTo(s, a, f + 1)
  }

  /**
   * The pattern's tail `\s+from\s+['"](.+?)['"]` tried at index `e`; the source
   * it captures. Both `\s+` runs are followed by a non-space, so only their
   * longest run can succeed.
   */
  function SourceAt(s: string, e: nat): (r: Option<string>)
    requires e <= |s|
    ensures r.Some? ==> r.value != []
  {
    var b := SkipSpaces(s, e);
    if b == e || !OccursAt(s, "from", b) then None
    else
      var c := SkipSpaces(s, b + 4);
      if c == b + 4 || c == |s| || !IsQuote(s[c]) then None
      else
        match QuotedTo(s, c + 1, c + 2)
        case Some(f) => Some(s[c + 1..f])
        case None => None
  }

  /** The tail matches at `e` only where `from` follows. */
  lemma SourceAtNeedsFrom(s: string, e: nat)
    requires e <= |s| && SourceAt(s, e).Some?
    ensures Contains(s, "from")
  {
    ContainsWitness(s, "from", SkipSpaces(s, e));
  }

  /** The lazy clause `(.+?)` begun at `a`: the first end at or after `e` where the tail matches. */
  function ClauseEnd(s: string, a: nat, e: nat): (r: Option<nat>)
    requires a < e
    ensures r.Some? ==> e <= r.value <= |s| && SourceAt(s, r.value).Some?
    decreases |s| + 1 - e
  {
    if e > |s| || s[e - 1] == '\n' then None
    else if SourceAt(s, e).Some? then Some(e)
    else ClauseEnd(s, a, e + 1)
  }

  /**
   * The first `\s+` after `import` ends at `a`; on failure it gives back one
   * whitespace character at a time, down to a single one.
   */
  function ClauseFrom(s: string, a: nat): (r: Option<(nat, nat)>)
    requires 6 < a <= |s|
    ensures r.Some? ==> 6 < r.value.0 < r.value.1 <= |s| && SourceAt(s, r.value.1).Some?
    decreases a
  {
    match ClauseEnd(s, a, a + 1)
    case Some(e) => Some((a, e))
    case None => if a == 7 then None else ClauseFrom(s, a - 1)
  }

  /** The match of the import pattern at the start of `s`: the clause and the source. */
  function ImportMatch(s: string): (r: Option<(string, string)>)
    ensures r.Some? ==> StartsWith(s, "import") && r.value.0 != [] && r.value.1 != []
  {
    if !StartsWith(s, "import") then None
    else
      var ws := SkipSpaces(s, 6);
      if ws == 6 then None
      else
        match ClauseFrom(s, ws)
        case Some((a, e)) => Some((s[a..e], SourceAt(s, e).value))
        case None => None
  }

  /** A line is recognised only if it holds `from` itself: an import split over lines is never seen. */
  lemma MatchNeedsFrom(s: string)
    requires ImportMatch(s).Some?
    ensures Contains(s, "from")
  {
    var ws := SkipSpaces(s, 6);
    var ae := ClauseFrom(s, ws).value;
    SourceAtNeedsFrom(s, ae.1);
  }

  /** The statement built from line `i`, if its stripped text matches. */
  function StatementAt(lines: seq<string>, i: nat): (r: Option<ImportStatement>)
    requires i < |lines|
    ensures r.Some? ==> r.value.lineNumber == i && r.value.raw == Strip(lines[i])
    ensures r.Some? ==> (r.value.isTypeImport <==> Contains(r.value.imports, "type"))
  {
    var s := Strip(lines[i]);
    match ImportMatch(s)
    case Some((clause, source)) => Some(ImportStatement(s, clause, source, Contains(clause, "type"), i))
    case None => None
  }

  /** Some statement of `imports` comes from line `i`. */
  predicate Listed(imports: seq<ImportStatement>, i: nat) {
    exists k :: 0 <= k < |imports| && imports[k].lineNumber == i
  }

  lemma ListedSnoc(imports: seq<ImportStatement>, st: ImportStatement, i: nat)
    ensures Listed(imports + [st], i) <==> Listed(imports, i) || st.lineNumber == i
  {
    var all := imports + [st];
    if Listed(imports, i) {
      var k :| 0 <= k < |imports| && imports[k].lineNumber == i;
      assert all[k] == imports[k];
    }
    if st.lineNumber == i {
      assert all[|imports|] == st;
    }
    if Listed(all, i) {
      var k :| 0 <= k < |all| && all[k].lineNumber == i;
      if k < |imports| {
        assert imports[k] == all[k];
      }
    }
  }

  /** The statement, if any, of every line. */
  function Statements(lines: seq<string>): (found: seq<Option<ImportStatement>>)
    ensures |found| == |lines|
  {
    seq(|lines|, i requires 0 <= i < |lines| => StatementAt(lines, i))
  }

  /** `imports` lists, in line order, the statements `found` on the lines before `upTo`. */
  predicate ImportsUpTo(found: seq<Option<ImportStatement>>, upTo: nat, imports: seq<ImportStatement>)
    requires upTo <= |found|
  {
    && (forall k :: 0 <= k < |imports| ==>
          imports[k].lineNumber < upTo && found[imports[k].lineNumber] == Some(imports[k]))
    && (forall k :: 0 <= k < |imports| - 1 ==> imports[k].lineNumber < imports[k + 1].lineNumber)
    && (forall i :: 0 <= i < upTo && found[i].Some? ==> Listed(imports, i))
  }

  /** The statements present in `found`, in order. */
  function Present(found: seq<Option<ImportStatement>>): seq<ImportStatement> {
    if found == [] then []
    else Present(found[..|found| - 1]) + (if found[|found| - 1].Some? then [found[|found| - 1].value] else [])
  }

  /** Where no line holds a statement, none is present. */
  lemma {:induction false} NothingFoundNothingPresent(found: seq<Option<ImportStatement>>)
    requires forall i :: 0 <= i < |found| ==> found[i].None?
    ensures Present(found) == []
    decreases |found|
  {
    if found != [] {
      NothingFoundNothingPresent(found[..|found| - 1]);
    }
  }

  /** Where no stripped line begins with `import`, nothing is collected. */
  lemma NoKeywordNoImports(lines: seq<string>)
    requires forall i :: 0 <= i < |lines| ==> !StartsWith(Strip(lines[i]), "import")
    ensures Present(Statements(lines)) == []
  {
    var found := Statements(lines);
    forall i | 0 <= i < |lines|
      ensures found[i].None?
    {
      assert found[i] == StatementAt(lines, i);
    }
    NothingFoundNothingPresent(found);
  }

  lemma ParseStep(found: seq<Option<ImportStatement>>, i: nat, imports: seq<ImportStatement>)
    requires i < |found| && ImportsUpTo(found, i, imports)
    requires found[i].Some? ==> found[i].value.lineNumber == i
    ensures ImportsUpTo(found, i + 1, if found[i].Some? then imports + [found[i].value] else imports)
  {
    if found[i].Some? {
      forall x | 0 <= x <= i
        ensures Listed(imports + [found[i].value], x) <==> Listed(imports, x) || x == i
      {
        ListedSnoc(imports, found[i].value, x);
      }
    }
  }

  /** One iteration of the loop of `parse_imports` keeps both invariants. */
  lemma ParseLoopStep(lines: seq<string>, found: seq<Option<ImportStatement>>, i: nat, imports: seq<ImportStatement>)
    requires found == Statements(lines) && i < |lines|
    requires ImportsUpTo(found, i, imports) && imports == Present(found[..i])
    ensures found[i] == StatementAt(lines, i)
    ensures var next := if found[i].Some? then imports + [found[i].value] else imports;
      ImportsUpTo(found, i + 1, next) && next == Present(found[..i + 1])
  {
    PresentSnoc(found, i);
    ParseStep(found, i, imports);
  }

  /** The statements present in one more line. */
  lemma PresentSnoc(found: seq<Option<ImportStatement>>, i: nat)
    requires i < |found|
    ensures Present(found[..i + 1]) == Present(found[..i]) + (if found[i].Some? then [found[i].value] else [])
  {
    PrefixStep(found, i);
  }

  /** The prefix of one more element ends in that element. */
  lemma PrefixStep<T>(s: seq<T>, i: nat)
    requires i < |s|
    ensures s[..i + 1][..i] == s[..i] && s[..i + 1][i] == s[i]
  {
  }

  /** `parse_imports`: one statement per matching line, in line order. */
  method ParseImports(content: string) returns (imports: seq<ImportStatement>)
    ensures imports == Present(Statements(Lines(content)))
    ensures ImportsUpTo(Statements(Lines(content)), |Lines(content)|, imports)
  {
    var lines := Lines(content);
    var found := Statements(lines);
    imports := [];
    for i := 0 to |lines|
      invariant ImportsUpTo(found, i, imports)
      invariant imports == Present(found[..i])
    {
      var st := StatementAt(lines, i);
      ParseLoopStep(lines, found, i, imports);
      if st.Some? {
        imports := imports + [st.value];
      }
    }
    assert found[..|lines|] == found;
  }

  // ---------------------------------------------------------------------------
  // Which lines are recognised
  // ---------------------------------------------------------------------------

  /** The lazy source group run from `f` reaches the quote at `j` when no quote or newline comes first. */
  lemma {:induction false} QuotedToEnd(s: string, a: nat, f: nat, j: nat)
    requires a < f <= j < |s| && IsQuote(s[j])
    requires forall x :: f - 1 <= x < j ==> s[x] != '\n' && (x >= f ==> !IsQuote(s[x]))
    ensures QuotedTo(s, a, f) == Some(j)
    decreases j - f
  {
    if f < j {
      QuotedToEnd(s, a, f + 1, j);
    }
  }

  /** Index `y` is not a line break. */
  predicate InLine(s: string, y: nat)
    requires y < |s|
  {
    s[y] != '\n'
  }

  /** The pattern's tail fails at `y`. */
  predicate NoTailAt(s: string, y: nat)
    requires y <= |s|
  {
    SourceAt(s, y).None?
  }

  /** The lazy clause run from `x` ends at `e` when the tail fails everywhere before it. */
  lemma {:induction false} ClauseEndAt(s: string, a: nat, x: nat, e: nat)
    requires a < x <= e <= |s| && SourceAt(s, e).Some?
    requires forall y :: x - 1 <= y < e ==> InLine(s, y)
    requires forall y :: x <= y < e ==> NoTailAt(s, y)
    ensures ClauseEnd(s, a, x) == Some(e)
    decreases e - x
  {
    assert InLine(s, x - 1);
    if x < e {
      assert NoTailAt(s, x);
      ClauseEndAt(s, a, x + 1, e);
    }
  }

  /** "from" does not start inside a clause that lacks it and is followed by a space. */
  lemma NoFromInClause(s: string, clause: string, b: nat)
    requires 7 + |clause| < |s| && s[7..7 + |clause|] == clause && s[7 + |clause|] == ' '
    requires !Contains(clause, "from")
    requires 7 <= b < 7 + |clause|
    ensures !OccursAt(s, "from", b)
  {
    var e := 7 + |clause|;
    if OccursAt(s, "from", b) {
      // "from" holds no space, so it cannot run into the space after the clause
      assert b + 4 <= e;
      forall k | 0 <= k < 4
        ensures clause[b - 7 + k] == "from"[k]
      {
        assert clause[b - 7 + k] == s[7..e][b - 7 + k] == s[b + k];
        assert s[b..b + 4][k] == s[b + k];
      }
      assert clause[b - 7..b - 3] == "from";
      ContainsWitness(clause, "from", b - 7);
      assert false;
    }
  }

  /** Inside a clause that holds no "from" and ends in a non-space, the tail never matches. */
  lemma NoTailInClause(s: string, clause: string, y: nat)
    requires PlainClause(clause)
    requires 7 + |clause| < |s| && s[7..7 + |clause|] == clause && s[7 + |clause|] == ' '
    requires 7 <= y < 7 + |clause|
    ensures SourceAt(s, y).None?
  {
    var e := 7 + |clause|;
    var b := SkipSpaces(s, y);
    assert s[e - 1] == s[7..e][|clause| - 1] == clause[|clause| - 1];
    assert b < e;
    NoFromInClause(s, clause, b);
  }

  /** A clause the import pattern can capture whole: one line, no surrounding whitespace, no "from". */
  predicate PlainClause(clause: string) {
    clause != [] && !IsSpace(clause[0]) && !IsSpace(clause[|clause| - 1])
    && '\n' !in clause && !Contains(clause, "from")
  }

  /** A source the import pattern can capture whole: one line and no quote. */
  predicate PlainSource(source: string) {
    source != [] && '\n' !in source && '\'' !in source && '"' !in source
  }

  /** Where the parts of `import <clause> from '<source>'<rest>` lie. */
  lemma ImportLineLayout(s: string, clause: string, source: string, rest: string)
    requires s == "import " + clause + " from '" + source + "'" + rest
    ensures var e, q := 7 + |clause|, 14 + |clause| + |source|;
      q < |s| && s[..6] == "import" && s[6] == ' ' && s[7..e] == clause
      && s[e] == ' ' && s[e + 1..e + 5] == "from" && s[e + 5] == ' ' && s[e + 6] == '\''
      && s[e + 7..q] == source && s[q] == '\''
  {
  }

  /** The tail tried right after a clause: one space, "from", one space, then the quoted source. */
  lemma SourceAfterClause(s: string, e: nat, source: string)
    requires PlainSource(source)
    requires e + 7 + |source| < |s|
    requires s[e] == ' ' && s[e + 1..e + 5] == "from" && s[e + 5] == ' ' && s[e + 6] == '\''
    requires s[e + 7..e + 7 + |source|] == source && s[e + 7 + |source|] == '\''
    ensures SourceAt(s, e) == Some(source)
  {
    var q := e + 7 + |source|;
    assert s[e + 1] == s[e + 1..e + 5][0] == 'f';
    assert SkipSpaces(s, e) == e + 1;
    assert SkipSpaces(s, e + 5) == e + 6;
    forall x | e + 7 <= x < q
      ensures s[x] != '\n' && !IsQuote(s[x])
    {
      assert s[x] == s[e + 7..q][x - e - 7];
    }
    QuotedToEnd(s, e + 7, e + 8, q);
  }

  /** The lazy clause begun after `import ` ends exactly where a plain clause does. */
  lemma ClauseOfLine(s: string, clause: string)
    requires PlainClause(clause)
    requires 7 + |clause| < |s| && s[7..7 + |clause|] == clause && s[7 + |clause|] == ' '
    requires SourceAt(s, 7 + |clause|).Some?
    ensures ClauseEnd(s, 7, 8) == Some(7 + |clause|)
  {
    var e := 7 + |clause|;
    forall y | 7 <= y < e
      ensures InLine(s, y) && NoTailAt(s, y)
    {
      assert s[y] == s[7..e][y - 7];
      NoTailInClause(s, clause, y);
    }
    ClauseEndAt(s, 7, 8, e);
  }

  /**
   * The converse of `ImportMatch`'s contract: a line `import <clause> from '<source>'`
   * followed by anything is matched, with that clause and that source, whenever the
   * clause is one line with no surrounding whitespace and no "from", and the source
   * is one line with no quote.
   */
  lemma ImportLineMatches(s: string, clause: string, source: string, rest: string)
    requires PlainClause(clause) && PlainSource(source)
    requires s == "import " + clause + " from '" + source + "'" + rest
    ensures ImportMatch(s) == Some((clause, source))
  {
    ImportLineLayout(s, clause, source, rest);
    MatchOfLayout(s, clause, source);
  }

  /** `ImportMatch` on a line laid out as `import <clause> from '<source>'`, by position. */
  lemma MatchOfLayout(s: string, clause: string, source: string)
    requires PlainClause(clause) && PlainSource(source)
    requires var e, q := 7 + |clause|, 14 + |clause| + |source|;
      q < |s| && s[..6] == "import" && s[6] == ' ' && s[7..e] == clause
      && s[e] == ' ' && s[e + 1..e + 5] == "from" && s[e + 5] == ' ' && s[e + 6] == '\''
      && s[e + 7..q] == source && s[q] == '\''
    ensures ImportMatch(s) == Some((clause, source))
  {
    var e := 7 + |clause|;
    assert s[7] == s[7..e][0] == clause[0];
    assert SkipSpaces(s, 6) == 7;
    SourceAfterClause(s, e, source);
    ClauseOfLine(s, clause);
  }

  /** The line `import <clause> from '<source>';` */
  function ImportLine(clause: string, source: string): (line: string)
    ensures |line| == 16 + |clause| + |source|
  {
    "import " + clause + " from '" + source + "'" + ";"
  }

  /** An import line of a one-line clause and source is one line. */
  lemma ImportLineOneLine(clause: string, source: string)
    requires PlainClause(clause) && PlainSource(source)
    ensures '\n' !in ImportLine(clause, source)
  {
    var line := ImportLine(clause, source);
    ImportLineLayout(line, clause, source, ";");
    var e, q := 7 + |clause|, 14 + |clause| + |source|;
    forall x | 0 <= x < |line|
      ensures line[x] != '\n'
    {
      if 7 <= x < e {
        assert line[x] == line[7..e][x - 7];
      } else if e + 7 <= x < q {
        assert line[x] == line[e + 7..q][x - e - 7];
      } else if x < 6 {
        assert line[x] == line[..6][x];
      } else if e + 1 <= x < e + 5 {
        assert line[x] == line[e + 1..e + 5][x - e - 1];
      }
    }
  }

  /** A line `import <clause> from '<source>';` gives the statement of that clause and source. */
  lemma ImportLineStatement(lines: seq<string>, i: nat, clause: string, source: string)
    requires i < |lines|
    requires PlainClause(clause) && PlainSource(source)
    requires lines[i] == ImportLine(clause, source)
    ensures StatementAt(lines, i) == Some(ImportStatement(lines[i], clause, source, Contains(clause, "type"), i))
  {
    assert lines[i][0] == 'i' && lines[i][|lines[i]| - 1] == ';';
    StripUntrimmed(lines[i]);
    ImportLineMatches(lines[i], clause, source, ";");
  }

  /** A line without a newline, then a newline, is the first line of the text. */
  lemma LineThen(a: string, rest: string)
    requires '\n' !in a
    ensures Lines(a + "\n" + rest) == [a] + Lines(rest)
  {
    SplitNoSeparator(a, '\n');
    SplitAppend(a, rest, '\n');
    assert a + "\n" + rest == a + ['\n'] + rest;
  }

  lemma Regroup8<T>(a: seq<T>, b: seq<T>, c: seq<T>, d: seq<T>, e: seq<T>, f: seq<T>, g: seq<T>, h: seq<T>)
    ensures a + b + c + d + e + f + g + h == a + b + (c + d + e + f + g + h)
  {
  }

  lemma Regroup6<T>(c: seq<T>, d: seq<T>, e: seq<T>, f: seq<T>, g: seq<T>, h: seq<T>)
    ensures c + d + e + f + g + h == c + d + (e + f + g + h)
  {
  }

  lemma Regroup4<T>(e: seq<T>, f: seq<T>, g: seq<T>, h: seq<T>)
    ensures e + f + g + h == e + f + (g + h)
  {
  }

  /** Four lines, each closed by a newline, split into those lines and a final empty one. */
  lemma FourLines(l0: string, l1: string, l2: string, l3: string)
    requires '\n' !in l0 && '\n' !in l1 && '\n' !in l2 && '\n' !in l3
    ensures Lines(l0 + "\n" + l1 + "\n" + l2 + "\n" + l3 + "\n") == [l0, l1, l2, l3, ""]
  {
    Regroup8(l0, "\n", l1, "\n", l2, "\n", l3, "\n");
    LineThen(l0, l1 + "\n" + l2 + "\n" + l3 + "\n");
    Regroup6(l1, "\n", l2, "\n", l3, "\n");
    LineThen(l1, l2 + "\n" + l3 + "\n");
    Regroup4(l2, "\n", l3, "\n");
    LineThen(l2, l3 + "\n");
    assert l3 + "\n" == l3 + "\n" + "";
    LineThen(l3, "");
  }

  /** Four statements followed by nothing are present in order. */
  lemma PresentFourOfFive(found: seq<Option<ImportStatement>>)
    requires |found| == 5 && found[0].Some? && found[1].Some? && found[2].Some? && found[3].Some? && found[4].None?
    ensures Present(found) == [found[0].value, found[1].value, found[2].value, found[3].value]
  {
    assert found[..0] == [];
    PresentSnoc(found, 0);
    PresentSnoc(found, 1);
    PresentSnoc(found, 2);
    PresentSnoc(found, 3);
    PresentSnoc(found, 4);
    assert found[..5] == found;
  }

  /** A one-line clause with no surrounding whitespace that lacks a letter of "from" is plain. */
  lemma PlainClauseOf(clause: string, k: nat)
    requires clause != [] && !IsSpace(clause[0]) && !IsSpace(clause[|clause| - 1])
    requires '\n' !in clause && k < 4 && "from"[k] !in clause
    ensures PlainClause(clause)
  {
    MissingCharNotContained(clause, "from", k);
  }

  /** The clauses and sources of the unit tests' sample lines can be captured whole. */
  lemma TestClause(clause: string)
    requires clause == "{ Test }"
    ensures PlainClause(clause)
    ensures !Contains(clause, "type")
  {
    PlainClauseOf(clause, 0);
    MissingCharNotContained(clause, "type", 2);
  }

  lemma TestSource(source: string)
    requires source == "@nestjs/testing"
    ensures PlainSource(source)
  {
  }

  lemma EntityClause(clause: string)
    requires clause == "{ UserEntity }"
    ensures PlainClause(clause)
    ensures !Contains(clause, "type")
  {
    PlainClauseOf(clause, 0);
    MissingCharNotContained(clause, "type", 2);
  }

  lemma EntitySource(source: string)
    requires source == "./entities/user.entity"
    ensures PlainSource(source)
  {
  }

  lemma ConfigClause(clause: string)
    requires clause == "type { ConfigService }"
    ensures PlainClause(clause)
  {
    PlainClauseOf(clause, 3);
  }

  lemma ConfigClauseTyped(clause: string)
    requires clause == "type { ConfigService }"
    ensures Contains(clause, "type")
  {
    assert OccursAt(clause, "type", 0);
    ContainsWitness(clause, "type", 0);
  }

  lemma ConfigSource(source: string)
    requires source == "@nestjs/config"
    ensures PlainSource(source)
  {
  }

  lemma RequestClause(clause: string)
    requires clause == "* as request"
    ensures PlainClause(clause)
    ensures !Contains(clause, "type")
  {
    PlainClauseOf(clause, 0);
    MissingCharNotContained(clause, "type", 2);
  }

  lemma RequestSource(source: string)
    requires source == "supertest"
    ensures PlainSource(source)
  {
  }

  /** An empty line holds no statement. */
  lemma EmptyLineNoStatement(lines: seq<string>, i: nat)
    requires i < |lines| && lines[i] == ""
    ensures StatementAt(lines, i).None?
  {
    assert Strip(lines[i]) == "";
  }

  /** Four lines with statements and a final empty line give those four statements, in line order. */
  lemma FourStatements(lines: seq<string>)
    requires |lines| == 5 && lines[4] == ""
    requires StatementAt(lines, 0).Some? && StatementAt(lines, 1).Some?
    requires StatementAt(lines, 2).Some? && StatementAt(lines, 3).Some?
    ensures Present(Statements(lines)) == [StatementAt(lines, 0).value, StatementAt(lines, 1).value,
      StatementAt(lines, 2).value, StatementAt(lines, 3).value]
  {
    EmptyLineNoStatement(lines, 4);
    PresentFourOfFive(Statements(lines));
  }

  /** Four clause and source pairs, each capturable whole. */
  predicate PlainFour(c0: string, q0: string, c1: string, q1: string, c2: string, q2: string, c3: string, q3: string) {
    PlainClause(c0) && PlainSource(q0) && PlainClause(c1) && PlainSource(q1)
    && PlainClause(c2) && PlainSource(q2) && PlainClause(c3) && PlainSource(q3)
  }

  /** `lines` holds the four import lines of the pairs, then an empty line. */
  predicate FourLinesOf(lines: seq<string>, c0: string, q0: string, c1: string, q1: string, c2: string, q2: string, c3: string, q3: string) {
    |lines| == 5 && lines[0] == ImportLine(c0, q0) && lines[1] == ImportLine(c1, q1)
    && lines[2] == ImportLine(c2, q2) && lines[3] == ImportLine(c3, q3) && lines[4] == ""
  }

  /** Each of four import lines gives the statement of its clause and source. */
  lemma FourLineStatements(lines: seq<string>, c0: string, q0: string, c1: string, q1: string, c2: string, q2: string, c3: string, q3: string)
    requires PlainFour(c0, q0, c1, q1, c2, q2, c3, q3)
    requires FourLinesOf(lines, c0, q0, c1, q1, c2, q2, c3, q3)
    ensures StatementAt(lines, 0) == Some(ImportStatement(lines[0], c0, q0, Contains(c0, "type"), 0))
    ensures StatementAt(lines, 1) == Some(ImportStatement(lines[1], c1, q1, Contains(c1, "type"), 1))
    ensures StatementAt(lines, 2) == Some(ImportStatement(lines[2], c2, q2, Contains(c2, "type"), 2))
    ensures StatementAt(lines, 3) == Some(ImportStatement(lines[3], c3, q3, Contains(c3, "type"), 3))
  {
    ImportLineStatement(lines, 0, c0, q0);
    ImportLineStatement(lines, 1, c1, q1);
    ImportLineStatement(lines, 2, c2, q2);
    ImportLineStatement(lines, 3, c3, q3);
  }

  /** Four import lines, each closed by a newline, split into those lines and a final empty one. */
  lemma FourImportLines(c0: string, q0: string, c1: string, q1: string, c2: string, q2: string, c3: string, q3: string)
    requires PlainFour(c0, q0, c1, q1, c2, q2, c3, q3)
    ensures FourLinesOf(Lines(ImportLine(c0, q0) + "\n" + ImportLine(c1, q1) + "\n" + ImportLine(c2, q2) + "\n" + ImportLine(c3, q3) + "\n"),
      c0, q0, c1, q1, c2, q2, c3, q3)
  {
    ImportLineOneLine(c0, q0);
    ImportLineOneLine(c1, q1);
    ImportLineOneLine(c2, q2);
    ImportLineOneLine(c3, q3);
    FourLines(ImportLine(c0, q0), ImportLine(c1, q1), ImportLine(c2, q2), ImportLine(c3, q3));
  }

  /** Four import lines, each closed by a newline, are parsed into their four statements, in line order. */
  lemma FourImportsParsed(c0: string, q0: string, c1: string, q1: string, c2: string, q2: string, c3: string, q3: string)
    requires PlainFour(c0, q0, c1, q1, c2, q2, c3, q3)
    ensures var l0, l1, l2, l3 := ImportLine(c0, q0), ImportLine(c1, q1), ImportLine(c2, q2), ImportLine(c3, q3);
      Present(Statements(Lines(l0 + "\n" + l1 + "\n" + l2 + "\n" + l3 + "\n"))) == [
        ImportStatement(l0, c0, q0, Contains(c0, "type"), 0),
        ImportStatement(l1, c1, q1, Contains(c1, "type"), 1),
        ImportStatement(l2, c2, q2, Contains(c2, "type"), 2),
        ImportStatement(l3, c3, q3, Contains(c3, "type"), 3)]
  {
    var l0, l1, l2, l3 := ImportLine(c0, q0), ImportLine(c1, q1), ImportLine(c2, q2), ImportLine(c3, q3);
    FourImportLines(c0, q0, c1, q1, c2, q2, c3, q3);
    var lines := Lines(l0 + "\n" + l1 + "\n" + l2 + "\n" + l3 + "\n");
    FourLineStatements(lines, c0, q0, c1, q1, c2, q2, c3, q3);
    FourStatements(lines);
  }

  /** The four-line sample of the unit tests is parsed into its four statements, in line order. */
  lemma SampleParsed(l0: string, l1: string, l2: string, l3: string)
    requires l0 == ImportLine("{ Test }", "@nestjs/testing")
    requires l1 == ImportLine("{ UserEntity }", "./entities/user.entity")
    requires l2 == ImportLine("type { ConfigService }", "@nestjs/config")
    requires l3 == ImportLine("* as request", "supertest")
    ensures Present(Statements(Lines(l0 + "\n" + l1 + "\n" + l2 + "\n" + l3 + "\n"))) == [
      ImportStatement(l0, "{ Test }", "@nestjs/testing", false, 0),
      ImportStatement(l1, "{ UserEntity }", "./entities/user.entity", false, 1),
      ImportStatement(l2, "type { ConfigService }", "@nestjs/config", true, 2),
      ImportStatement(l3, "* as request", "supertest", false, 3)]
  {
    TestClause("{ Test }");
    TestSource("@nestjs/testing");
    EntityClause("{ UserEntity }");
    EntitySource("./entities/user.entity");
    ConfigClause("type { ConfigService }");
    ConfigClauseTyped("type { ConfigService }");
    ConfigSource("@nestjs/config");
    RequestClause("* as request");
    RequestSource("supertest");
    FourImportsParsed("{ Test }", "@nestjs/testing", "{ UserEntity }", "./entities/user.entity",
      "type { ConfigService }", "@nestjs/config", "* as request", "supertest");
  }



  // ---------------------------------------------------------------------------
  // Imported names
  // ---------------------------------------------------------------------------

  /** The lazy `(.+?)\}` from `a`: the first `}` at or after `f`, no newline between. */
  function CloseBrace(s: string, a: nat, f: nat): (r: Option<nat>)
    requires a < f
    ensures r.Some? ==> f <= r.value < |s| && s[r.value] == '}'
    decreases |s| - f
  {
    if f >= |s| || s[f - 1] == '\n' then None
    else if s[f] == '}' then Some(f)
    else CloseBrace(s, a, f + 1)
  }

  /** `re.search(r'\{(.+?)\}', s)` from position `p` on: the group of the leftmost match. */
  function BraceGroup(s: string, p: nat): Option<string>
    decreases |s| - p
  {
    if p >= |s| then None
    else if s[p] == '{' && CloseBrace(s, p + 1, p + 2).Some? then Some(s[p + 1..CloseBrace(s, p + 1, p + 2).value])
    else BraceGroup(s, p + 1)
  }

  /** One comma-separated piece, trimmed and with any ` as alias` dropped. */
  function ImportedName(piece: string): string {
    Strip(BeforeFirst(Strip(piece), " as "))
  }

  /** `extract_imported_names` on the clause of a statement. */
  function ExtractImportedNames(clause: string): (names: seq<string>)
    ensures '{' !in clause ==> names == [Strip(clause)]
    ensures '{' in clause && BraceGroup(clause, 0).None? ==> names == []
    ensures '{' in clause && BraceGroup(clause, 0).Some? ==>
      var pieces := Split(BraceGroup(clause, 0).value, ',');
      |names| == |pieces| && forall k :: 0 <= k < |pieces| ==> names[k] == ImportedName(pieces[k])
  {
    if '{' !in clause then [Strip(clause)]
    else
      match BraceGroup(clause, 0)
      case Some(g) =>
        var pieces := Split(g, ',');
        seq(|pieces|, i requires 0 <= i < |pieces| => ImportedName(pieces[i]))
      case None => []
  }

  /**
   * With braces, there is one name per comma-separated piece of the braced
   * group, and no name holds a comma.
   */
  lemma NamedImportsHaveNoComma(clause: string)
    requires '{' in clause && BraceGroup(clause, 0).Some?
    ensures |ExtractImportedNames(clause)| == |Split(BraceGroup(clause, 0).value, ',')|
    ensures forall k :: 0 <= k < |ExtractImportedNames(clause)| ==> ',' !in ExtractImportedNames(clause)[k]
  {
    var g := BraceGroup(clause, 0).value;
    var pieces := Split(g, ',');
    SplitPiecesHaveNoSeparator(g, c => c == ',');
    forall k | 0 <= k < |pieces|
      ensures ',' !in ImportedName(pieces[k])
    {
      var p := pieces[k];
      assert forall i :: 0 <= i < |p| ==> p[i] != ',';
      StripKeepsMissing(p, ',');
      var b := BeforeFirst(Strip(p), " as ");
      assert forall i :: 0 <= i < |b| ==> b[i] == Strip(p)[i];
      StripKeepsMissing(b, ',');
    }
  }

  /** A text without a space has no ` as ` in it, so nothing is cut. */
  lemma {:induction false} BeforeAsOfWord(s: string)
    requires ' ' !in s
    ensures BeforeFirst(s, " as ") == s
    decreases |s|
  {
    if s != [] {
      assert !StartsWith(s, " as ") by { assert s[0] != ' '; }
      BeforeAsOfWord(s[1..]);
    }
  }

  /** A piece that is one word, possibly padded with spaces, names that word. */
  lemma PaddedWordName(piece: string, lead: string, word: string, trail: string)
    requires piece == lead + word + trail
    requires forall i :: 0 <= i < |lead| ==> lead[i] == ' '
    requires forall i :: 0 <= i < |trail| ==> trail[i] == ' '
    requires word != [] && forall i :: 0 <= i < |word| ==> 'A' <= word[i] <= 'z'
    ensures ImportedName(piece) == word
  {
    assert piece == lead + (word + trail);
    assert !IsSpace(word[0]) && !IsSpace(word[|word| - 1]);
    assert (word + trail)[0] == word[0];
    LStripSpaces(lead, word + trail);
    RStripSpaces(word, trail);
    BeforeAsOfWord(word);
    StripUntrimmed(word);
  }

  /** The lazy group closes at the first `}` when no newline comes before it. */
  lemma {:induction false} CloseBraceAt(s: string, a: nat, f: nat, j: nat)
    requires a < f <= j < |s| && s[j] == '}'
    requires forall k :: f <= k < j ==> s[k] != '}'
    requires forall k :: f - 1 <= k < j ==> s[k] != '\n'
    ensures CloseBrace(s, a, f) == Some(j)
    decreases j - f
  {
    if f < j {
      CloseBraceAt(s, a, f + 1, j);
    }
  }

  /** A clause that is one braced group on one line yields that group. */
  lemma BracedGroup(clause: string, g: string)
    requires clause == "{" + g + "}" && g != []
    requires '}' !in g && '\n' !in g
    ensures BraceGroup(clause, 0) == Some(g)
  {
    assert forall k :: 1 <= k <= |g| ==> clause[k] == g[k - 1];
    CloseBraceAt(clause, 1, 2, |g| + 1);
  }

  /** Two comma-free pieces joined by a comma split back into those two. */
  lemma TwoPieces(first: string, second: string)
    requires ',' !in first && ',' !in second
    ensures Split(first + [','] + second, ',') == [first, second]
  {
    SplitAppend(first, second, ',');
    SplitNoSeparator(first, ',');
    SplitNoSeparator(second, ',');
  }

  /** `{ a, b }` with two plain words names exactly those two words, in order. */
  lemma TwoNamedImports(clause: string, a: string, b: string)
    requires a != [] && forall i :: 0 <= i < |a| ==> 'A' <= a[i] <= 'z'
    requires b != [] && forall i :: 0 <= i < |b| ==> 'A' <= b[i] <= 'z'
    requires clause == "{ " + a + ", " + b + " }"
    ensures ExtractImportedNames(clause) == [a, b]
  {
    var first, second := " " + a, " " + b + " ";
    var g := first + [','] + second;
    assert clause == "{" + g + "}";
    assert ',' !in first && ',' !in second;
    assert '}' !in g && '\n' !in g;
    BracedGroup(clause, g);
    TwoPieces(first, second);
    PaddedWordName(first, " ", a, "");
    PaddedWordName(second, " ", b, " ");
    assert clause[0] == '{';
    var names := ExtractImportedNames(clause);
    assert |names| == 2 && names[0] == a && names[1] == b;
    PairOf(names, a, b);
  }

  lemma PairOf(names: seq<string>, a: string, b: string)
    requires |names| == 2 && names[0] == a && names[1] == b
    ensures names == [a, b]
  {
  }

  /** The braced clause of `import { Test, Module } from '@nestjs/testing';` names both. */
  lemma NamedImportsExample()
    ensures ExtractImportedNames("{ Test, Module }") == ["Test", "Module"]
  {
    TwoNamedImports("{ Test, Module }", "Test", "Module");
  }

  // ---------------------------------------------------------------------------
  // Buckets
  // ---------------------------------------------------------------------------

  datatype Bucket = Types | Internal | TestUtils | External

  /** The first rule that applies: type import, relative path, test/mock package, anything else. */
  function BucketOf(imp: ImportStatement): Bucket {
    if imp.isTypeImport then Types
    else if StartsWith(imp.source, ".") then Internal
    else if Contains(imp.source, "test") || Contains(imp.source, "mock") then TestUtils
    else External
  }

  /** The elements `bucketOf` sends to `b`, in order. */
  function Pick<T>(xs: seq<T>, bucketOf: T -> Bucket, b: Bucket): seq<T> {
    if xs == [] then []
    else
      var last := xs[|xs| - 1];
      Pick(xs[..|xs| - 1], bucketOf, b) + (if bucketOf(last) == b then [last] else [])
  }

  /** The statements of bucket `b`, in input order. */
  function InBucket(imports: seq<ImportStatement>, b: Bucket): seq<ImportStatement> {
    Pick(imports, BucketOf, b)
  }

  /** One more element joins the bucket it is sent to. */
  lemma PickSnoc<T>(xs: seq<T>, x: T, bucketOf: T -> Bucket, b: Bucket)
    ensures Pick(xs + [x], bucketOf, b) == Pick(xs, bucketOf, b) + (if bucketOf(x) == b then [x] else [])
  {
    assert (xs + [x])[..|xs|] == xs;
  }

  datatype Categorized = Categorized(
    internal: seq<ImportStatement>,
    external: seq<ImportStatement>,
    testUtils: seq<ImportStatement>,
    types: seq<ImportStatement>)

  /** The bucket of one more statement gains it if it belongs there. */
  lemma InBucketSnoc(imports: seq<ImportStatement>, x: ImportStatement, b: Bucket)
    ensures InBucket(imports + [x], b) == InBucket(imports, b) + (if BucketOf(x) == b then [x] else [])
  {
    PickSnoc(imports, x, BucketOf, b);
  }

  /** `categorize_imports`: each statement is appended to the list of its bucket. */
  method CategorizeImports(imports: seq<ImportStatement>) returns (c: Categorized)
    ensures c.types == InBucket(imports, Types)
    ensures c.internal == InBucket(imports, Internal)
    ensures c.testUtils == InBucket(imports, TestUtils)
    ensures c.external == InBucket(imports, External)
  {
    c := Categorized([], [], [], []);
    for i := 0 to |imports|
      invariant c.types == InBucket(imports[..i], Types)
      invariant c.internal == InBucket(imports[..i], Internal)
      invariant c.testUtils == InBucket(imports[..i], TestUtils)
      invariant c.external == InBucket(imports[..i], External)
    {
      var imp := imports[i];
      assert imports[..i + 1] == imports[..i] + [imp];
      InBucketSnoc(imports[..i], imp, Types);
      InBucketSnoc(imports[..i], imp, Internal);
      InBucketSnoc(imports[..i], imp, TestUtils);
      InBucketSnoc(imports[..i], imp, External);
      if imp.isTypeImport {
        c := c.(types := c.types + [imp]);
      } else if StartsWith(imp.source, ".") {
        c := c.(internal := c.internal + [imp]);
      } else if Contains(imp.source, "test") || Contains(imp.source, "mock") {
        c := c.(testUtils := c.testUtils + [imp]);
      } else {
        c := c.(external := c.external + [imp]);
      }
    }
    assert imports[..|imports|] == imports;
  }

  /** The four buckets partition the statements: every statement lands in exactly one. */
  lemma BucketsPartition(imports: seq<ImportStatement>)
    ensures multiset(InBucket(imports, Types)) + multiset(InBucket(imports, Internal))
            + multiset(InBucket(imports, TestUtils)) + multiset(InBucket(imports, External))
            == multiset(imports)
  {
    PickPartition(imports, BucketOf);
  }

  /** The four buckets of any assignment partition the elements. */
  lemma {:induction false} PickPartition<T>(xs: seq<T>, bucketOf: T -> Bucket)
    ensures multiset(Pick(xs, bucketOf, Types)) + multiset(Pick(xs, bucketOf, Internal))
            + multiset(Pick(xs, bucketOf, TestUtils)) + multiset(Pick(xs, bucketOf, External))
            == multiset(xs)
    decreases |xs|
  {
    if xs != [] {
      var rest, x := xs[..|xs| - 1], xs[|xs| - 1];
      PickPartition(rest, bucketOf);
      assert xs == rest + [x];
      AddToOneBucket(x, bucketOf(x), Pick(rest, bucketOf, Types), Pick(rest, bucketOf, Internal),
        Pick(rest, bucketOf, TestUtils), Pick(rest, bucketOf, External), rest);
    }
  }

  /** One more element, added to exactly one of four lists that partition `all`. */
  lemma AddToOneBucket<T>(x: T, b: Bucket, t: seq<T>, i: seq<T>, u: seq<T>, e: seq<T>, all: seq<T>)
    requires multiset(t) + multiset(i) + multiset(u) + multiset(e) == multiset(all)
    ensures multiset(t + (if b == Types then [x] else [])) + multiset(i + (if b == Internal then [x] else []))
            + multiset(u + (if b == TestUtils then [x] else [])) + multiset(e + (if b == External then [x] else []))
            == multiset(all + [x])
  {
  }

  /** A relative path is internal even when it names test helpers. */
  lemma RelativeTestHelpersAreInternal(imp: ImportStatement)
    requires !imp.isTypeImport && imp.source == "./test-helpers"
    ensures BucketOf(imp) == Internal
  {
  }

  /** A package whose name contains "test" is a test utility, even `@nestjs/testing`; no sample import is external. */
  lemma SamplePackagesAreTestUtils(imp: ImportStatement)
    requires !imp.isTypeImport && (imp.source == "@nestjs/testing" || imp.source == "supertest")
    ensures BucketOf(imp) == TestUtils
  {
    assert imp.source[0] != '.';
    if imp.source == "@nestjs/testing" {
      assert OccursAt(imp.source, "test", 8);
      ContainsWitness(imp.source, "test", 8);
    } else {
      assert OccursAt(imp.source, "test", 5);
      ContainsWitness(imp.source, "test", 5);
    }
  }

  /** Statements from the sources of the unit-test sample: one internal, one type import, two test utilities. */
  lemma BucketsOfSample(a: ImportStatement, b: ImportStatement, c: ImportStatement, d: ImportStatement)
    requires !a.isTypeImport && a.source == "@nestjs/testing"
    requires !b.isTypeImport && b.source == "./entities/user.entity"
    requires c.isTypeImport
    requires !d.isTypeImport && d.source == "supertest"
    ensures var sample := [a, b, c, d];
      |InBucket(sample, Internal)| == 1 && |InBucket(sample, Types)| == 1
      && |InBucket(sample, TestUtils)| == 2 && |InBucket(sample, External)| == 0
  {
    SamplePackagesAreTestUtils(a);
    SamplePackagesAreTestUtils(d);
    assert b.source[..1] == ".";
    assert BucketOf(b) == Internal;
    CountOfFour(a, b, c, d, BucketOf, Internal);
    CountOfFour(a, b, c, d, BucketOf, Types);
    CountOfFour(a, b, c, d, BucketOf, TestUtils);
    CountOfFour(a, b, c, d, BucketOf, External);
  }

  /**
   * The unit tests' sample, parsed and bucketed: four statements, one internal,
   * one type import, and the two packages named with "test" as test utilities.
   */
  lemma SampleBuckets(l0: string, l1: string, l2: string, l3: string)
    requires l0 == ImportLine("{ Test }", "@nestjs/testing")
    requires l1 == ImportLine("{ UserEntity }", "./entities/user.entity")
    requires l2 == ImportLine("type { ConfigService }", "@nestjs/config")
    requires l3 == ImportLine("* as request", "supertest")
    ensures var parsed := Present(Statements(Lines(l0 + "\n" + l1 + "\n" + l2 + "\n" + l3 + "\n")));
      |parsed| == 4
      && |InBucket(parsed, Internal)| == 1 && |InBucket(parsed, Types)| == 1
      && |InBucket(parsed, TestUtils)| == 2 && |InBucket(parsed, External)| == 0
  {
    SampleParsed(l0, l1, l2, l3);
    BucketsOfSample(ImportStatement(l0, "{ Test }", "@nestjs/testing", false, 0),
      ImportStatement(l1, "{ UserEntity }", "./entities/user.entity", false, 1),
      ImportStatement(l2, "type { ConfigService }", "@nestjs/config", true, 2),
      ImportStatement(l3, "* as request", "supertest", false, 3));
  }

  /** The size of a bucket of four statements counts those that belong to it. */
  lemma CountOfFour<T>(a: T, b: T, c: T, d: T, bucketOf: T -> Bucket, k: Bucket)
    ensures |Pick([a, b, c, d], bucketOf, k)| == (if bucketOf(a) == k then 1 else 0) + (if bucketOf(b) == k then 1 else 0)
      + (if bucketOf(c) == k then 1 else 0) + (if bucketOf(d) == k then 1 else 0)
  {
    PickSnoc([], a, bucketOf, k);
    PickSnoc([a], b, bucketOf, k);
    PickSnoc([a, b], c, bucketOf, k);
    PickSnoc([a, b, c], d, bucketOf, k);
    assert [] + [a] == [a] && [a] + [b] == [a, b] && [a, b] + [c] == [a, b, c] && [a, b, c] + [d] == [a, b, c, d];
  }
}
