/**
 * The Python `str` primitives the analysers are written with, over strings
 * as `seq<char>`: whitespace stripping, `split`, `join`, substring `in`,
 * non-overlapping `count`, `replace`, `lower`, and decimal formatting of
 * integers. Character classes are restricted to ASCII.
 */
module Text {

  /** `str.isspace()` on one character (the ASCII members of Python's set). */
  predicate IsSpace(c: char) {
    c == ' ' || c == '\t' || c == '\n' || c == '\r' || c == '\U{000B}' || c == '\U{000C}'
    || ('\U{001C}' <= c <= '\U{001F}')
  }

  /** The regex class `\w` (ASCII letters, digits and underscore). */
  predicate IsWordChar(c: char) {
    ('a' <= c <= 'z') || ('A' <= c <= 'Z') || ('0' <= c <= '9') || c == '_'
  }

  predicate IsLower(c: char) { 'a' <= c <= 'z' }

  predicate IsUpper(c: char) { 'A' <= c <= 'Z' }

  function LowerChar(c: char): (r: char)
    ensures !IsUpper(r)
    ensures !IsUpper(c) ==> r == c
  {
    if IsUpper(c) then (c as int + 32) as char else c
  }

  function UpperChar(c: char): (r: char)
    ensures !IsLower(r)
    ensures !IsLower(c) ==> r == c
  {
    if IsLower(c) then (c as int - 32) as char else c
  }

  /** `s.lower()` */
  function Lower(s: string): (r: string)
    ensures |r| == |s|
    ensures forall i :: 0 <= i < |s| ==> r[i] == LowerChar(s[i])
  {
    seq(|s|, i requires 0 <= i < |s| => LowerChar(s[i]))
  }

  /** `s.capitalize()`: first character upper-cased, the rest lower-cased. */
  function Capitalize(s: string): (r: string)
    ensures |r| == |s|
    ensures s != [] ==> r[0] == UpperChar(s[0]) && r[1..] == Lower(s[1..])
  {
    if s == [] then [] else [UpperChar(s[0])] + Lower(s[1..])
  }

  /** `s.lstrip()` */
  function LStrip(s: string): (r: string)
    ensures |r| <= |s| && r == s[|s| - |r|..]
    ensures r == [] || !IsSpace(r[0])
    ensures forall i :: 0 <= i < |s| - |r| ==> IsSpace(s[i])
    decreases |s|
  {
    if s != [] && IsSpace(s[0]) then LStrip(s[1..]) else s
  }

  /** `s.rstrip()` */
  function RStrip(s: string): (r: string)
    ensures |r| <= |s| && r == s[..|r|]
    ensures r == [] || !IsSpace(r[|r| - 1])
    ensures forall i :: |r| <= i < |s| ==> IsSpace(s[i])
    decreases |s|
  {
    if s != [] && IsSpace(s[|s| - 1]) then RStrip(s[..|s| - 1]) else s
  }

  /** `s.strip()` */
  function Strip(s: string): string {
    RStrip(LStrip(s))
  }

  /** A line is blank for the analysers exactly when every character is whitespace. */
  lemma {:induction false} StripEmptyIffAllSpace(s: string)
    ensures Strip(s) == [] <==> forall i :: 0 <= i < |s| ==> IsSpace(s[i])
  {
    var l := LStrip(s);
    if Strip(s) == [] {
      assert l == [];
    } else {
      var r := Strip(s);
      assert !IsSpace(r[0]) by {
        assert r == l[..|r|];
        assert l != [];
      }
      assert s[|s| - |l|] == r[0];
    }
  }

  /** A string that neither starts nor ends with whitespace is its own stripped form. */
  lemma StripUntrimmed(s: string)
    requires s != [] && !IsSpace(s[0]) && !IsSpace(s[|s| - 1])
    ensures Strip(s) == s
  {
    assert LStrip(s) == s;
  }

  /** Leading whitespace in front of a text that starts otherwise is all removed. */
  lemma {:induction false} LStripSpaces(lead: string, rest: string)
    requires forall i :: 0 <= i < |lead| ==> IsSpace(lead[i])
    requires rest == [] || !IsSpace(rest[0])
    ensures LStrip(lead + rest) == rest
    decreases |lead|
  {
    if lead != [] {
      assert (lead + rest)[1..] == lead[1..] + rest;
      LStripSpaces(lead[1..], rest);
    }
  }

  /** Trailing whitespace after a text that ends otherwise is all removed. */
  lemma {:induction false} RStripSpaces(body: string, trail: string)
    requires forall i :: 0 <= i < |trail| ==> IsSpace(trail[i])
    requires body == [] || !IsSpace(body[|body| - 1])
    ensures RStrip(body + trail) == body
    decreases |trail|
  {
    if trail != [] {
      var t := trail[..|trail| - 1];
      assert (body + trail)[..|body + trail| - 1] == body + t;
      RStripSpaces(body, t);
    } else {
      assert body + trail == body;
    }
  }

  /** Stripping never brings in a character the string lacks. */
  lemma StripKeepsMissing(s: string, c: char)
    requires c !in s
    ensures c !in Strip(s)
  {
    var l := LStrip(s);
    var r := RStrip(l);
    assert forall i :: 0 <= i < |r| ==> r[i] == l[i] == s[|s| - |l| + i];
  }

  predicate StartsWith(s: string, prefix: string) {
    |prefix| <= |s| && s[..|prefix|] == prefix
  }

  predicate EndsWith(s: string, suffix: string) {
    |suffix| <= |s| && s[|s| - |suffix|..] == suffix
  }

  /** First index at or after `i` whose character is not whitespace. */
  function SkipSpaces(s: string, i: nat): (j: nat)
    requires i <= |s|
    ensures i <= j <= |s|
    ensures forall k :: i <= k < j ==> IsSpace(s[k])
    ensures j == |s| || !IsSpace(s[j])
    decreases |s| - i
  {
    if i < |s| && IsSpace(s[i]) then SkipSpaces(s, i + 1) else i
  }

  /** First index at or after `i` that is not a word character. */
  function WordEnd(s: string, i: nat): (j: nat)
    requires i <= |s|
    ensures i <= j <= |s|
    ensures forall k :: i <= k < j ==> IsWordChar(s[k])
    ensures j == |s| || !IsWordChar(s[j])
    decreases |s| - i
  {
    if i < |s| && IsWordChar(s[i]) then WordEnd(s, i + 1) else i
  }

  /** Skipping whitespace from `i` lands where `lstrip` of the rest begins. */
  lemma {:induction false} SkipSpacesIsLStrip(s: string, i: nat)
    requires i <= |s|
    ensures LStrip(s[i..]) == s[SkipSpaces(s, i)..]
    decreases |s| - i
  {
    if i < |s| && IsSpace(s[i]) {
      assert s[i..][1..] == s[i + 1..];
      SkipSpacesIsLStrip(s, i + 1);
    } else if i < |s| {
      assert s[i..][0] == s[i];
    }
  }

  /** `t` occurs in `s` starting at index `i`. */
  predicate OccursAt(s: string, t: string, i: nat) {
    i + |t| <= |s| && s[i..i + |t|] == t
  }

  /** Substring test `t in s`. */
  predicate Contains(s: string, t: string)
    decreases |s|
  {
    StartsWith(s, t) || (s != [] && Contains(s[1..], t))
  }

  /** `t in s` holds exactly when `t` occurs at some index of `s`. */
  lemma {:induction false} ContainsAt(s: string, t: string)
    ensures Contains(s, t) <==> exists i: nat :: OccursAt(s, t, i)
    decreases |s|
  {
    if StartsWith(s, t) {
      assert OccursAt(s, t, 0);
    }
    if s != [] {
      ContainsAt(s[1..], t);
      if Contains(s[1..], t) {
        var i: nat :| OccursAt(s[1..], t, i);
        assert s[1..][i..i + |t|] == s[i + 1..i + 1 + |t|];
        assert OccursAt(s, t, i + 1);
      }
      if exists i: nat :: OccursAt(s, t, i) {
        var i: nat :| OccursAt(s, t, i);
        if i > 0 {
          assert s[1..][i - 1..i - 1 + |t|] == s[i..i + |t|];
          assert OccursAt(s[1..], t, i - 1);
        } else {
          assert StartsWith(s, t);
        }
      }
    } else {
      if exists i: nat :: OccursAt(s, t, i) {
        var i: nat :| OccursAt(s, t, i);
        assert t == [];
        assert StartsWith(s, t);
      }
    }
  }

  /** `t in s` when `t` occurs at index `i`. */
  lemma ContainsWitness(s: string, t: string, i: nat)
    requires OccursAt(s, t, i)
    ensures Contains(s, t)
  {
    ContainsAt(s, t);
  }

  /** A substring of a substring is a substring. */
  lemma ContainsInfix(s: string, i: nat, j: nat, t: string)
    requires i <= j <= |s|
    requires Contains(s[i..j], t)
    ensures Contains(s, t)
  {
    ContainsAt(s[i..j], t);
    var k: nat :| OccursAt(s[i..j], t, k);
    forall x | 0 <= x < |t|
      ensures t[x] == s[i + k + x]
    {
      assert t[x] == s[i..j][k..k + |t|][x] == s[i..j][k + x];
    }
    assert s[i + k..i + k + |t|] == t;
    ContainsWitness(s, t, i + k);
  }

  /** A string lacking one of the characters of `t` does not contain `t`. */
  lemma MissingCharNotContained(s: string, t: string, k: nat)
    requires k < |t| && t[k] !in s
    ensures !Contains(s, t)
  {
    forall i: nat
      ensures !OccursAt(s, t, i)
    {
      if i + |t| <= |s| {
        assert s[i..i + |t|][k] == s[i + k];
      }
    }
    ContainsAt(s, t);
  }

  /** A character other than a lower-case letter occurs in `s.lower()` only where `s` has it. */
  lemma LowerKeepsOtherChars(s: string, c: char)
    requires !IsLower(c) && c !in s
    ensures c !in Lower(s)
  {
    assert forall i :: 0 <= i < |s| ==> Lower(s)[i] != c;
  }

  /** A lower-case letter occurs in `s.lower()` only where `s` has it in either case. */
  lemma LowerKeepsMissingLetter(s: string, c: char)
    requires IsLower(c) && c !in s && UpperChar(c) !in s
    ensures c !in Lower(s)
  {
    assert forall i :: 0 <= i < |s| ==> Lower(s)[i] != c;
  }

  /** `s.count(t)`: non-overlapping occurrences, scanning left to right. */
  function Count(s: string, t: string): nat
    requires t != []
    decreases |s|
  {
    if |s| < |t| then 0
    else if s[..|t|] == t then 1 + Count(s[|t|..], t)
    else Count(s[1..], t)
  }

  /** `s.count(t)` is zero exactly when `t` does not occur in `s`. */
  lemma {:induction false} CountPositiveIffContains(s: string, t: string)
    requires t != []
    ensures Count(s, t) > 0 <==> Contains(s, t)
    decreases |s|
  {
    if |s| < |t| {
      ContainsAt(s, t);
    } else if s[..|t|] == t {
    } else {
      CountPositiveIffContains(s[1..], t);
    }
  }

  /** Occurrences of one character add up over a concatenation. */
  lemma {:induction false} CountCharAppend(a: string, b: string, c: char)
    ensures Count(a + b, [c]) == Count(a, [c]) + Count(b, [c])
    decreases |a|
  {
    if a == [] {
      assert a + b == b;
    } else {
      assert (a + b)[..1] == a[..1];
      assert (a + b)[1..] == a[1..] + b;
      CountCharAppend(a[1..], b, c);
    }
  }

  /** A character that does not occur is counted zero times. */
  lemma CountCharMissing(s: string, c: char)
    requires c !in s
    ensures Count(s, [c]) == 0
  {
    CountPositiveIffContains(s, [c]);
    MissingCharNotContained(s, [c], 0);
  }

  /** A character that occurs is counted at least once. */
  lemma CountCharPresent(s: string, c: char)
    requires c in s
    ensures Count(s, [c]) >= 1
  {
    var i :| 0 <= i < |s| && s[i] == c;
    assert s[i..i + 1] == [c];
    ContainsWitness(s, [c], i);
    CountPositiveIffContains(s, [c]);
  }

  /** `s.replace(target, with)`: every non-overlapping occurrence, left to right. */
  function ReplaceAll(s: string, target: string, with: string): string
    requires target != []
    decreases |s|
  {
    if |s| < |target| then s
    else if s[..|target|] == target then with + ReplaceAll(s[|target|..], target, with)
    else [s[0]] + ReplaceAll(s[1..], target, with)
  }

  /** Replacing one character by another maps the string character by character. */
  lemma {:induction false} ReplaceCharPointwise(s: string, a: char, b: char)
    ensures var r := ReplaceAll(s, [a], [b]);
      |r| == |s| && forall i :: 0 <= i < |s| ==> r[i] == (if s[i] == a then b else s[i])
    decreases |s|
  {
    if |s| >= 1 {
      ReplaceCharPointwise(s[1..], a, b);
      assert s[..1] == [s[0]];
    }
  }

  /** Replacing with nothing only removes characters. */
  lemma {:induction false} RemoveAllFrom(s: string, target: string)
    requires target != []
    ensures forall c :: c in ReplaceAll(s, target, "") ==> c in s
    decreases |s|
  {
    if |s| >= |target| {
      if s[..|target|] == target {
        RemoveAllFrom(s[|target|..], target);
      } else {
        RemoveAllFrom(s[1..], target);
      }
    }
  }

  /**
   * Splitting at every character `isSep` accepts, keeping empty pieces:
   * `s.split(c)` for one separator, `re.split('[...]', s)` for a class.
   */
  function SplitWhere(s: string, isSep: char -> bool): (parts: seq<string>)
    ensures |parts| >= 1
    decreases |s|
  {
    if s == [] then [""]
    else
      var rest := SplitWhere(s[1..], isSep);
      if isSep(s[0]) then [""] + rest
      else [[s[0]] + rest[0]] + rest[1..]
  }

  /** `s.split(sep)` for a one-character separator. */
  function Split(s: string, sep: char): (parts: seq<string>)
    ensures |parts| >= 1
  {
    SplitWhere(s, c => c == sep)
  }

  /** `content.split('\n')` */
  function Lines(content: string): (lines: seq<string>)
    ensures |lines| >= 1
  {
    Split(content, '\n')
  }

  /** `sep.join(parts)` */
  function Join(parts: seq<string>, sep: string): string {
    if |parts| == 0 then ""
    else if |parts| == 1 then parts[0]
    else parts[0] + sep + Join(parts[1..], sep)
  }

  /** No piece of a split contains a separator character. */
  lemma {:induction false} SplitPiecesHaveNoSeparator(s: string, isSep: char -> bool)
    ensures forall k, i :: 0 <= k < |SplitWhere(s, isSep)| && 0 <= i < |SplitWhere(s, isSep)[k]| ==>
              !isSep(SplitWhere(s, isSep)[k][i])
    decreases |s|
  {
    if s != [] {
      SplitPiecesHaveNoSeparator(s[1..], isSep);
    }
  }

  /** Every character of a piece of a split is a character of the split text. */
  lemma {:induction false} SplitPiecesFromText(s: string, isSep: char -> bool)
    ensures forall k, i :: 0 <= k < |SplitWhere(s, isSep)| && 0 <= i < |SplitWhere(s, isSep)[k]| ==>
              SplitWhere(s, isSep)[k][i] in s
    decreases |s|
  {
    if s != [] {
      SplitPiecesFromText(s[1..], isSep);
      var rest := SplitWhere(s[1..], isSep);
      forall k, i | 0 <= k < |SplitWhere(s, isSep)| && 0 <= i < |SplitWhere(s, isSep)[k]|
        ensures SplitWhere(s, isSep)[k][i] in s
      {
        var c := SplitWhere(s, isSep)[k][i];
        if c != s[0] {
          if isSep(s[0]) {
            assert c in rest[k - 1];
          } else if k == 0 {
            assert ([s[0]] + rest[0])[i] == c;
            assert c in rest[0];
          } else {
            assert c in rest[k];
          }
          assert c in s[1..];
        }
      }
    }
  }

  /** Joining the pieces of `s.split(c)` with `c` gives back `s`. */
  lemma {:induction false} JoinSplit(s: string, c: char)
    ensures Join(Split(s, c), [c]) == s
    decreases |s|
  {
    if s != [] {
      JoinSplit(s[1..], c);
      var rest := Split(s[1..], c);
      assert Split(s, c) == if s[0] == c then [""] + rest else [[s[0]] + rest[0]] + rest[1..];
      if s[0] == c {
        assert Join([""] + rest, [c]) == "" + [c] + Join(rest, [c]) by {
          assert ([""] + rest)[1..] == rest;
        }
      } else if |rest| == 1 {
      } else {
        var parts := [[s[0]] + rest[0]] + rest[1..];
        assert parts[1..] == rest[1..];
        assert Join(rest, [c]) == rest[0] + [c] + Join(rest[1..], [c]);
      }
    }
  }

  /** A string without the separator is a single piece. */
  lemma {:induction false} SplitNoSeparator(s: string, c: char)
    requires c !in s
    ensures Split(s, c) == [s]
    decreases |s|
  {
    if s != [] {
      SplitNoSeparator(s[1..], c);
      assert [s[0]] + s[1..] == s;
    }
  }

  /** Splitting at `c` cuts `a + [c] + b` into the pieces of `a` followed by those of `b`. */
  lemma {:induction false} SplitAppend(a: string, b: string, c: char)
    ensures Split(a + [c] + b, c) == Split(a, c) + Split(b, c)
    decreases |a|
  {
    if a == [] {
      assert a + [c] + b == [c] + b;
      assert ([c] + b)[1..] == b;
    } else {
      SplitAppend(a[1..], b, c);
      assert (a + [c] + b)[0] == a[0];
      assert (a + [c] + b)[1..] == a[1..] + [c] + b;
    }
  }

  /** Joining pieces free of `c` with `c` and splitting again gives back the pieces. */
  lemma {:induction false} SplitJoin(parts: seq<string>, c: char)
    requires parts != []
    requires forall k :: 0 <= k < |parts| ==> c !in parts[k]
    ensures Split(Join(parts, [c]), c) == parts
    decreases |parts|
  {
    if |parts| == 1 {
      SplitNoSeparator(parts[0], c);
    } else {
      SplitJoin(parts[1..], c);
      SplitNoSeparator(parts[0], c);
      SplitAppend(parts[0], Join(parts[1..], [c]), c);
      assert parts[0] + [c] + Join(parts[1..], [c]) == Join(parts, [c]);
      assert [parts[0]] + parts[1..] == parts;
    }
  }

  /** The lists of lines one after the other. */
  function Concat(xss: seq<seq<string>>): seq<string> {
    if xss == [] then [] else xss[0] + Concat(xss[1..])
  }

  /** Concatenation distributes over appending lists of lists. */
  lemma {:induction false} ConcatAppend(a: seq<seq<string>>, b: seq<seq<string>>)
    ensures Concat(a + b) == Concat(a) + Concat(b)
    decreases |a|
  {
    if a == [] {
      assert a + b == b;
    } else {
      ConcatAppend(a[1..], b);
      assert (a + b)[1..] == a[1..] + b;
    }
  }

  /** The lines of each text. */
  function MapLines(xs: seq<string>): (r: seq<seq<string>>)
    ensures |r| == |xs|
    ensures forall k :: 0 <= k < |xs| ==> r[k] == Lines(xs[k])
  {
    if xs == [] then [] else [Lines(xs[0])] + MapLines(xs[1..])
  }

  /** Reading lines distributes over appending texts. */
  lemma MapLinesAppend(a: seq<string>, b: seq<string>)
    ensures MapLines(a + b) == MapLines(a) + MapLines(b)
  {
    var l, r := MapLines(a + b), MapLines(a) + MapLines(b);
    forall k | 0 <= k < |l|
      ensures l[k] == r[k]
    {
      if k >= |a| {
        assert (a + b)[k] == b[k - |a|];
      }
    }
  }

  /** Groups of lines in order, with one empty line between neighbouring groups. */
  function Spaced(gs: seq<seq<string>>): seq<string> {
    if gs == [] then [] else if |gs| == 1 then gs[0] else gs[0] + [""] + Spaced(gs[1..])
  }

  /** The lines of texts joined with newlines are the lines of each text in turn. */
  lemma {:induction false} LinesJoin(xs: seq<string>)
    requires xs != []
    ensures Lines(Join(xs, "\n")) == Concat(MapLines(xs))
    decreases |xs|
  {
    if |xs| == 1 {
      assert Concat(MapLines(xs)) == Lines(xs[0]) + Concat([]);
    } else {
      LinesJoin(xs[1..]);
      SplitAppend(xs[0], Join(xs[1..], "\n"), '\n');
      assert MapLines(xs) == [Lines(xs[0])] + MapLines(xs[1..]);
    }
  }

  /** The lines of texts joined with blank lines between them: each text's lines, an empty line between neighbours. */
  lemma {:induction false} LinesJoinSpaced(xs: seq<string>)
    requires xs != []
    ensures Lines(Join(xs, "\n\n")) == Spaced(MapLines(xs))
    decreases |xs|
  {
    if |xs| > 1 {
      LinesJoinSpaced(xs[1..]);
      var rest := Join(xs[1..], "\n\n");
      assert Join(xs, "\n\n") == xs[0] + ['\n'] + (['\n'] + rest);
      SplitAppend(xs[0], ['\n'] + rest, '\n');
      SplitAppend([], rest, '\n');
      assert [] + ['\n'] + rest == ['\n'] + rest;
      assert MapLines(xs) == [Lines(xs[0])] + MapLines(xs[1..]);
    }
  }

  /** A final newline adds one empty line at the end. */
  lemma TrailingNewline(s: string)
    ensures Lines(s + "\n") == Lines(s) + [""]
  {
    SplitAppend(s, [], '\n');
    assert s + ['\n'] + [] == s + "\n";
  }

  /** Joining one-element slices: the join of `a + [x]` is the join of `a`, the separator, and `x`. */
  lemma {:induction false} JoinSnoc(a: seq<string>, x: string, sep: string)
    requires a != []
    ensures Join(a + [x], sep) == Join(a, sep) + sep + x
    decreases |a|
  {
    if |a| == 1 {
      assert (a + [x])[1..] == [x];
    } else {
      assert (a + [x])[1..] == a[1..] + [x];
      JoinSnoc(a[1..], x, sep);
    }
  }

  /** The joined text is empty only when no piece is non-empty and the separator is never used. */
  lemma {:induction false} JoinEmpty(parts: seq<string>, sep: string)
    requires sep != []
    ensures Join(parts, sep) == [] <==> (|parts| == 0 || (|parts| == 1 && parts[0] == []))
  {
  }

  /** The prefix before the first occurrence of `sep`: `s.split(sep)[0]`. */
  function BeforeFirst(s: string, sep: string): (r: string)
    requires sep != []
    ensures |r| <= |s| && r == s[..|r|]
    decreases |s|
  {
    if s == [] || StartsWith(s, sep) then [] else [s[0]] + BeforeFirst(s[1..], sep)
  }

  /** The non-empty strings of `parts`, in order. */
  function NonEmpty(parts: seq<string>): (r: seq<string>)
    ensures forall k :: 0 <= k < |r| ==> r[k] != []
  {
    if parts == [] then []
    else if parts[0] == [] then NonEmpty(parts[1..])
    else [parts[0]] + NonEmpty(parts[1..])
  }

  /** `s.split()` with no argument: the maximal runs of non-whitespace characters. */
  function Words(s: string): (ws: seq<string>)
    ensures forall k :: 0 <= k < |ws| ==> ws[k] != []
  {
    NonEmpty(SplitWhere(s, IsSpace))
  }

  /**
   * The running balance of a bracket pair over `s`, character by character:
   * `+1` for each `open`, `-1` for each `close`.
   */
  function Net(s: string, open: char, close: char): int
    decreases |s|
  {
    if s == [] then 0
    else Net(s[..|s| - 1], open, close) + (if s[|s| - 1] == open then 1 else if s[|s| - 1] == close then -1 else 0)
  }

  /** The balance of a bracket pair summed over the lines `ls`, line by line. */
  function NetLines(ls: seq<string>, open: char, close: char): int
    decreases |ls|
  {
    if ls == [] then 0 else NetLines(ls[..|ls| - 1], open, close) + Net(ls[|ls| - 1], open, close)
  }

  function DigitChar(d: nat): (c: char)
    requires d < 10
    ensures '0' <= c <= '9'
  {
    (48 + d) as char
  }

  /** `str(n)` for a natural number. */
  function NatToString(n: nat): (r: string)
    ensures r != []
    ensures forall i :: 0 <= i < |r| ==> '0' <= r[i] <= '9'
    decreases n
  {
    if n < 10 then [DigitChar(n)] else NatToString(n / 10) + [DigitChar(n % 10)]
  }

  /** `str(i)` for an integer. */
  function IntToString(i: int): (r: string)
    ensures r != []
  {
    if i < 0 then "-" + NatToString(-i) else NatToString(i)
  }
}
