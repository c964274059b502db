/**
 * The text helpers of the shared utilities: case conversion, truncation,
 * word counting, file-name sanitising, indentation, dropping blank lines
 * and wrapping. Regular expressions are written out as the scans they
 * perform; `\s` is the ASCII whitespace of `Text.IsSpace`.
 */
module StringUtils {
  import opened Text
  import opened Subsequences

  // ---------------------------------------------------------------------
  // Character filters
  // ---------------------------------------------------------------------

  /** `s` without the characters `drop` accepts, in order. */
  function Keep(s: string, drop: char -> bool): (r: string)
    ensures forall i :: 0 <= i < |r| ==> !drop(r[i])
    ensures |r| <= |s|
    decreases |s|
  {
    if s == [] then []
    else if drop(s[0]) then Keep(s[1..], drop)
    else [s[0]] + Keep(s[1..], drop)
  }

  /** Keeping from a concatenation keeps from each part. */
  lemma {:induction false} KeepAppend(a: string, b: string, drop: char -> bool)
    ensures Keep(a + b, drop) == Keep(a, drop) + Keep(b, drop)
    decreases |a|
  {
    if a == [] {
      assert a + b == b;
    } else {
      assert (a + b)[0] == a[0] && (a + b)[1..] == a[1..] + b;
      KeepAppend(a[1..], b, drop);
    }
  }

  /** A string with nothing to drop is kept whole. */
  lemma {:induction false} KeepNothing(s: string, drop: char -> bool)
    requires forall i :: 0 <= i < |s| ==> !drop(s[i])
    ensures Keep(s, drop) == s
    decreases |s|
  {
    if s != [] {
      KeepNothing(s[1..], drop);
      assert [s[0]] + s[1..] == s;
    }
  }

  /** Only characters of the input survive. */
  lemma {:induction false} KeepMembers(s: string, drop: char -> bool)
    ensures forall i :: 0 <= i < |Keep(s, drop)| ==> Keep(s, drop)[i] in s
    decreases |s|
  {
    if s != [] {
      KeepMembers(s[1..], drop);
      var rest := Keep(s[1..], drop);
      forall i | 0 <= i < |Keep(s, drop)|
        ensures Keep(s, drop)[i] in s
      {
        if !drop(s[0]) && i > 0 {
          assert Keep(s, drop)[i] == rest[i - 1];
        }
        if drop(s[0]) || i > 0 {
          assert Keep(s, drop)[i] in s[1..];
        }
      }
    }
  }

  /** The pieces of a split, glued back together, are the text without its separators. */
  lemma {:induction false} SplitGlued(s: string, isSep: char -> bool)
    ensures Join(SplitWhere(s, isSep), "") == Keep(s, isSep)
    decreases |s|
  {
    if s != [] {
      SplitGlued(s[1..], isSep);
      var rest := SplitWhere(s[1..], isSep);
      if isSep(s[0]) {
        assert SplitWhere(s, isSep) == [""] + rest;
        assert ([""] + rest)[1..] == rest;
      } else {
        var parts := [[s[0]] + rest[0]] + rest[1..];
        assert SplitWhere(s, isSep) == parts;
        if |rest| > 1 {
          assert parts[1..] == rest[1..];
          assert Join(rest, "") == rest[0] + "" + Join(rest[1..], "");
        }
      }
    }
  }

  // ---------------------------------------------------------------------
  // Lower case
  // ---------------------------------------------------------------------

  /** Lower-casing distributes over concatenation. */
  lemma LowerAppend(a: string, b: string)
    ensures Lower(a + b) == Lower(a) + Lower(b)
  {
  }

  /** Lower-casing twice is lower-casing once. */
  lemma LowerTwice(s: string)
    ensures Lower(Lower(s)) == Lower(s)
  {
  }

  /** A string without upper-case letters is its own lower case. */
  lemma LowerNoUpper(s: string)
    requires forall i :: 0 <= i < |s| ==> !IsUpper(s[i])
    ensures Lower(s) == s
  {
  }

  /** Capitalising only changes case. */
  lemma LowerCapitalize(s: string)
    ensures Lower(Capitalize(s)) == Lower(s)
  {
    if s != [] {
      LowerAppend([UpperChar(s[0])], Lower(s[1..]));
      LowerAppend([s[0]], s[1..]);
      LowerTwice(s[1..]);
      assert s == [s[0]] + s[1..];
    }
  }

  /** Lower-casing keeps every character that is not an upper-case letter where it is. */
  lemma LowerKeeps(s: string, c: char)
    requires !IsUpper(c) && !IsLower(c)
    ensures forall i :: 0 <= i < |s| ==> (Lower(s)[i] == c <==> s[i] == c)
  {
  }

  // ---------------------------------------------------------------------
  // snake_case and kebab-case
  // ---------------------------------------------------------------------

  /**
   * `re.sub('([a-z])([A-Z])', r'\1<sep>\2', s)`: scanning left to right, a
   * lower-case letter followed by an upper-case one gets `sep` between
   * them, and the scan resumes after the pair.
   */
  function BreakCase(s: string, sep: char): string
    decreases |s|
  {
    if |s| < 2 then s
    else if IsLower(s[0]) && IsUpper(s[1]) then [s[0], sep, s[1]] + BreakCase(s[2..], sep)
    else [s[0]] + BreakCase(s[1..], sep)
  }

  /** No lower-case letter is directly followed by an upper-case one. */
  predicate NoCaseBreak(s: string) {
    forall i :: 0 <= i < |s| - 1 ==> !(IsLower(s[i]) && IsUpper(s[i + 1]))
  }

  /** Inserting the separator adds nothing but the separator: erasing it gives back what erasing it from the input gives. */
  lemma {:induction false} BreakCaseErased(s: string, sep: char)
    ensures Keep(BreakCase(s, sep), c => c == sep) == Keep(s, c => c == sep)
    decreases |s|
  {
    var drop := c => c == sep;
    if |s| >= 2 {
      if IsLower(s[0]) && IsUpper(s[1]) {
        BreakCaseErased(s[2..], sep);
        KeepAppend([s[0], sep, s[1]], BreakCase(s[2..], sep), drop);
        KeepAppend([s[0], s[1]], s[2..], drop);
        assert [s[0], s[1]] + s[2..] == s;
        assert Keep([s[0], sep, s[1]], drop) == Keep([s[0], s[1]], drop) by {
          assert [s[0], sep, s[1]][1..] == [sep, s[1]];
          assert [sep, s[1]][1..] == [s[1]];
          assert [s[0], s[1]][1..] == [s[1]];
        }
      } else {
        BreakCaseErased(s[1..], sep);
        assert [s[0]] + s[1..] == s;
        KeepAppend([s[0]], s[1..], drop);
        KeepAppend([s[0]], BreakCase(s[1..], sep), drop);
      }
    }
  }

  /** Only the first character of a broken string can be the input's first. */
  lemma BreakCaseHead(s: string, sep: char)
    requires s != []
    ensures BreakCase(s, sep) != [] && BreakCase(s, sep)[0] == s[0]
  {
  }

  /** With a separator that is not a letter, no lower/upper pair is left unbroken. */
  lemma {:induction false} BreakCaseBroken(s: string, sep: char)
    requires !IsLower(sep) && !IsUpper(sep)
    ensures NoCaseBreak(BreakCase(s, sep))
    decreases |s|
  {
    var r := BreakCase(s, sep);
    if |s| >= 2 {
      if IsLower(s[0]) && IsUpper(s[1]) {
        var rest := BreakCase(s[2..], sep);
        BreakCaseBroken(s[2..], sep);
        if s[2..] != [] {
          BreakCaseHead(s[2..], sep);
        }
        forall i | 0 <= i < |r| - 1
          ensures !(IsLower(r[i]) && IsUpper(r[i + 1]))
        {
          if i >= 3 {
            assert r[i] == rest[i - 3] && r[i + 1] == rest[i - 2];
          }
        }
      } else {
        var rest := BreakCase(s[1..], sep);
        BreakCaseBroken(s[1..], sep);
        BreakCaseHead(s[1..], sep);
        forall i | 0 <= i < |r| - 1
          ensures !(IsLower(r[i]) && IsUpper(r[i + 1]))
        {
          if i >= 1 {
            assert r[i] == rest[i - 1] && r[i + 1] == rest[i];
          }
        }
      }
    }
  }

  /** Where nothing needs breaking, breaking changes nothing. */
  lemma {:induction false} BreakCaseNone(s: string, sep: char)
    requires NoCaseBreak(s)
    ensures BreakCase(s, sep) == s
    decreases |s|
  {
    if |s| >= 2 {
      assert !(IsLower(s[0]) && IsUpper(s[1]));
      assert NoCaseBreak(s[1..]) by {
        forall i | 0 <= i < |s[1..]| - 1
          ensures !(IsLower(s[1..][i]) && IsUpper(s[1..][i + 1]))
        {
          assert s[1..][i] == s[i + 1] && s[1..][i + 1] == s[i + 2];
        }
      }
      BreakCaseNone(s[1..], sep);
      assert [s[0]] + s[1..] == s;
    }
  }

  /** Replacing one character by another, as `str.replace` does for one-character strings. */
  function ReplaceChar(s: string, a: char, b: char): (r: string)
    ensures |r| == |s| && forall i :: 0 <= i < |s| ==> r[i] == (if s[i] == a then b else s[i])
  {
    ReplaceCharPointwise(s, a, b);
    ReplaceAll(s, [a], [b])
  }

  /**
   * The three steps shared by `to_snake_case` and `to_kebab_case`:
   * spaces and then `other` become `sep`, a separator goes between each
   * lower-case letter and the upper-case letter after it, and everything
   * is lower-cased.
   */
  function SeparatedCase(s: string, other: char, sep: char): string {
    Lower(BreakCase(ReplaceChar(ReplaceChar(s, ' ', sep), other, sep), sep))
  }

  /** `to_snake_case` */
  function SnakeCase(s: string): string {
    SeparatedCase(s, '-', '_')
  }

  /** `to_kebab_case` */
  function KebabCase(s: string): string {
    SeparatedCase(s, '_', '-')
  }

  /** The result of the three steps holds no space, no `other` and no upper-case letter. */
  lemma SeparatedCaseClean(s: string, other: char, sep: char)
    requires sep != ' ' && sep != other && !IsLower(sep) && !IsUpper(sep)
    requires other != ' ' && !IsLower(other) && !IsUpper(other)
    ensures var r := SeparatedCase(s, other, sep);
      forall i :: 0 <= i < |r| ==> r[i] != ' ' && r[i] != other && !IsUpper(r[i])
  {
    var t := ReplaceChar(ReplaceChar(s, ' ', sep), other, sep);
    var b := BreakCase(t, sep);
    BreakCaseErased(t, sep);
    var drop := c => c == sep;
    forall i | 0 <= i < |b|
      ensures b[i] != ' ' && b[i] != other
    {
      if b[i] != sep {
        KeepMembers(b, drop);
        KeepStays(b, drop, i);
        KeepMembers(t, drop);
      }
    }
    LowerKeeps(b, ' ');
    LowerKeeps(b, other);
  }

  /** A character that is not dropped is still there after keeping. */
  lemma {:induction false} KeepStays(s: string, drop: char -> bool, i: nat)
    requires i < |s| && !drop(s[i])
    ensures s[i] in Keep(s, drop)
    decreases |s|
  {
    if i > 0 {
      KeepStays(s[1..], drop, i - 1);
    }
  }

  /** A string already in the separated form passes the three steps unchanged. */
  lemma SeparatedCaseIdempotent(s: string, other: char, sep: char)
    requires sep != ' ' && sep != other && !IsLower(sep) && !IsUpper(sep)
    requires other != ' ' && !IsLower(other) && !IsUpper(other)
    ensures SeparatedCase(SeparatedCase(s, other, sep), other, sep) == SeparatedCase(s, other, sep)
  {
    var r := SeparatedCase(s, other, sep);
    SeparatedCaseClean(s, other, sep);
    assert ReplaceChar(ReplaceChar(r, ' ', sep), other, sep) == r;
    assert NoCaseBreak(r);
    BreakCaseNone(r, sep);
    LowerNoUpper(r);
  }

  /** `to_snake_case` leaves no space, hyphen or upper-case letter, and a snake-cased name is its own snake case. */
  lemma SnakeCaseSpec(s: string)
    ensures forall i :: 0 <= i < |SnakeCase(s)| ==> SnakeCase(s)[i] != ' ' && SnakeCase(s)[i] != '-' && !IsUpper(SnakeCase(s)[i])
    ensures SnakeCase(SnakeCase(s)) == SnakeCase(s)
  {
    SeparatedCaseClean(s, '-', '_');
    SeparatedCaseIdempotent(s, '-', '_');
  }

  /** `to_kebab_case` leaves no space, underscore or upper-case letter, and a kebab-cased name is its own kebab case. */
  lemma KebabCaseSpec(s: string)
    ensures forall i :: 0 <= i < |KebabCase(s)| ==> KebabCase(s)[i] != ' ' && KebabCase(s)[i] != '_' && !IsUpper(KebabCase(s)[i])
    ensures KebabCase(KebabCase(s)) == KebabCase(s)
  {
    SeparatedCaseClean(s, '_', '-');
    SeparatedCaseIdempotent(s, '_', '-');
  }

  // ---------------------------------------------------------------------
  // camelCase and PascalCase
  // ---------------------------------------------------------------------

  /** The separators of `re.split(r'[-_\s]', s)`. */
  predicate IsWordSeparator(c: char) {
    c == '-' || c == '_' || IsSpace(c)
  }

  /** `re.split(r'[-_\s]', s)`: the pieces between separators, empty ones included. */
  function CaseWords(s: string): (ws: seq<string>)
    ensures |ws| >= 1
  {
    SplitWhere(s, IsWordSeparator)
  }

  /** `''.join(w.capitalize() for w in ws)` */
  function Capitalized(ws: seq<string>): string
    decreases |ws|
  {
    if ws == [] then "" else Capitalize(ws[0]) + Capitalized(ws[1..])
  }

  /** `to_pascal_case` */
  function PascalCase(s: string): string {
    Capitalized(CaseWords(s))
  }

  /** `to_camel_case`: the first word lower-cased, the others capitalised. The source's guard for an empty split never fires. */
  function CamelCase(s: string): string {
    var ws := CaseWords(s);
    Lower(ws[0]) + Capitalized(ws[1..])
  }

  /** Ignoring case, capitalising the words and gluing them is gluing them. */
  lemma {:induction false} CapitalizedFolds(ws: seq<string>)
    ensures Lower(Capitalized(ws)) == Lower(Join(ws, ""))
    decreases |ws|
  {
    if ws != [] {
      var c, rest := Capitalize(ws[0]), Capitalized(ws[1..]);
      LowerCapitalize(ws[0]);
      if |ws| == 1 {
        assert rest == [];
        LowerBoth(c, rest, ws[0], []);
        assert c + rest == c && ws[0] + [] == ws[0];
      } else {
        CapitalizedFolds(ws[1..]);
        LowerBoth(c, rest, ws[0], Join(ws[1..], ""));
      }
    }
  }

  /** Strings equal ignoring case, appended, stay equal ignoring case. */
  lemma LowerBoth(a: string, b: string, c: string, d: string)
    requires Lower(a) == Lower(c) && Lower(b) == Lower(d)
    ensures Lower(a + b) == Lower(c + d)
  {
    LowerAppend(a, b);
    LowerAppend(c, d);
  }

  /** Ignoring case, the first word lower-cased and the others capitalised, glued, is the words glued. */
  lemma CamelFolds(ws: seq<string>)
    requires ws != []
    ensures Lower(Lower(ws[0]) + Capitalized(ws[1..])) == Lower(Join(ws, ""))
  {
    CapitalizedFolds(ws[1..]);
    LowerAppend(Lower(ws[0]), Capitalized(ws[1..]));
    LowerTwice(ws[0]);
    if |ws| > 1 {
      LowerAppend(ws[0], Join(ws[1..], ""));
      assert Join(ws, "") == ws[0] + Join(ws[1..], "");
    } else {
      assert Capitalized(ws[1..]) == "";
    }
  }

  /**
   * `to_camel_case` and `to_pascal_case` differ only in the case of the
   * first word's first letter; ignoring case, both are the input with
   * every '-', '_' and whitespace character removed.
   */
  lemma CamelPascalSpec(s: string)
    ensures CamelCase(s) == Lower(CaseWords(s)[0]) + Capitalized(CaseWords(s)[1..])
    ensures PascalCase(s) == Capitalize(CaseWords(s)[0]) + Capitalized(CaseWords(s)[1..])
    ensures |CamelCase(s)| == |PascalCase(s)|
    ensures Lower(CamelCase(s)) == Lower(Keep(s, IsWordSeparator))
    ensures Lower(PascalCase(s)) == Lower(Keep(s, IsWordSeparator))
    ensures forall i :: 0 <= i < |CamelCase(s)| ==> !IsWordSeparator(CamelCase(s)[i])
    ensures forall i :: 0 <= i < |PascalCase(s)| ==> !IsWordSeparator(PascalCase(s)[i])
  {
    var ws := CaseWords(s);
    SplitGlued(s, IsWordSeparator);
    CapitalizedFolds(ws);
    CamelFolds(ws);
    NoSeparatorLeft(s, CamelCase(s));
    NoSeparatorLeft(s, PascalCase(s));
  }

  /** Neither form keeps a separator: case changes never make one. */
  lemma NoSeparatorLeft(s: string, r: string)
    requires Lower(r) == Lower(Keep(s, IsWordSeparator))
    ensures forall i :: 0 <= i < |r| ==> !IsWordSeparator(r[i])
  {
    var k := Keep(s, IsWordSeparator);
    forall i | 0 <= i < |r|
      ensures !IsWordSeparator(r[i])
    {
      assert Lower(r)[i] == Lower(k)[i];
      assert !IsWordSeparator(k[i]);
    }
  }

  // ---------------------------------------------------------------------
  // truncate and count_words
  // ---------------------------------------------------------------------

  /** `s[:n]` with Python's reading of a negative `n` as counting from the end. */
  function SlicePrefix(s: string, n: int): (r: string)
    ensures |r| <= |s| && r == s[..|r|]
    ensures 0 <= n <= |s| ==> |r| == n
    ensures n < 0 ==> |r| == (if |s| + n < 0 then 0 else |s| + n)
  {
    if n >= 0 then (if n <= |s| then s[..n] else s)
    else if |s| + n >= 0 then s[..|s| + n]
    else ""
  }

  /** `truncate`: text within the limit as it is, otherwise a prefix of it followed by the suffix. */
  function Truncate(text: string, maxLength: int, suffix: string): string {
    if |text| <= maxLength then text
    else SlicePrefix(text, maxLength - |suffix|) + suffix
  }

  /**
   * `truncate` leaves text within the limit alone; longer text, when the
   * limit leaves room for the suffix, becomes exactly `max_length`
   * characters: the start of the text and then the suffix. When it does
   * not, the negative slice keeps all but the last `len(suffix) -
   * max_length` characters before the suffix.
   */
  lemma TruncateSpec(text: string, maxLength: int, suffix: string)
    ensures |text| <= maxLength ==> Truncate(text, maxLength, suffix) == text
    ensures |text| > maxLength >= |suffix| ==>
      && |Truncate(text, maxLength, suffix)| == maxLength
      && EndsWith(Truncate(text, maxLength, suffix), suffix)
      && Truncate(text, maxLength, suffix) == text[..maxLength - |suffix|] + suffix
    ensures |text| > maxLength && maxLength < |suffix| ==>
      Truncate(text, maxLength, suffix) ==
        text[..if |text| + maxLength - |suffix| < 0 then 0 else |text| + maxLength - |suffix|] + suffix
  {
    if |text| > maxLength {
      var r := Truncate(text, maxLength, suffix);
      assert r[|r| - |suffix|..] == suffix;
    }
  }

  /** With the default suffix, a limit of 1 turns "abcdef" into "abcd...", longer than the limit. */
  lemma TruncateBelowSuffix()
    ensures Truncate("abcdef", 1, "...") == "abcd..."
  {
    assert SlicePrefix("abcdef", -2) == "abcd";
  }

  /** `count_words`: the number of whitespace-separated tokens. */
  function CountWords(text: string): nat {
    |Words(text)|
  }

  /** Non-empty pieces of pieces glued are the pieces glued. */
  lemma {:induction false} NonEmptyGlued(parts: seq<string>)
    ensures Join(NonEmpty(parts), "") == Join(parts, "")
    decreases |parts|
  {
    if parts != [] {
      NonEmptyGlued(parts[1..]);
      var rest := NonEmpty(parts[1..]);
      if |parts| > 1 {
        assert Join(parts, "") == parts[0] + Join(parts[1..], "");
      }
      if parts[0] != [] && rest != [] {
        assert ([parts[0]] + rest)[1..] == rest;
        assert Join([parts[0]] + rest, "") == parts[0] + "" + Join(rest, "");
      }
    }
  }

  /** Each word is a run of non-whitespace characters. */
  lemma WordsHaveNoSpace(text: string)
    ensures forall k, i :: 0 <= k < |Words(text)| && 0 <= i < |Words(text)[k]| ==> !IsSpace(Words(text)[k][i])
  {
    var parts := SplitWhere(text, IsSpace);
    SplitPiecesHaveNoSeparator(text, IsSpace);
    NonEmptyMembers(parts);
  }

  /** The non-empty pieces are pieces. */
  lemma {:induction false} NonEmptyMembers(parts: seq<string>)
    ensures forall k :: 0 <= k < |NonEmpty(parts)| ==> NonEmpty(parts)[k] in parts
    decreases |parts|
  {
    if parts != [] {
      NonEmptyMembers(parts[1..]);
      var rest := NonEmpty(parts[1..]);
      forall k | 0 <= k < |NonEmpty(parts)|
        ensures NonEmpty(parts)[k] in parts
      {
        if parts[0] != [] && k > 0 {
          assert NonEmpty(parts)[k] == rest[k - 1];
        }
        if parts[0] == [] || k > 0 {
          assert NonEmpty(parts)[k] in parts[1..];
        }
      }
    }
  }

  /**
   * `count_words` counts runs of non-whitespace: the words hold no
   * whitespace, glued together they are the text without its whitespace,
   * and there are none exactly when the text is all whitespace (so the
   * empty text has none).
   */
  lemma CountWordsSpec(text: string)
    ensures CountWords(text) == |Words(text)|
    ensures Join(Words(text), "") == Keep(text, IsSpace)
    ensures CountWords(text) == 0 <==> forall i :: 0 <= i < |text| ==> IsSpace(text[i])
    ensures CountWords("") == 0
  {
    var parts := SplitWhere(text, IsSpace);
    NonEmptyGlued(parts);
    SplitGlued(text, IsSpace);
    var glued := Join(Words(text), "");
    if CountWords(text) == 0 {
      forall i | 0 <= i < |text|
        ensures IsSpace(text[i])
      {
        if !IsSpace(text[i]) {
          KeepStays(text, IsSpace, i);
        }
      }
    } else {
      var w := Words(text)[0];
      assert w != [];
      assert glued == w + Join(Words(text)[1..], "") by {
        if |Words(text)| > 1 {
          assert glued == w + "" + Join(Words(text)[1..], "");
        }
      }
      KeepMembers(text, IsSpace);
      assert glued[0] in text;
      WordsHaveNoSpace(text);
      assert !IsSpace(glued[0]);
    }
  }

  // ---------------------------------------------------------------------
  // sanitize_filename
  // ---------------------------------------------------------------------

  /** The characters of the class `[<>:"/\\|?*]`. */
  predicate IsForbidden(c: char) {
    c == '<' || c == '>' || c == ':' || c == '"' || c == '/' || c == '\\' || c == '|' || c == '?' || c == '*'
  }

  predicate IsUnderscore(c: char) {
    c == '_'
  }

  /** `re.sub(r'_+', '_', s)`: every run of underscores becomes one. */
  function Squeeze(s: string): (r: string)
    ensures |r| <= |s|
    ensures s != [] ==> r != [] && r[0] == s[0] && r[|r| - 1] == s[|s| - 1]
    decreases |s|
  {
    if |s| < 2 then s
    else if s[0] == '_' && s[1] == '_' then Squeeze(s[1..])
    else [s[0]] + Squeeze(s[1..])
  }

  /** No underscore directly follows another. */
  predicate NoDoubleUnderscore(s: string) {
    forall i :: 0 <= i < |s| - 1 ==> !(s[i] == '_' && s[i + 1] == '_')
  }

  /** After squeezing, no two underscores touch, and apart from underscores nothing changed. */
  lemma {:induction false} SqueezeNoDouble(s: string)
    ensures NoDoubleUnderscore(Squeeze(s))
    decreases |s|
  {
    if |s| >= 2 {
      SqueezeNoDouble(s[1..]);
      if !(s[0] == '_' && s[1] == '_') {
        var rest := Squeeze(s[1..]);
        var r := Squeeze(s);
        assert r == [s[0]] + rest;
        forall i | 0 <= i < |r| - 1
          ensures !(r[i] == '_' && r[i + 1] == '_')
        {
          if i > 0 {
            assert r[i] == rest[i - 1] && r[i + 1] == rest[i];
          }
        }
      }
    }
  }

  /** Squeezing removes only underscores. */
  lemma {:induction false} SqueezeKeep(s: string)
    ensures Keep(Squeeze(s), IsUnderscore) == Keep(s, IsUnderscore)
    decreases |s|
  {
    if |s| >= 2 {
      SqueezeKeep(s[1..]);
      if !(s[0] == '_' && s[1] == '_') {
        assert Squeeze(s) == [s[0]] + Squeeze(s[1..]);
        KeepAppend([s[0]], Squeeze(s[1..]), IsUnderscore);
        KeepAppend([s[0]], s[1..], IsUnderscore);
        assert [s[0]] + s[1..] == s;
      }
    }
  }

  /** Squeezing only removes characters: a property of every character survives it. */
  lemma {:induction false} SqueezeAll(s: string, ok: char -> bool)
    requires forall i :: 0 <= i < |s| ==> ok(s[i])
    ensures forall i :: 0 <= i < |Squeeze(s)| ==> ok(Squeeze(s)[i])
    decreases |s|
  {
    if |s| >= 2 {
      SqueezeAll(s[1..], ok);
    }
  }

  /** Squeezing a string with no touching underscores changes nothing. */
  lemma {:induction false} SqueezeNone(s: string)
    requires NoDoubleUnderscore(s)
    ensures Squeeze(s) == s
    decreases |s|
  {
    if |s| >= 2 {
      assert !(s[0] == '_' && s[1] == '_');
      assert NoDoubleUnderscore(s[1..]) by {
        forall i | 0 <= i < |s[1..]| - 1
          ensures !(s[1..][i] == '_' && s[1..][i + 1] == '_')
        {
          assert s[1..][i] == s[i + 1] && s[1..][i + 1] == s[i + 2];
        }
      }
      SqueezeNone(s[1..]);
      assert [s[0]] + s[1..] == s;
    }
  }

  /** `s.lstrip('_')` */
  function LStripUnderscores(s: string): (r: string)
    ensures |r| <= |s| && r == s[|s| - |r|..]
    ensures r == [] || r[0] != '_'
    ensures forall i :: 0 <= i < |s| - |r| ==> s[i] == '_'
    decreases |s|
  {
    if s != [] && s[0] == '_' then LStripUnderscores(s[1..]) else s
  }

  /** `s.rstrip('_')` */
  function RStripUnderscores(s: string): (r: string)
    ensures |r| <= |s| && r == s[..|r|]
    ensures r == [] || r[|r| - 1] != '_'
    ensures forall i :: |r| <= i < |s| ==> s[i] == '_'
    decreases |s|
  {
    if s != [] && s[|s| - 1] == '_' then RStripUnderscores(s[..|s| - 1]) else s
  }

  /** `s.strip('_')`: the part between the underscores at either end. */
  function StripUnderscores(s: string): (r: string)
    ensures r == [] || (r[0] != '_' && r[|r| - 1] != '_')
  {
    var l := LStripUnderscores(s);
    var r := RStripUnderscores(l);
    assert r != [] ==> r[0] == l[0];
    r
  }

  /** How many underscores `s.strip('_')` removes from the front. */
  function LeadingUnderscores(s: string): nat {
    |s| - |LStripUnderscores(s)|
  }

  /** Stripping takes a slice of `s`, with underscores only outside it. */
  lemma StripUnderscoresSlice(s: string)
    ensures LeadingUnderscores(s) + |StripUnderscores(s)| <= |s|
    ensures StripUnderscores(s) == s[LeadingUnderscores(s)..LeadingUnderscores(s) + |StripUnderscores(s)|]
    ensures forall i :: 0 <= i < LeadingUnderscores(s) ==> s[i] == '_'
    ensures forall i :: LeadingUnderscores(s) + |StripUnderscores(s)| <= i < |s| ==> s[i] == '_'
  {
    var l := LStripUnderscores(s);
    var a := |s| - |l|;
    var r := StripUnderscores(s);
    assert r == l[..|r|];
    forall i | a + |r| <= i < |s|
      ensures s[i] == '_'
    {
      assert s[i] == l[i - a];
    }
  }

  /** A string that neither starts nor ends with an underscore is its own stripped form. */
  lemma StripUnderscoresNone(s: string)
    requires s == [] || (s[0] != '_' && s[|s| - 1] != '_')
    ensures StripUnderscores(s) == s
  {
    assert LStripUnderscores(s) == s;
    assert RStripUnderscores(s) == s;
  }

  /** Keeping a middle slice of `s` loses nothing when everything outside it is dropped. */
  lemma KeepMiddle(s: string, a: nat, b: nat, drop: char -> bool)
    requires a <= b <= |s|
    requires forall i :: 0 <= i < a ==> drop(s[i])
    requires forall i :: b <= i < |s| ==> drop(s[i])
    ensures Keep(s[a..b], drop) == Keep(s, drop)
  {
    assert s == s[..a] + s[a..b] + s[b..];
    KeepAppend(s[..a] + s[a..b], s[b..], drop);
    KeepAppend(s[..a], s[a..b], drop);
    KeepNone(s[..a], drop);
    KeepNone(s[b..], drop);
  }

  /** Stripping removes only underscores. */
  lemma StripUnderscoresKeep(s: string)
    ensures Keep(StripUnderscores(s), IsUnderscore) == Keep(s, IsUnderscore)
  {
    StripUnderscoresSlice(s);
    KeepMiddle(s, LeadingUnderscores(s), LeadingUnderscores(s) + |StripUnderscores(s)|, IsUnderscore);
  }

  /** Dropping every character leaves nothing. */
  lemma {:induction false} KeepNone(s: string, drop: char -> bool)
    requires forall i :: 0 <= i < |s| ==> drop(s[i])
    ensures Keep(s, drop) == []
    decreases |s|
  {
    if s != [] {
      KeepNone(s[1..], drop);
    }
  }

  /** `sanitize_filename` */
  function SanitizeFilename(text: string): string {
    StripUnderscores(Squeeze(ReplaceChar(Keep(text, IsForbidden), ' ', '_')))
  }

  /** Replacing spaces by underscores and then dropping underscores drops both. */
  lemma {:induction false} KeepAfterReplace(s: string)
    ensures Keep(ReplaceChar(s, ' ', '_'), IsUnderscore) == Keep(s, IsSpaceOrUnderscore)
    decreases |s|
  {
    if s != [] {
      KeepAfterReplace(s[1..]);
      assert ReplaceChar(s, ' ', '_')[1..] == ReplaceChar(s[1..], ' ', '_');
    }
  }

  predicate IsSpaceOrUnderscore(c: char) {
    c == ' ' || c == '_'
  }

  /** Neither forbidden nor a space. */
  predicate IsSafeInName(c: char) {
    !IsForbidden(c) && c != ' '
  }

  /** What `sanitize_filename` drops or may drop: the forbidden characters, spaces and underscores. */
  predicate IsUnsafeInName(c: char) {
    IsForbidden(c) || c == ' ' || c == '_'
  }

  /** Dropping forbidden characters, then spaces and underscores, drops all three. */
  lemma {:induction false} KeepUnsafe(s: string)
    ensures Keep(Keep(s, IsForbidden), IsSpaceOrUnderscore) == Keep(s, IsUnsafeInName)
    decreases |s|
  {
    if s != [] {
      KeepUnsafe(s[1..]);
      if !IsForbidden(s[0]) {
        assert ([s[0]] + Keep(s[1..], IsForbidden))[1..] == Keep(s[1..], IsForbidden);
      }
    }
  }

  /** Every character is safe in a name and no two underscores touch. */
  predicate SafeName(s: string) {
    (forall i :: 0 <= i < |s| ==> IsSafeInName(s[i])) && NoDoubleUnderscore(s)
  }

  /** A slice of a safe name is safe. */
  lemma SafeSlice(s: string, a: nat, b: nat)
    requires a <= b <= |s|
    requires SafeName(s)
    ensures SafeName(s[a..b])
  {
    var t := s[a..b];
    forall i | 0 <= i < |t| - 1
      ensures !(t[i] == '_' && t[i + 1] == '_')
    {
      assert t[i] == s[a + i] && t[i + 1] == s[a + i + 1];
    }
  }

  /** Once forbidden characters are gone, replacing spaces by underscores leaves only safe ones. */
  lemma ReplacedSafe(k: string)
    requires forall i :: 0 <= i < |k| ==> !IsForbidden(k[i])
    ensures forall i :: 0 <= i < |k| ==> IsSafeInName(ReplaceChar(k, ' ', '_')[i])
  {
  }

  /** The characters of a sanitised name: none forbidden, no space, no touching underscores. */
  lemma SanitizeFilenameChars(text: string)
    ensures forall i :: 0 <= i < |SanitizeFilename(text)| ==>
      !IsForbidden(SanitizeFilename(text)[i]) && SanitizeFilename(text)[i] != ' '
    ensures NoDoubleUnderscore(SanitizeFilename(text))
  {
    var u := ReplaceChar(Keep(text, IsForbidden), ' ', '_');
    var q := Squeeze(u);
    var r := StripUnderscores(q);
    SqueezeNoDouble(u);
    ReplacedSafe(Keep(text, IsForbidden));
    SqueezeAll(u, IsSafeInName);
    StripUnderscoresSlice(q);
    SafeSlice(q, LeadingUnderscores(q), LeadingUnderscores(q) + |r|);
  }

  /** Apart from underscores, a sanitised name is the input without forbidden characters and spaces. */
  lemma SanitizeFilenameKeeps(text: string)
    ensures Keep(SanitizeFilename(text), IsUnderscore) == Keep(text, IsUnsafeInName)
  {
    var k := Keep(text, IsForbidden);
    var u := ReplaceChar(k, ' ', '_');
    SqueezeKeep(u);
    StripUnderscoresKeep(Squeeze(u));
    KeepAfterReplace(k);
    KeepUnsafe(text);
  }

  /**
   * `sanitize_filename`: the result holds none of `<>:"/\\|?*` and no space,
   * no two underscores touch, it neither starts nor ends with an
   * underscore, and apart from underscores it is the input without its
   * forbidden characters and spaces.
   */
  lemma SanitizeFilenameSpec(text: string)
    ensures forall i :: 0 <= i < |SanitizeFilename(text)| ==>
      !IsForbidden(SanitizeFilename(text)[i]) && SanitizeFilename(text)[i] != ' '
    ensures NoDoubleUnderscore(SanitizeFilename(text))
    ensures SanitizeFilename(text) == [] || (SanitizeFilename(text)[0] != '_' && SanitizeFilename(text)[|SanitizeFilename(text)| - 1] != '_')
    ensures Keep(SanitizeFilename(text), IsUnderscore) == Keep(text, IsUnsafeInName)
  {
    SanitizeFilenameChars(text);
    SanitizeFilenameKeeps(text);
  }

  /** Replacing a character that does not occur changes nothing. */
  lemma ReplaceAbsent(s: string, a: char, b: char)
    requires forall i :: 0 <= i < |s| ==> s[i] != a
    ensures ReplaceChar(s, a, b) == s
  {
    assert forall i :: 0 <= i < |s| ==> ReplaceChar(s, a, b)[i] == s[i];
  }

  /** A safe name that neither starts nor ends with an underscore passes `sanitize_filename` unchanged. */
  lemma SanitizeFilenameFixed(r: string)
    requires SafeName(r)
    requires r == [] || (r[0] != '_' && r[|r| - 1] != '_')
    ensures SanitizeFilename(r) == r
  {
    KeepNothing(r, IsForbidden);
    ReplaceAbsent(r, ' ', '_');
    SqueezeNone(r);
    StripUnderscoresNone(r);
  }

  /** A sanitised name is its own sanitised form. */
  lemma SanitizeFilenameIdempotent(text: string)
    ensures SanitizeFilename(SanitizeFilename(text)) == SanitizeFilename(text)
  {
    SanitizeFilenameSpec(text);
    SanitizeFilenameFixed(SanitizeFilename(text));
  }


  // ---------------------------------------------------------------------
  // indent
  // ---------------------------------------------------------------------

  /** `' ' * n`: empty when `n` is not positive. */
  function Spaces(n: int): (r: string)
    ensures |r| == (if n > 0 then n else 0)
    ensures forall i :: 0 <= i < |r| ==> r[i] == ' '
  {
    seq(if n > 0 then n else 0, _ => ' ')
  }

  /** A line with something other than whitespace gets `pad` in front; a blank one is left alone. */
  function PadLine(line: string, pad: string): string {
    if Strip(line) != [] then pad + line else line
  }

  /** `PadLine` on every line. */
  function PadLines(ls: seq<string>, pad: string): (r: seq<string>)
    ensures |r| == |ls|
    ensures forall k :: 0 <= k < |ls| ==> r[k] == PadLine(ls[k], pad)
  {
    seq(|ls|, k requires 0 <= k < |ls| => PadLine(ls[k], pad))
  }

  /** `indent` */
  function Indent(text: string, spaces: int): string {
    Join(PadLines(Lines(text), Spaces(spaces)), "\n")
  }

  /** The lines of `text` are free of newlines. */
  lemma LinesNoNewline(text: string)
    ensures forall k :: 0 <= k < |Lines(text)| ==> '\n' !in Lines(text)[k]
  {
    SplitPiecesHaveNoSeparator(text, c => c == '\n');
    forall k | 0 <= k < |Lines(text)|
      ensures '\n' !in Lines(text)[k]
    {
      var l := Lines(text)[k];
      assert forall i :: 0 <= i < |l| ==> l[i] != '\n';
    }
  }

  /** Padding a newline-free line with spaces keeps it newline-free. */
  lemma PadLinesNoNewline(ls: seq<string>, pad: string)
    requires forall k :: 0 <= k < |ls| ==> '\n' !in ls[k]
    requires forall i :: 0 <= i < |pad| ==> pad[i] == ' '
    ensures forall k :: 0 <= k < |ls| ==> '\n' !in PadLine(ls[k], pad)
  {
    forall k | 0 <= k < |ls|
      ensures '\n' !in PadLine(ls[k], pad)
    {
      assert '\n' !in pad;
    }
  }

  /** Each padded line starts with the padding, unless it is blank. */
  lemma PadLinesPadded(ls: seq<string>, pad: string)
    ensures forall k :: 0 <= k < |ls| ==> StartsWith(PadLines(ls, pad)[k], pad) || Strip(PadLines(ls, pad)[k]) == []
  {
    forall k | 0 <= k < |ls|
      ensures StartsWith(PadLine(ls[k], pad), pad) || Strip(PadLine(ls[k], pad)) == []
    {
      if Strip(ls[k]) != [] {
        assert (pad + ls[k])[..|pad|] == pad;
      }
    }
  }

  /** Padding with nothing changes no line. */
  lemma PadNothing(ls: seq<string>)
    ensures PadLines(ls, "") == ls
  {
    forall k | 0 <= k < |ls|
      ensures PadLine(ls[k], "") == ls[k]
    {
      assert "" + ls[k] == ls[k];
    }
  }

  /**
   * `indent`: the result has exactly the lines of `text`, in order, each
   * non-blank one preceded by `spaces` spaces and each blank one unchanged;
   * so every line of the result starts with the padding or is blank, and a
   * non-positive count gives back `text`.
   */
  lemma IndentSpec(text: string, spaces: int)
    ensures Lines(Indent(text, spaces)) == PadLines(Lines(text), Spaces(spaces))
    ensures forall k :: 0 <= k < |Lines(Indent(text, spaces))| ==>
      StartsWith(Lines(Indent(text, spaces))[k], Spaces(spaces)) || Strip(Lines(Indent(text, spaces))[k]) == []
    ensures spaces <= 0 ==> Indent(text, spaces) == text
  {
    var ls := Lines(text);
    var pad := Spaces(spaces);
    var ps := PadLines(ls, pad);
    LinesNoNewline(text);
    PadLinesNoNewline(ls, pad);
    SplitJoin(ps, '\n');
    PadLinesPadded(ls, pad);
    if spaces <= 0 {
      PadNothing(ls);
      JoinSplit(text, '\n');
    }
  }

  // ---------------------------------------------------------------------
  // remove_empty_lines
  // ---------------------------------------------------------------------

  /** The lines with something other than whitespace, in order. */
  function NonBlank(ls: seq<string>): seq<string> {
    if ls == [] then []
    else if Strip(ls[|ls| - 1]) != [] then NonBlank(ls[..|ls| - 1]) + [ls[|ls| - 1]]
    else NonBlank(ls[..|ls| - 1])
  }

  /** `remove_empty_lines` */
  function RemoveEmptyLines(text: string): string {
    Join(NonBlank(Lines(text)), "\n")
  }

  /** One step of a filter written with the last element split off. */
  lemma SubseqStep<T>(r0: seq<T>, init: seq<T>, last: T, keep: bool, r: seq<T>, s: seq<T>)
    requires IsSubseq(r0, init)
    requires s == init + [last]
    requires r == r0 + (if keep then [last] else [])
    ensures IsSubseq(r, s)
  {
    SubseqExtend(r0, init, last, keep);
  }

  /** The kept lines are a subsequence of all lines. */
  lemma {:induction false} NonBlankSubseq(ls: seq<string>)
    ensures IsSubseq(NonBlank(ls), ls)
    decreases |ls|
  {
    if ls != [] {
      var init, last := ls[..|ls| - 1], ls[|ls| - 1];
      NonBlankSubseq(init);
      var keep := Strip(last) != [];
      assert init + [last] == ls;
      SubseqStep(NonBlank(init), init, last, keep, NonBlank(ls), ls);
    }
  }

  /** The kept lines are exactly the non-blank ones. */
  lemma {:induction false} NonBlankMembers(ls: seq<string>)
    ensures forall l :: l in NonBlank(ls) <==> l in ls && Strip(l) != []
    decreases |ls|
  {
    if ls != [] {
      var init, last := ls[..|ls| - 1], ls[|ls| - 1];
      NonBlankMembers(init);
      assert ls == init + [last];
      forall l
        ensures l in NonBlank(ls) <==> l in ls && Strip(l) != []
      {
        assert l in ls <==> l in init || l == last;
      }
    }
  }

  /** Filtering twice keeps what filtering once kept. */
  lemma {:induction false} NonBlankTwice(ls: seq<string>)
    ensures NonBlank(NonBlank(ls)) == NonBlank(ls)
    decreases |ls|
  {
    if ls != [] {
      var init, last := ls[..|ls| - 1], ls[|ls| - 1];
      NonBlankTwice(init);
      var r := NonBlank(ls);
      if Strip(last) != [] {
        assert r[..|r| - 1] == NonBlank(init);
      } else {
        assert r == NonBlank(init);
      }
    }
  }

  /** A subsequence of newline-free lines is newline-free. */
  lemma NonBlankNoNewline(text: string)
    ensures forall k :: 0 <= k < |NonBlank(Lines(text))| ==> '\n' !in NonBlank(Lines(text))[k]
  {
    LinesNoNewline(text);
    NonBlankMembers(Lines(text));
    forall k | 0 <= k < |NonBlank(Lines(text))|
      ensures '\n' !in NonBlank(Lines(text))[k]
    {
      assert NonBlank(Lines(text))[k] in Lines(text);
    }
  }

  /**
   * `remove_empty_lines`: the lines of the result are the non-blank lines
   * of `text`, in order (or the single empty line when there are none), and
   * removing empty lines a second time changes nothing.
   */
  lemma RemoveEmptyLinesSpec(text: string)
    ensures Lines(RemoveEmptyLines(text)) == (if NonBlank(Lines(text)) == [] then [""] else NonBlank(Lines(text)))
    ensures RemoveEmptyLines(RemoveEmptyLines(text)) == RemoveEmptyLines(text)
  {
    var kept := NonBlank(Lines(text));
    if kept != [] {
      NonBlankNoNewline(text);
      SplitJoin(kept, '\n');
      NonBlankTwice(Lines(text));
    } else {
      assert Lines("") == [""];
      assert NonBlank([""]) == [] by {
        StripEmptyIffAllSpace("");
      }
    }
  }

  // ---------------------------------------------------------------------
  // wrap_text
  // ---------------------------------------------------------------------

  /** The total length of the words, spaces not counted. */
  function SumLen(ws: seq<string>): nat {
    if ws == [] then 0 else SumLen(ws[..|ws| - 1]) + |ws[|ws| - 1]|
  }

  /** A line of several words, joined with single spaces, is no wider than `width`. */
  predicate Fits(line: seq<string>, width: int) {
    |line| >= 2 ==> SumLen(line) + |line| - 1 <= width
  }

  /** The line, a space and `next` would be wider than `width`. */
  predicate Full(line: seq<string>, next: string, width: int) {
    SumLen(line) + |line| + |next| > width
  }

  /**
   * The variables of the loop of `wrap_text`: the finished lines (as
   * their words), the words of the line being filled, and the summed
   * length of those words.
   */
  datatype WrapState = WrapState(lines: seq<seq<string>>, current: seq<string>, currentLength: int)

  /**
   * One iteration of the loop for `word`. A word that would overflow the
   * line being filled starts a new line; when that line is still empty the
   * word becomes a finished line by itself and the line stays empty.
   */
  function WrapStep(st: WrapState, word: string, width: int): WrapState {
    if st.currentLength + |word| + |st.current| > width then
      if st.current != [] then WrapState(st.lines + [st.current], [word], |word|)
      else WrapState(st.lines + [[word]], st.current, st.currentLength)
    else WrapState(st.lines, st.current + [word], st.currentLength + |word|)
  }

  /** The loop over `words` from the initial state. */
  function WrapRun(words: seq<string>, width: int): WrapState {
    if words == [] then WrapState([], [], 0)
    else WrapStep(WrapRun(words[..|words| - 1], width), words[|words| - 1], width)
  }

  /** The lines, as words, once the line being filled is added if it is non-empty. */
  function WrapGroups(words: seq<string>, width: int): seq<seq<string>> {
    var st := WrapRun(words, width);
    if st.current != [] then st.lines + [st.current] else st.lines
  }

  /** `sep.join` on each list of words. */
  function JoinEach(gs: seq<seq<string>>, sep: string): (r: seq<string>)
    ensures |r| == |gs|
    ensures forall k :: 0 <= k < |gs| ==> r[k] == Join(gs[k], sep)
  {
    seq(|gs|, k requires 0 <= k < |gs| => Join(gs[k], sep))
  }

  /** `wrap_text` */
  function Wrapped(text: string, width: int): string {
    Join(JoinEach(WrapGroups(Words(text), width), " "), "\n")
  }

  /** `wrap_text`, with the loop of the source. */
  method WrapText(text: string, width: int) returns (r: string)
    ensures r == Wrapped(text, width)
  {
    var words := Words(text);
    var lines: seq<string> := [];
    var currentLine: seq<string> := [];
    var currentLength := 0;
    for i := 0 to |words|
      invariant lines == JoinEach(WrapRun(words[..i], width).lines, " ")
      invariant currentLine == WrapRun(words[..i], width).current
      invariant currentLength == WrapRun(words[..i], width).currentLength
    {
      var word := words[i];
      assert words[..i + 1][..i] == words[..i];
      JoinEachSnoc(WrapRun(words[..i], width).lines, currentLine, " ");
      if currentLength + |word| + |currentLine| > width {
        if currentLine != [] {
          lines := lines + [Join(currentLine, " ")];
          currentLine := [word];
          currentLength := |word|;
        } else {
          JoinEachSnoc(WrapRun(words[..i], width).lines, [word], " ");
          lines := lines + [word];
        }
      } else {
        currentLine := currentLine + [word];
        currentLength := currentLength + |word|;
      }
    }
    assert words[..|words|] == words;
    if currentLine != [] {
      JoinEachSnoc(WrapRun(words, width).lines, currentLine, " ");
      lines := lines + [Join(currentLine, " ")];
    }
    r := Join(lines, "\n");
  }

  /** Joining each of one more list adds one more joined string. */
  lemma JoinEachSnoc(gs: seq<seq<string>>, g: seq<string>, sep: string)
    ensures JoinEach(gs + [g], sep) == JoinEach(gs, sep) + [Join(g, sep)]
  {
  }

  /**
   * What the loop keeps true: the finished lines and the line being
   * filled hold the words seen so far, in order; finished lines are
   * non-empty; a line of several words fits the width; the length
   * counter is the summed length of the line being filled; each finished
   * line could not take the first word after it; and when the line being
   * filled is empty, the last finished line is already wider than `width`.
   */
  predicate WrapInv(st: WrapState, words: seq<string>, width: int) {
    && Concat(st.lines) + st.current == words
    && (forall k :: 0 <= k < |st.lines| ==> st.lines[k] != [] && Fits(st.lines[k], width))
    && Fits(st.current, width)
    && st.currentLength == SumLen(st.current)
    && (forall k :: 0 <= k < |st.lines| - 1 ==> Full(st.lines[k], st.lines[k + 1][0], width))
    && (st.lines != [] && st.current != [] ==> Full(st.lines[|st.lines| - 1], st.current[0], width))
    && (st.lines != [] && st.current == [] ==> Full(st.lines[|st.lines| - 1], "", width))
  }

  /** The concatenation of one more list. */
  lemma ConcatSnoc(xss: seq<seq<string>>, x: seq<string>)
    ensures Concat(xss + [x]) == Concat(xss) + x
  {
    ConcatAppend(xss, [x]);
    assert Concat([x]) == x + Concat([]);
  }

  /** A word that overflows a non-empty line closes it and starts the next one. */
  lemma WrapFlush(st: WrapState, words: seq<string>, word: string, width: int)
    requires WrapInv(st, words, width)
    requires st.currentLength + |word| + |st.current| > width && st.current != []
    ensures WrapInv(WrapStep(st, word, width), words + [word], width)
  {
    var n := WrapStep(st, word, width);
    ConcatSnoc(st.lines, st.current);
    assert n.current == [word] && SumLen([word]) == SumLen([]) + |word|;
    assert n.lines[|n.lines| - 1] == st.current;
  }

  /** A word that overflows an empty line becomes a line by itself. */
  lemma WrapAlone(st: WrapState, words: seq<string>, word: string, width: int)
    requires WrapInv(st, words, width)
    requires st.currentLength + |word| + |st.current| > width && st.current == []
    ensures WrapInv(WrapStep(st, word, width), words + [word], width)
  {
    var n := WrapStep(st, word, width);
    ConcatSnoc(st.lines, [word]);
    assert [word][..0] == [];
    assert SumLen([word]) == |word|;
  }

  /** A word that fits joins the line being filled. */
  lemma WrapAppend(st: WrapState, words: seq<string>, word: string, width: int)
    requires WrapInv(st, words, width)
    requires st.currentLength + |word| + |st.current| <= width
    ensures WrapInv(WrapStep(st, word, width), words + [word], width)
  {
    var n := WrapStep(st, word, width);
    assert n.current[..|n.current| - 1] == st.current;
    assert SumLen(n.current) == SumLen(st.current) + |word|;
    if st.current != [] {
      assert n.current[0] == st.current[0];
    }
  }

  /** The loop keeps `WrapInv` from the first word to the last. */
  lemma {:induction false} WrapRunInv(words: seq<string>, width: int)
    ensures WrapInv(WrapRun(words, width), words, width)
    decreases |words|
  {
    if words != [] {
      var init, word := words[..|words| - 1], words[|words| - 1];
      WrapRunInv(init, width);
      var st := WrapRun(init, width);
      assert init + [word] == words;
      if st.currentLength + |word| + |st.current| > width {
        if st.current != [] {
          WrapFlush(st, init, word, width);
        } else {
          WrapAlone(st, init, word, width);
        }
      } else {
        WrapAppend(st, init, word, width);
      }
    }
  }

  /** Joined with single spaces, a non-empty list of words is as long as its words and the gaps between them. */
  lemma {:induction false} JoinSpaceLength(g: seq<string>)
    requires g != []
    ensures |Join(g, " ")| == SumLen(g) + |g| - 1
    decreases |g|
  {
    if |g| > 1 {
      var init := g[..|g| - 1];
      JoinSpaceLength(init);
      JoinSnoc(init, g[|g| - 1], " ");
      assert init + [g[|g| - 1]] == g;
    } else {
      assert g[..0] == [];
    }
  }

  /**
   * The lines `wrap_text` produces, as their words: together they are the
   * words in order, none is empty, a line of several words is at most
   * `width` characters wide, and no line could have taken the first word
   * of the next one (the wrapping is greedy). A single word wider than
   * `width` gets a line of its own.
   */
  lemma WrapGroupsSpec(words: seq<string>, width: int)
    ensures Concat(WrapGroups(words, width)) == words
    ensures forall k :: 0 <= k < |WrapGroups(words, width)| ==> WrapGroups(words, width)[k] != []
    ensures forall k :: 0 <= k < |WrapGroups(words, width)| && |WrapGroups(words, width)[k]| >= 2 ==>
      |Join(WrapGroups(words, width)[k], " ")| <= width
    ensures forall k :: 0 <= k < |WrapGroups(words, width)| - 1 ==>
      |Join(WrapGroups(words, width)[k], " ")| + 1 + |WrapGroups(words, width)[k + 1][0]| > width
  {
    var st := WrapRun(words, width);
    var gs := WrapGroups(words, width);
    WrapRunInv(words, width);
    if st.current != [] {
      ConcatSnoc(st.lines, st.current);
    }
    WrapGroupsShape(st, words, width, gs);
    forall k | 0 <= k < |gs|
      ensures |Join(gs[k], " ")| == SumLen(gs[k]) + |gs[k]| - 1
    {
      JoinSpaceLength(gs[k]);
    }
  }

  /** The final lines inherit the invariant: non-empty, fitting and greedy. */
  lemma WrapGroupsShape(st: WrapState, words: seq<string>, width: int, gs: seq<seq<string>>)
    requires WrapInv(st, words, width)
    requires gs == if st.current != [] then st.lines + [st.current] else st.lines
    ensures forall k :: 0 <= k < |gs| ==> gs[k] != [] && Fits(gs[k], width)
    ensures forall k :: 0 <= k < |gs| - 1 ==> Full(gs[k], gs[k + 1][0], width)
  {
  }

  /** Every word of every list is a word of the concatenation. */
  lemma {:induction false} ConcatMember(gs: seq<seq<string>>, k: nat, j: nat)
    requires k < |gs| && j < |gs[k]|
    ensures gs[k][j] in Concat(gs)
    decreases k
  {
    if k > 0 {
      ConcatMember(gs[1..], k - 1, j);
    }
  }

  /** Joining pieces and a separator that all lack `c` gives a string without `c`. */
  lemma {:induction false} JoinWithout(parts: seq<string>, sep: string, c: char)
    requires forall k :: 0 <= k < |parts| ==> c !in parts[k]
    requires c !in sep
    ensures c !in Join(parts, sep)
    decreases |parts|
  {
    if |parts| > 1 {
      JoinWithout(parts[1..], sep, c);
    }
  }

  /**
   * `wrap_text`, read back line by line: its lines are the wrapped groups
   * of words each joined with single spaces (so every line of several
   * words is at most `width` wide), and the result is empty exactly when
   * `text` has no words.
   */
  lemma WrappedSpec(text: string, width: int)
    ensures WrapGroups(Words(text), width) != [] ==>
      Lines(Wrapped(text, width)) == JoinEach(WrapGroups(Words(text), width), " ")
    ensures Wrapped(text, width) == [] <==> Words(text) == []
  {
    var words := Words(text);
    var gs := WrapGroups(words, width);
    var ls := JoinEach(gs, " ");
    WrapGroupsSpec(words, width);
    WordsHaveNoSpace(text);
    forall k | 0 <= k < |ls|
      ensures '\n' !in ls[k]
    {
      forall j | 0 <= j < |gs[k]|
        ensures '\n' !in gs[k][j]
      {
        ConcatMember(gs, k, j);
        assert forall i :: 0 <= i < |gs[k][j]| ==> !IsSpace(gs[k][j][i]);
      }
      JoinWithout(gs[k], " ", '\n');
    }
    if gs != [] {
      SplitJoin(ls, '\n');
      ConcatMember(gs, 0, 0);
      assert gs[0][0] != [];
      JoinSpaceLength(gs[0]);
    } else {
      assert Concat(gs) == [];
    }
    JoinEmpty(ls, "\n");
  }
}
