/**
 * The import optimizer: sorting import lines into four groups, dropping
 * the imports whose names a file never mentions, merging the imports of
 * one source into a single line, and laying the groups out as a block.
 * The two regular expressions of the source are written out as matchers.
 */
module ImportOptimizer {
  import opened Wrappers
  import opened Text
  import opened StringOrder
  import opened Subsequences

  // ---------------------------------------------------------------------
  // Grouping
  // ---------------------------------------------------------------------

  /** The four groups `optimize` returns. */
  datatype OptimizedImports = OptimizedImports(external: seq<string>, internal: seq<string>, types: seq<string>,
                                               testUtils: seq<string>)

  datatype Group = External | Internal | Types | TestUtils

  /** The package names that mark an import as external. */
  const ExternalPackages: set<string> := {"@nestjs", "@angular", "react", "vue", "lodash", "axios", "rxjs", "moment", "date-fns"}

  /** `_is_external`: the import text contains one of the external package names. */
  predicate IsExternal(imp: string) {
    exists pkg :: pkg in ExternalPackages && Contains(imp, pkg)
  }

  /** "type" anywhere in the lower-cased text. */
  predicate MentionsType(imp: string) {
    Contains(Lower(imp), "type")
  }

  /** "test", "mock" or "stub" anywhere in the text, case-sensitively. */
  predicate MentionsTestUtil(imp: string) {
    Contains(imp, "test") || Contains(imp, "mock") || Contains(imp, "stub")
  }

  /** The group of one import, tested in the order of `optimize`. */
  function GroupOf(imp: string): Group {
    if MentionsType(imp) then Types
    else if MentionsTestUtil(imp) then TestUtils
    else if IsExternal(imp) then External
    else Internal
  }

  /** The group of each import, in order. */
  function GroupsOf(imports: seq<string>): (gs: seq<Group>)
    ensures |gs| == |imports|
  {
    if imports == [] then [] else GroupsOf(imports[..|imports| - 1]) + [GroupOf(imports[|imports| - 1])]
  }

  /** Entry `i` is the group of import `i`. */
  lemma {:induction false} GroupsOfAt(imports: seq<string>, i: nat)
    requires i < |imports|
    ensures GroupsOf(imports)[i] == GroupOf(imports[i])
    decreases |imports|
  {
    if i < |imports| - 1 {
      GroupsOfAt(imports[..|imports| - 1], i);
    }
  }

  /** The imports whose entry in `gs` is `g`, in input order. */
  function Select(imports: seq<string>, gs: seq<Group>, g: Group): seq<string>
    requires |gs| == |imports|
  {
    if imports == [] then []
    else
      var n := |imports| - 1;
      if gs[n] == g then Select(imports[..n], gs[..n], g) + [imports[n]] else Select(imports[..n], gs[..n], g)
  }

  /** A selection keeps the input order. */
  lemma {:induction false} SelectIsSubseq(imports: seq<string>, gs: seq<Group>, g: Group)
    requires |gs| == |imports|
    ensures IsSubseq(Select(imports, gs, g), imports)
    decreases |imports|
  {
    if imports != [] {
      var n := |imports| - 1;
      SelectIsSubseq(imports[..n], gs[..n], g);
      SubseqExtend(Select(imports[..n], gs[..n], g), imports[..n], imports[n], gs[n] == g);
      assert imports[..n] + [imports[n]] == imports;
    }
  }

  /** The imports of group `g`, in input order. */
  function InGroup(imports: seq<string>, g: Group): seq<string> {
    Select(imports, GroupsOf(imports), g)
  }

  /** An import is selected exactly when some position holds it with entry `g`. */
  lemma {:induction false} SelectMembers(imports: seq<string>, gs: seq<Group>, g: Group, x: string)
    requires |gs| == |imports|
    ensures x in Select(imports, gs, g) <==> exists i :: 0 <= i < |imports| && imports[i] == x && gs[i] == g
    decreases |imports|
  {
    if imports != [] {
      var n := |imports| - 1;
      SelectMembers(imports[..n], gs[..n], g, x);
      if exists i :: 0 <= i < |imports| && imports[i] == x && gs[i] == g {
        var i :| 0 <= i < |imports| && imports[i] == x && gs[i] == g;
        if i < n {
          assert imports[..n][i] == x && gs[..n][i] == g;
        }
      }
      if x in Select(imports[..n], gs[..n], g) {
        var i :| 0 <= i < n && imports[..n][i] == x && gs[..n][i] == g;
        assert imports[i] == x && gs[i] == g;
      }
    }
  }

  /** An import is in its own group and in no other. */
  lemma InGroupMembers(imports: seq<string>, g: Group, x: string)
    ensures x in InGroup(imports, g) <==> x in imports && GroupOf(x) == g
  {
    SelectMembers(imports, GroupsOf(imports), g, x);
    if x in imports {
      var i :| 0 <= i < |imports| && imports[i] == x;
      GroupsOfAt(imports, i);
    }
    if x in InGroup(imports, g) {
      var i :| 0 <= i < |imports| && imports[i] == x && GroupsOf(imports)[i] == g;
      GroupsOfAt(imports, i);
    }
  }

  /** Selecting each of the four groups in turn gives back every import exactly once. */
  lemma {:induction false} SelectPartition(imports: seq<string>, gs: seq<Group>)
    requires |gs| == |imports|
    ensures multiset(Select(imports, gs, External)) + multiset(Select(imports, gs, Internal))
            + multiset(Select(imports, gs, Types)) + multiset(Select(imports, gs, TestUtils)) == multiset(imports)
    decreases |imports|
  {
    if imports != [] {
      var n := |imports| - 1;
      var init, x := imports[..n], imports[n];
      SelectPartition(init, gs[..n]);
      var a, b, c, d := multiset(Select(init, gs[..n], External)), multiset(Select(init, gs[..n], Internal)),
                        multiset(Select(init, gs[..n], Types)), multiset(Select(init, gs[..n], TestUtils));
      SelectStep(imports, gs, External);
      SelectStep(imports, gs, Internal);
      SelectStep(imports, gs, Types);
      SelectStep(imports, gs, TestUtils);
      assert multiset(imports) == multiset(init) + multiset{x} by {
        assert imports == init + [x];
      }
      OneMoreInOneGroup(a, b, c, d, multiset(Select(imports, gs, External)), multiset(Select(imports, gs, Internal)),
                        multiset(Select(imports, gs, Types)), multiset(Select(imports, gs, TestUtils)), x, gs[n]);
    }
  }

  /** Adding one element to the group `g` of a four-way partition. */
  lemma OneMoreInOneGroup(a: multiset<string>, b: multiset<string>, c: multiset<string>, d: multiset<string>,
                          a': multiset<string>, b': multiset<string>, c': multiset<string>, d': multiset<string>, x: string, g: Group)
    requires a' == a + (if g == External then multiset{x} else multiset{})
    requires b' == b + (if g == Internal then multiset{x} else multiset{})
    requires c' == c + (if g == Types then multiset{x} else multiset{})
    requires d' == d + (if g == TestUtils then multiset{x} else multiset{})
    ensures a' + b' + c' + d' == a + b + c + d + multiset{x}
  {
  }

  /** The selection grows by the last import exactly when its entry is `g`. */
  lemma SelectStep(imports: seq<string>, gs: seq<Group>, g: Group)
    requires |gs| == |imports| && imports != []
    ensures var n := |imports| - 1;
      multiset(Select(imports, gs, g))
      == multiset(Select(imports[..n], gs[..n], g)) + (if gs[n] == g then multiset{imports[n]} else multiset{})
  {
  }

  /** The four groups together hold every import exactly as often as the input does. */
  lemma GroupsPartition(imports: seq<string>)
    ensures multiset(InGroup(imports, External)) + multiset(InGroup(imports, Internal))
            + multiset(InGroup(imports, Types)) + multiset(InGroup(imports, TestUtils)) == multiset(imports)
  {
    SelectPartition(imports, GroupsOf(imports));
  }

  /** `_sort_imports`: sorted by lower-cased text, ties in input order. */
  function SortImports(imports: seq<string>): seq<string> {
    SortBy(imports, Lower)
  }

  /** What `optimize` returns: each group in input order, then sorted. */
  function Optimized(imports: seq<string>): OptimizedImports {
    OptimizedImports(SortImports(InGroup(imports, External)), SortImports(InGroup(imports, Internal)),
                     SortImports(InGroup(imports, Types)), SortImports(InGroup(imports, TestUtils)))
  }

  /** An import lands in the group its text selects, the first matching test winning. */
  lemma OptimizedMembers(imports: seq<string>, x: string)
    ensures x in Optimized(imports).types <==> x in imports && MentionsType(x)
    ensures x in Optimized(imports).testUtils <==> x in imports && !MentionsType(x) && MentionsTestUtil(x)
    ensures x in Optimized(imports).external <==> x in imports && !MentionsType(x) && !MentionsTestUtil(x) && IsExternal(x)
    ensures x in Optimized(imports).internal <==> x in imports && !MentionsType(x) && !MentionsTestUtil(x) && !IsExternal(x)
  {
    var o := Optimized(imports);
    SortBySpec(InGroup(imports, External), Lower);
    SortBySpec(InGroup(imports, Internal), Lower);
    SortBySpec(InGroup(imports, Types), Lower);
    SortBySpec(InGroup(imports, TestUtils), Lower);
    assert x in o.external <==> x in multiset(InGroup(imports, External));
    assert x in o.internal <==> x in multiset(InGroup(imports, Internal));
    assert x in o.types <==> x in multiset(InGroup(imports, Types));
    assert x in o.testUtils <==> x in multiset(InGroup(imports, TestUtils));
    InGroupMembers(imports, External, x);
    InGroupMembers(imports, Internal, x);
    InGroupMembers(imports, Types, x);
    InGroupMembers(imports, TestUtils, x);
  }

  /**
   * `optimize` returns a partition of its input: the four groups together
   * hold each import exactly as often as the input. Each group is sorted by
   * lower-cased text, and imports whose lower-cased texts are equal keep
   * their input order.
   */
  lemma OptimizedPartition(imports: seq<string>)
    ensures var o := Optimized(imports);
      multiset(o.external) + multiset(o.internal) + multiset(o.types) + multiset(o.testUtils) == multiset(imports)
    ensures var o := Optimized(imports);
      Sorted(o.external, Lower) && Sorted(o.internal, Lower) && Sorted(o.types, Lower) && Sorted(o.testUtils, Lower)
    ensures forall k :: WithKey(Optimized(imports).external, k, Lower) == WithKey(InGroup(imports, External), k, Lower)
    ensures forall k :: WithKey(Optimized(imports).types, k, Lower) == WithKey(InGroup(imports, Types), k, Lower)
    ensures forall k :: WithKey(Optimized(imports).internal, k, Lower) == WithKey(InGroup(imports, Internal), k, Lower)
    ensures forall k :: WithKey(Optimized(imports).testUtils, k, Lower) == WithKey(InGroup(imports, TestUtils), k, Lower)
  {
    SortBySpec(InGroup(imports, External), Lower);
    SortBySpec(InGroup(imports, Internal), Lower);
    SortBySpec(InGroup(imports, Types), Lower);
    SortBySpec(InGroup(imports, TestUtils), Lower);
    GroupsPartition(imports);
  }

  /** `optimize`: one pass appending each import to its group, then each group sorted. */
  method Optimize(imports: seq<string>) returns (o: OptimizedImports)
    ensures o == Optimized(imports)
    ensures multiset(o.external) + multiset(o.internal) + multiset(o.types) + multiset(o.testUtils) == multiset(imports)
  {
    var external, internal, types, testUtils := [], [], [], [];
    for i := 0 to |imports|
      invariant external == InGroup(imports[..i], External)
      invariant internal == InGroup(imports[..i], Internal)
      invariant types == InGroup(imports[..i], Types)
      invariant testUtils == InGroup(imports[..i], TestUtils)
    {
      var imp := imports[i];
      assert imports[..i + 1][..i] == imports[..i] && imports[..i + 1][i] == imp;
      assert GroupsOf(imports[..i + 1]) == GroupsOf(imports[..i]) + [GroupOf(imp)];
      if MentionsType(imp) {
        types := types + [imp];
      } else if MentionsTestUtil(imp) {
        testUtils := testUtils + [imp];
      } else if IsExternal(imp) {
        external := external + [imp];
      } else {
        internal := internal + [imp];
      }
    }
    assert imports[..|imports|] == imports;
    o := OptimizedImports(SortImports(external), SortImports(internal), SortImports(types), SortImports(testUtils));
    OptimizedPartition(imports);
  }

  // ---------------------------------------------------------------------
  // Names and sources
  // ---------------------------------------------------------------------

  /** The first index at or after `i` holding `c`, or `|s|` when there is none. */
  function IndexFrom(s: string, c: char, i: nat): (j: nat)
    requires i <= |s|
    ensures i <= j <= |s|
    ensures forall k :: i <= k < j ==> s[k] != c
    ensures j < |s| ==> s[j] == c
    decreases |s| - i
  {
    if i == |s| || s[i] == c then i else IndexFrom(s, c, i + 1)
  }

  predicate IsQuote(c: char) {
    c == '\'' || c == '"'
  }

  /** The first index at or after `i` holding a quote, or `|s|` when there is none. */
  function QuoteFrom(s: string, i: nat): (j: nat)
    requires i <= |s|
    ensures i <= j <= |s|
    ensures forall k :: i <= k < j ==> !IsQuote(s[k])
    ensures j < |s| ==> IsQuote(s[j])
    decreases |s| - i
  {
    if i == |s| || IsQuote(s[i]) then i else QuoteFrom(s, i + 1)
  }

  /**
   * The pattern `\{([^}]+)\}` tried at index `i`: an opening brace, one or
   * more characters other than a closing brace, then a closing brace. The
   * capture is everything between the brace at `i` and the first closing
   * brace after it.
   */
  function BracesAt(s: string, i: nat): Option<string>
    requires i <= |s|
  {
    if i < |s| && s[i] == '{' then
      var j := IndexFrom(s, '}', i + 1);
      if i + 1 < j < |s| then Some(s[i + 1..j]) else None
    else None
  }

  /** `re.search` of the braces pattern from index `i` on: the match at the leftmost index where it matches. */
  function FirstBraces(s: string, i: nat): Option<string>
    requires i <= |s|
    decreases |s| - i
  {
    if i == |s| then None else if BracesAt(s, i).Some? then BracesAt(s, i) else FirstBraces(s, i + 1)
  }

  /** The search finds the leftmost match, and finds nothing only when no index from `i` on matches. */
  lemma {:induction false} FirstBracesLeftmost(s: string, i: nat)
    requires i <= |s|
    ensures FirstBraces(s, i).None? <==> forall k :: i <= k <= |s| ==> BracesAt(s, k).None?
    ensures FirstBraces(s, i).Some? ==>
              exists k :: i <= k <= |s| && BracesAt(s, k) == FirstBraces(s, i) && forall m :: i <= m < k ==> BracesAt(s, m).None?
    decreases |s| - i
  {
    if i < |s| && BracesAt(s, i).None? {
      FirstBracesLeftmost(s, i + 1);
      if FirstBraces(s, i).Some? {
        var k :| i + 1 <= k <= |s| && BracesAt(s, k) == FirstBraces(s, i + 1) && forall m :: i + 1 <= m < k ==> BracesAt(s, m).None?;
        assert forall m :: i <= m < k ==> BracesAt(s, m).None?;
      }
    } else if i < |s| {
      assert BracesAt(s, i) == FirstBraces(s, i);
    }
  }

  /** `[n.strip().split(' as ')[0] for n in group.split(',')]` */
  function NamesIn(group: string): (names: seq<string>)
    ensures |names| == |Split(group, ',')|
    ensures forall k :: 0 <= k < |names| ==> names[k] == BeforeFirst(Strip(Split(group, ',')[k]), " as ")
  {
    var parts := Split(group, ',');
    seq(|parts|, k requires 0 <= k < |parts| => BeforeFirst(Strip(parts[k]), " as "))
  }

  /** The pattern `import\s+(\w+)` matched at the start: the word after `import` and its whitespace. */
  function DefaultImport(s: string): Option<string> {
    if StartsWith(s, "import") && 6 < |s| && IsSpace(s[6]) then
      var j := SkipSpaces(s, 6);
      var e := WordEnd(s, j);
      if j < e then Some(s[j..e]) else None
    else None
  }

  /** `_extract_names` */
  function ExtractNames(imp: string): seq<string> {
    match FirstBraces(imp, 0)
    case Some(group) => NamesIn(group)
    case None =>
      match DefaultImport(imp)
      case Some(name) => [name]
      case None => []
  }

  /** A name taken from a brace group holds neither a comma nor a closing brace. */
  lemma NamesInChars(group: string)
    requires '}' !in group
    ensures forall k, c :: 0 <= k < |NamesIn(group)| && c in NamesIn(group)[k] ==> c != ',' && c != '}'
  {
    var parts := Split(group, ',');
    SplitPiecesHaveNoSeparator(group, c => c == ',');
    SplitPiecesFromText(group, c => c == ',');
    forall k, c | 0 <= k < |NamesIn(group)| && c in NamesIn(group)[k]
      ensures c != ',' && c != '}'
    {
      assert ',' !in parts[k] && '}' !in parts[k];
      StripKeepsMissing(parts[k], ',');
      StripKeepsMissing(parts[k], '}');
      var piece := Strip(parts[k]);
      var name := BeforeFirst(piece, " as ");
      assert name == piece[..|name|];
    }
  }

  /** A capture of the braces pattern holds no closing brace. */
  lemma FirstBracesChars(s: string)
    requires FirstBraces(s, 0).Some?
    ensures '}' !in FirstBraces(s, 0).value
  {
    FirstBracesLeftmost(s, 0);
    var i :| 0 <= i <= |s| && BracesAt(s, i) == FirstBraces(s, 0);
  }

  /** The default-import name is a non-empty run of word characters. */
  lemma DefaultImportChars(s: string)
    requires DefaultImport(s).Some?
    ensures DefaultImport(s).value != [] && forall c :: c in DefaultImport(s).value ==> IsWordChar(c)
  {
  }

  /**
   * `_extract_names` takes the names between the first pair of braces that
   * encloses something: one name per comma-separated piece, none holding a
   * comma or a closing brace. Failing that it takes the word after
   * `import`, a non-empty run of word characters; and otherwise nothing.
   */
  lemma ExtractNamesSpec(imp: string)
    ensures FirstBraces(imp, 0).Some? ==>
              var group := FirstBraces(imp, 0).value;
              && |ExtractNames(imp)| == |Split(group, ',')|
              && forall k, c :: 0 <= k < |ExtractNames(imp)| && c in ExtractNames(imp)[k] ==> c != ',' && c != '}'
    ensures FirstBraces(imp, 0).None? && DefaultImport(imp).Some? ==>
              |ExtractNames(imp)| == 1 && ExtractNames(imp)[0] != []
              && forall c :: c in ExtractNames(imp)[0] ==> IsWordChar(c)
    ensures FirstBraces(imp, 0).None? && DefaultImport(imp).None? ==> ExtractNames(imp) == []
  {
    if FirstBraces(imp, 0).Some? {
      FirstBracesChars(imp);
      NamesInChars(FirstBraces(imp, 0).value);
    } else if DefaultImport(imp).Some? {
      DefaultImportChars(imp);
    }
  }

  /**
   * The pattern `from\s+['"]([^'"]+)['"]` tried at index `i`: "from", one or
   * more whitespace characters, a quote, one or more non-quote characters
   * (captured) and a quote; the two quotes need not be the same.
   */
  function FromAt(s: string, i: nat): Option<string>
    requires i <= |s|
  {
    if OccursAt(s, "from", i) && i + 4 < |s| && IsSpace(s[i + 4]) then
      var k := SkipSpaces(s, i + 4);
      if k < |s| && IsQuote(s[k]) then
        var j := QuoteFrom(s, k + 1);
        if k + 1 < j < |s| then Some(s[k + 1..j]) else None
      else None
    else None
  }

  /** `re.search` of the source pattern from index `i` on. */
  function FirstFrom(s: string, i: nat): Option<string>
    requires i <= |s|
    decreases |s| - i
  {
    if i == |s| then None else if FromAt(s, i).Some? then FromAt(s, i) else FirstFrom(s, i + 1)
  }

  /** `_extract_source`: the capture of the leftmost match, or "" when there is none. */
  function ExtractSource(imp: string): string {
    match FirstFrom(imp, 0)
    case Some(source) => source
    case None => ""
  }

  /** The search finds the leftmost match, and finds nothing only when no index from `i` on matches. */
  lemma FirstFromLeftmost(s: string, i: nat)
    requires i <= |s|
    ensures FirstFrom(s, i).None? <==> forall k :: i <= k <= |s| ==> FromAt(s, k).None?
    ensures FirstFrom(s, i).Some? ==>
              exists k :: i <= k <= |s| && FromAt(s, k) == FirstFrom(s, i) && forall m :: i <= m < k ==> FromAt(s, m).None?
  {
    FirstFromNone(s, i);
    if FirstFrom(s, i).Some? {
      FirstFromFound(s, i);
    }
  }

  /** A search that succeeds stops at a match with no match before it. */
  lemma {:induction false} FirstFromFound(s: string, i: nat)
    requires i <= |s| && FirstFrom(s, i).Some?
    ensures exists k :: i <= k < |s| && FromAt(s, k) == FirstFrom(s, i) && forall m :: i <= m < k ==> FromAt(s, m).None?
    decreases |s| - i
  {
    if FromAt(s, i).Some? {
      assert FromAt(s, i) == FirstFrom(s, i);
    } else {
      FirstFromFound(s, i + 1);
      var k :| i + 1 <= k < |s| && FromAt(s, k) == FirstFrom(s, i + 1) && forall m :: i + 1 <= m < k ==> FromAt(s, m).None?;
      assert forall m :: i <= m < k ==> FromAt(s, m).None?;
    }
  }

  lemma {:induction false} FirstFromNone(s: string, i: nat)
    requires i <= |s|
    ensures FirstFrom(s, i).None? <==> forall k :: i <= k <= |s| ==> FromAt(s, k).None?
    decreases |s| - i
  {
    if i == |s| {
      assert FromAt(s, i).None?;
    } else if FromAt(s, i).None? {
      FirstFromNone(s, i + 1);
    }
  }

  /**
   * `_extract_source` returns "" exactly when no `from '…'` part matches;
   * otherwise it returns the non-empty, quote-free text between the quotes
   * of the leftmost match.
   */
  lemma ExtractSourceSpec(imp: string)
    ensures ExtractSource(imp) == "" <==> forall k :: 0 <= k <= |imp| ==> FromAt(imp, k).None?
    ensures ExtractSource(imp) != "" ==>
              && (exists k :: 0 <= k <= |imp| && FromAt(imp, k) == Some(ExtractSource(imp))
                               && forall m :: 0 <= m < k ==> FromAt(imp, m).None?)
              && forall c :: c in ExtractSource(imp) ==> !IsQuote(c)
  {
    FirstFromLeftmost(imp, 0);
    if FirstFrom(imp, 0).Some? {
      var k :| 0 <= k <= |imp| && FromAt(imp, k) == FirstFrom(imp, 0) && forall m :: 0 <= m < k ==> FromAt(imp, m).None?;
      FromAtCapture(imp, k);
    }
  }

  /** A match captures a non-empty text without quotes. */
  lemma FromAtCapture(s: string, i: nat)
    requires i <= |s|
    ensures FromAt(s, i).Some? ==> FromAt(s, i).value != [] && forall c :: c in FromAt(s, i).value ==> !IsQuote(c)
  {
    if FromAt(s, i).Some? {
      var k := SkipSpaces(s, i + 4);
      var j := QuoteFrom(s, k + 1);
      assert FromAt(s, i).value == s[k + 1..j];
      forall c | c in s[k + 1..j]
        ensures !IsQuote(c)
      {
        var m :| k + 1 <= m < j && s[m] == c;
      }
    }
  }

  // ---------------------------------------------------------------------
  // Unused imports
  // ---------------------------------------------------------------------

  /** One of the import's names occurs somewhere in the content. */
  predicate IsUsed(imp: string, content: string) {
    exists name :: name in ExtractNames(imp) && Contains(content, name)
  }

  /** Whether each import is used, in order. */
  function UsedFlags(imports: seq<string>, content: string): (us: seq<bool>)
    ensures |us| == |imports|
  {
    if imports == [] then [] else UsedFlags(imports[..|imports| - 1], content) + [IsUsed(imports[|imports| - 1], content)]
  }

  /** Entry `i` says whether import `i` is used. */
  lemma {:induction false} UsedFlagsAt(imports: seq<string>, content: string, i: nat)
    requires i < |imports|
    ensures UsedFlags(imports, content)[i] == IsUsed(imports[i], content)
    decreases |imports|
  {
    if i < |imports| - 1 {
      UsedFlagsAt(imports[..|imports| - 1], content, i);
    }
  }

  /** The imports whose flag is set, in order. */
  function Kept(imports: seq<string>, us: seq<bool>): seq<string>
    requires |us| == |imports|
  {
    if imports == [] then []
    else
      var n := |imports| - 1;
      if us[n] then Kept(imports[..n], us[..n]) + [imports[n]] else Kept(imports[..n], us[..n])
  }

  /** The kept imports are a subsequence, holding exactly the imports whose flag is set. */
  lemma {:induction false} KeptSpec(imports: seq<string>, us: seq<bool>, x: string)
    requires |us| == |imports|
    ensures IsSubseq(Kept(imports, us), imports)
    ensures x in Kept(imports, us) <==> exists i :: 0 <= i < |imports| && imports[i] == x && us[i]
    decreases |imports|
  {
    if imports != [] {
      var n := |imports| - 1;
      KeptSpec(imports[..n], us[..n], x);
      SubseqExtend(Kept(imports[..n], us[..n]), imports[..n], imports[n], us[n]);
      assert imports[..n] + [imports[n]] == imports;
      if exists i :: 0 <= i < |imports| && imports[i] == x && us[i] {
        var i :| 0 <= i < |imports| && imports[i] == x && us[i];
        if i < n {
          assert imports[..n][i] == x && us[..n][i];
        }
      }
      if x in Kept(imports[..n], us[..n]) {
        var i :| 0 <= i < n && imports[..n][i] == x && us[..n][i];
        assert imports[i] == x && us[i];
      }
    }
  }

  /** What `remove_unused` returns. */
  function UsedImports(imports: seq<string>, content: string): seq<string> {
    Kept(imports, UsedFlags(imports, content))
  }

  /**
   * `remove_unused` keeps the input order and drops exactly the imports
   * none of whose names occurs in the content.
   */
  lemma UsedImportsSpec(imports: seq<string>, content: string, x: string)
    ensures IsSubseq(UsedImports(imports, content), imports)
    ensures x in UsedImports(imports, content) <==> x in imports && IsUsed(x, content)
  {
    KeptSpec(imports, UsedFlags(imports, content), x);
    if x in imports {
      var i :| 0 <= i < |imports| && imports[i] == x;
      UsedFlagsAt(imports, content, i);
    }
    if x in UsedImports(imports, content) {
      var i :| 0 <= i < |imports| && imports[i] == x && UsedFlags(imports, content)[i];
      UsedFlagsAt(imports, content, i);
    }
  }

  /** `remove_unused`: one pass keeping each import one of whose names occurs in the content. */
  method RemoveUnused(imports: seq<string>, content: string) returns (used: seq<string>)
    ensures used == UsedImports(imports, content)
    ensures IsSubseq(used, imports)
  {
    used := [];
    for i := 0 to |imports|
      invariant used == UsedImports(imports[..i], content)
    {
      var imp := imports[i];
      assert imports[..i + 1][..i] == imports[..i] && imports[..i + 1][i] == imp;
      assert UsedFlags(imports[..i + 1], content) == UsedFlags(imports[..i], content) + [IsUsed(imp, content)];
      var names := ExtractNames(imp);
      if exists name :: name in names && Contains(content, name) {
        used := used + [imp];
      }
    }
    assert imports[..|imports|] == imports;
    UsedImportsSpec(imports, content, "");
  }

  /** An import with an empty name, as a trailing comma inside the braces gives, always counts as used. */
  lemma EmptyNameAlwaysUsed(imp: string, content: string)
    requires "" in ExtractNames(imp)
    ensures IsUsed(imp, content)
  {
    assert StartsWith(content, "");
  }

  // ---------------------------------------------------------------------
  // Merging
  // ---------------------------------------------------------------------

  /** No element occurs twice: a set kept as a list. */
  predicate NoRepeats(xs: seq<string>) {
    forall i, j :: 0 <= i < j < |xs| ==> xs[i] != xs[j]
  }

  /** `names.update(more)` on a set kept as a list in insertion order. */
  function AddNames(acc: seq<string>, more: seq<string>): seq<string>
    decreases |more|
  {
    if more == [] then acc else AddNames(if more[0] in acc then acc else acc + [more[0]], more[1..])
  }

  /** Adding names gives the union, still without repeats. */
  lemma {:induction false} AddNamesSpec(acc: seq<string>, more: seq<string>)
    requires NoRepeats(acc)
    ensures NoRepeats(AddNames(acc, more))
    ensures forall x :: x in AddNames(acc, more) <==> x in acc || x in more
    decreases |more|
  {
    if more != [] {
      var next := if more[0] in acc then acc else acc + [more[0]];
      AddNamesSpec(next, more[1..]);
      assert more == [more[0]] + more[1..];
    }
  }

  /** The sources in first-appearance order, and the names collected for each. */
  datatype Merged = Merged(sources: seq<string>, names: map<string, seq<string>>)

  /** The first loop of `merge_imports` over the imports' sources `srcs` and names `nls`. */
  function Collect(srcs: seq<string>, nls: seq<seq<string>>): Merged
    requires |srcs| == |nls|
  {
    if srcs == [] then Merged([], map[])
    else
      var n := |srcs| - 1;
      var m := Collect(srcs[..n], nls[..n]);
      if srcs[n] in m.names then Merged(m.sources, m.names[srcs[n] := AddNames(m.names[srcs[n]], nls[n])])
      else Merged(m.sources + [srcs[n]], m.names[srcs[n] := AddNames([], nls[n])])
  }

  /** The collected sources are the distinct sources, and each has its entry of names. */
  lemma {:induction false} CollectSources(srcs: seq<string>, nls: seq<seq<string>>)
    requires |srcs| == |nls|
    ensures NoRepeats(Collect(srcs, nls).sources)
    ensures forall x :: x in Collect(srcs, nls).names <==> x in Collect(srcs, nls).sources
    ensures forall x :: x in Collect(srcs, nls).sources <==> x in srcs
    decreases |srcs|
  {
    if srcs != [] {
      var n := |srcs| - 1;
      CollectSources(srcs[..n], nls[..n]);
      assert srcs == srcs[..n] + [srcs[n]];
    }
  }

  /** The names collected for a source are the names of all its imports, without repeats. */
  lemma {:induction false} CollectNames(srcs: seq<string>, nls: seq<seq<string>>, x: string, name: string)
    requires |srcs| == |nls|
    ensures x in Collect(srcs, nls).names ==> NoRepeats(Collect(srcs, nls).names[x])
    ensures x in Collect(srcs, nls).names ==>
              (name in Collect(srcs, nls).names[x] <==> exists i :: 0 <= i < |srcs| && srcs[i] == x && name in nls[i])
    decreases |srcs|
  {
    if srcs != [] {
      var n := |srcs| - 1;
      var m := Collect(srcs[..n], nls[..n]);
      CollectNames(srcs[..n], nls[..n], x, name);
      if x == srcs[n] {
        AddNamesSpec(if x in m.names then m.names[x] else [], nls[n]);
      }
      if exists i :: 0 <= i < |srcs| && srcs[i] == x && name in nls[i] {
        var i :| 0 <= i < |srcs| && srcs[i] == x && name in nls[i];
        if i < n {
          assert srcs[..n][i] == x && name in nls[..n][i];
          CollectSources(srcs[..n], nls[..n]);
        }
      }
      if x in m.names && name in m.names[x] {
        var i :| 0 <= i < n && srcs[..n][i] == x && name in nls[..n][i];
        assert srcs[i] == x && name in nls[i];
      }
    }
  }

  /** The index of the first occurrence of `x`, or `|xs|` when there is none. */
  function First(xs: seq<string>, x: string): (i: nat)
    ensures i <= |xs|
    ensures i < |xs| <==> x in xs
    ensures i < |xs| ==> xs[i] == x
  {
    if xs == [] then 0 else if xs[0] == x then 0 else 1 + First(xs[1..], x)
  }

  /** Appending after an occurrence leaves the first occurrence where it was. */
  lemma {:induction false} FirstAppend(a: seq<string>, b: seq<string>, x: string)
    requires x in a
    ensures First(a + b, x) == First(a, x)
    decreases |a|
  {
    if a[0] != x {
      assert (a + b)[1..] == a[1..] + b;
      FirstAppend(a[1..], b, x);
    }
  }

  /** An element absent from `a` first occurs in `a + [x]` at the end. */
  lemma {:induction false} FirstAtEnd(a: seq<string>, x: string)
    requires x !in a
    ensures First(a + [x], x) == |a|
    decreases |a|
  {
    if a != [] {
      assert (a + [x])[1..] == a[1..] + [x];
      FirstAtEnd(a[1..], x);
    }
  }

  /** Each element of `ss` first occurs in `srcs` later than the elements before it. */
  predicate InFirstOrder(ss: seq<string>, srcs: seq<string>) {
    forall k, l :: 0 <= k < l < |ss| ==> First(srcs, ss[k]) < First(srcs, ss[l])
  }

  /** Appending to `srcs` keeps the order of earlier elements, and a new element goes last. */
  lemma OrderExtend(ss: seq<string>, init: seq<string>, x: string)
    requires InFirstOrder(ss, init)
    requires forall k :: 0 <= k < |ss| ==> ss[k] in init
    ensures InFirstOrder(ss, init + [x])
    ensures x !in init ==> InFirstOrder(ss + [x], init + [x])
  {
    var srcs := init + [x];
    forall k | 0 <= k < |ss|
      ensures First(srcs, ss[k]) == First(init, ss[k]) < |init|
    {
      FirstAppend(init, [x], ss[k]);
    }
    if x !in init {
      FirstAtEnd(init, x);
      var ss' := ss + [x];
      forall k, l | 0 <= k < l < |ss'|
        ensures First(srcs, ss'[k]) < First(srcs, ss'[l])
      {
        assert ss'[k] == ss[k];
        if l < |ss| {
          assert ss'[l] == ss[l];
        }
      }
    }
  }

  /** The collected sources come in the order of their first appearance among the imports. */
  lemma {:induction false} CollectOrder(srcs: seq<string>, nls: seq<seq<string>>)
    requires |srcs| == |nls|
    ensures InFirstOrder(Collect(srcs, nls).sources, srcs)
    decreases |srcs|
  {
    if srcs != [] {
      var n := |srcs| - 1;
      var init := srcs[..n];
      CollectOrder(init, nls[..n]);
      CollectSources(init, nls[..n]);
      assert srcs == init + [srcs[n]];
      OrderExtend(Collect(init, nls[..n]).sources, init, srcs[n]);
    }
  }

  /** The source of each import, in order. */
  function SourcesOf(imports: seq<string>): (r: seq<string>)
    ensures |r| == |imports|
  {
    if imports == [] then [] else SourcesOf(imports[..|imports| - 1]) + [ExtractSource(imports[|imports| - 1])]
  }

  /** The names of each import, in order. */
  function NamesOf(imports: seq<string>): (r: seq<seq<string>>)
    ensures |r| == |imports|
  {
    if imports == [] then [] else NamesOf(imports[..|imports| - 1]) + [ExtractNames(imports[|imports| - 1])]
  }

  /** Entry `i` of the sources and of the names belongs to import `i`. */
  lemma {:induction false} OfAt(imports: seq<string>, i: nat)
    requires i < |imports|
    ensures SourcesOf(imports)[i] == ExtractSource(imports[i])
    ensures NamesOf(imports)[i] == ExtractNames(imports[i])
    decreases |imports|
  {
    if i < |imports| - 1 {
      OfAt(imports[..|imports| - 1], i);
    }
  }

  /** One more import adds its source and its names at the end. */
  lemma OfStep(imports: seq<string>, i: nat)
    requires i < |imports|
    ensures var srcs, nls := SourcesOf(imports[..i + 1]), NamesOf(imports[..i + 1]);
      && srcs[..i] == SourcesOf(imports[..i]) && srcs[i] == ExtractSource(imports[i])
      && nls[..i] == NamesOf(imports[..i]) && nls[i] == ExtractNames(imports[i])
  {
    assert imports[..i + 1][..i] == imports[..i];
  }

  /** The line for one source: the single name bare, any other number of names sorted between braces. */
  function MergedLine(source: string, names: seq<string>): string {
    if |names| == 1 then "import " + names[0] + " from '" + source + "';"
    else "import { " + Join(SortBy(names, Same), ", ") + " } from '" + source + "';"
  }

  /** The second loop of `merge_imports`: one line per source, in order. */
  function MergedLines(sources: seq<string>, names: map<string, seq<string>>): (r: seq<string>)
    requires forall x :: x in sources ==> x in names
    ensures |r| == |sources|
  {
    if sources == [] then []
    else
      var n := |sources| - 1;
      MergedLines(sources[..n], names) + [MergedLine(sources[n], names[sources[n]])]
  }

  /** Line `k` is the line of source `k`. */
  lemma {:induction false} MergedLinesAt(sources: seq<string>, names: map<string, seq<string>>, k: nat)
    requires forall x :: x in sources ==> x in names
    requires k < |sources|
    ensures MergedLines(sources, names)[k] == MergedLine(sources[k], names[sources[k]])
    decreases |sources|
  {
    if k < |sources| - 1 {
      MergedLinesAt(sources[..|sources| - 1], names, k);
    }
  }

  /** What the first loop of `merge_imports` builds. */
  function MergeState(imports: seq<string>): Merged {
    Collect(SourcesOf(imports), NamesOf(imports))
  }

  /** What `merge_imports` returns. */
  function Merge(imports: seq<string>): seq<string> {
    var m := MergeState(imports);
    CollectSources(SourcesOf(imports), NamesOf(imports));
    MergedLines(m.sources, m.names)
  }

  /**
   * `merge_imports` emits one line per distinct source, in the order the
   * sources first appear among the imports, each line built from the
   * names collected for its source.
   */
  lemma MergeLinesSpec(imports: seq<string>)
    ensures var m := MergeState(imports);
      && |Merge(imports)| == |m.sources| && NoRepeats(m.sources)
      && InFirstOrder(m.sources, SourcesOf(imports))
      && forall k :: 0 <= k < |m.sources| ==>
           m.sources[k] in m.names && Merge(imports)[k] == MergedLine(m.sources[k], m.names[m.sources[k]])
  {
    var m := MergeState(imports);
    CollectSources(SourcesOf(imports), NamesOf(imports));
    CollectOrder(SourcesOf(imports), NamesOf(imports));
    forall k | 0 <= k < |m.sources|
      ensures m.sources[k] in m.names && Merge(imports)[k] == MergedLine(m.sources[k], m.names[m.sources[k]])
    {
      MergedLinesAt(m.sources, m.names, k);
    }
  }

  /** A source gets a line exactly when some import comes from it. */
  lemma MergeSourcesSpec(imports: seq<string>, source: string)
    ensures source in MergeState(imports).sources <==> exists i :: 0 <= i < |imports| && ExtractSource(imports[i]) == source
  {
    var srcs := SourcesOf(imports);
    CollectSources(srcs, NamesOf(imports));
    if source in srcs {
      var i :| 0 <= i < |srcs| && srcs[i] == source;
      OfAt(imports, i);
    }
    if exists i :: 0 <= i < |imports| && ExtractSource(imports[i]) == source {
      var i :| 0 <= i < |imports| && ExtractSource(imports[i]) == source;
      OfAt(imports, i);
      assert srcs[i] == source;
    }
  }

  /** The names collected for a source are, without repeats, the names of all imports from it. */
  lemma MergeNamesSpec(imports: seq<string>, source: string, name: string)
    requires source in MergeState(imports).names
    ensures NoRepeats(MergeState(imports).names[source])
    ensures name in MergeState(imports).names[source] <==>
              exists i :: 0 <= i < |imports| && ExtractSource(imports[i]) == source && name in ExtractNames(imports[i])
  {
    var srcs, nls := SourcesOf(imports), NamesOf(imports);
    CollectNames(srcs, nls, source, name);
    if exists i :: 0 <= i < |srcs| && srcs[i] == source && name in nls[i] {
      var i :| 0 <= i < |srcs| && srcs[i] == source && name in nls[i];
      OfAt(imports, i);
    }
    if exists i :: 0 <= i < |imports| && ExtractSource(imports[i]) == source && name in ExtractNames(imports[i]) {
      var i :| 0 <= i < |imports| && ExtractSource(imports[i]) == source && name in ExtractNames(imports[i]);
      OfAt(imports, i);
      assert srcs[i] == source && name in nls[i];
    }
  }

  /**
   * A line with braces lists its names sorted and without repeats: the
   * listed names are exactly the source's names.
   */
  lemma MergedLineSpec(source: string, names: seq<string>)
    requires NoRepeats(names)
    ensures |names| == 1 ==> MergedLine(source, names) == "import " + names[0] + " from '" + source + "';"
    ensures |names| != 1 ==>
              var listed := SortBy(names, Same);
              && MergedLine(source, names) == "import { " + Join(listed, ", ") + " } from '" + source + "';"
              && multiset(listed) == multiset(names)
              && forall i, j :: 0 <= i < j < |listed| ==> Below(listed[i], listed[j])
  {
    SortBySpec(names, Same);
    StrictlySorted(names);
  }

  /** Sorting names without repeats orders them strictly. */
  lemma StrictlySorted(names: seq<string>)
    requires NoRepeats(names)
    ensures forall i, j :: 0 <= i < j < |SortBy(names, Same)| ==> Below(SortBy(names, Same)[i], SortBy(names, Same)[j])
  {
    var listed := SortBy(names, Same);
    SortBySpec(names, Same);
    forall i, j | 0 <= i < j < |listed|
      ensures Below(listed[i], listed[j])
    {
      assert !Below(Same(listed[j]), Same(listed[i]));
      BelowTotal(listed[i], listed[j]);
      DistinctAfterSort(names, listed, i, j);
    }
  }

  /** A permutation of a list without repeats has no repeats. */
  lemma DistinctAfterSort(names: seq<string>, listed: seq<string>, i: nat, j: nat)
    requires NoRepeats(names) && multiset(listed) == multiset(names)
    requires i < j < |listed|
    ensures listed[i] != listed[j]
  {
    if listed[i] == listed[j] {
      var x := listed[i];
      assert listed == listed[..i] + [x] + listed[i + 1..j] + [x] + listed[j + 1..];
      assert multiset(listed)[x] >= 2;
      CountAtMostOne(names, x);
    }
  }

  /** In a list without repeats each element occurs at most once. */
  lemma {:induction false} CountAtMostOne(xs: seq<string>, x: string)
    requires NoRepeats(xs)
    ensures multiset(xs)[x] <= 1
    decreases |xs|
  {
    if xs != [] {
      var n := |xs| - 1;
      CountAtMostOne(xs[..n], x);
      assert xs == xs[..n] + [xs[n]];
      if xs[n] == x {
        assert x !in xs[..n];
      }
    }
  }

  /** `merge_imports`: the first loop groups the names by source, the second writes one line per source. */
  method MergeImports(imports: seq<string>) returns (merged: seq<string>)
    ensures merged == Merge(imports)
  {
    var sources: seq<string> := [];
    var names: map<string, seq<string>> := map[];
    for i := 0 to |imports|
      invariant Merged(sources, names) == Collect(SourcesOf(imports[..i]), NamesOf(imports[..i]))
    {
      var source := ExtractSource(imports[i]);
      var more := ExtractNames(imports[i]);
      OfStep(imports, i);
      if source !in names {
        sources := sources + [source];
        names := names[source := AddNames([], more)];
      } else {
        names := names[source := AddNames(names[source], more)];
      }
    }
    assert imports[..|imports|] == imports;
    CollectSources(SourcesOf(imports), NamesOf(imports));
    merged := [];
    for k := 0 to |sources|
      invariant merged == MergedLines(sources[..k], names)
    {
      assert sources[..k + 1][..k] == sources[..k] && sources[..k + 1][k] == sources[k];
      merged := merged + [MergedLine(sources[k], names[sources[k]])];
    }
    assert sources[..|sources|] == sources;
  }

  /** A text that lacks the first character of `t` has no occurrence of `t`. */
  lemma FirstCharMissing(s: string, t: string, k: nat)
    requires t != [] && t[0] !in s
    ensures !OccursAt(s, t, k)
  {
    if k + |t| <= |s| {
      assert s[k..k + |t|][0] == s[k];
    }
  }

  /** A text without an `f` holds no `from` clause, so its source is empty. */
  lemma NoFromNoSource(s: string)
    requires 'f' !in s
    ensures ExtractSource(s) == ""
  {
    forall k | 0 <= k <= |s|
      ensures FromAt(s, k).None?
    {
      FirstCharMissing(s, "from", k);
    }
    FirstFromLeftmost(s, 0);
  }

  /** A text without a `{` holds no brace group. */
  lemma NoBraceNoGroup(s: string)
    requires '{' !in s
    ensures FirstBraces(s, 0).None?
  {
    FirstBracesLeftmost(s, 0);
  }

  /** A single import is merged into the line for its own source and names. */
  lemma MergeOne(imp: string)
    ensures Merge([imp]) == [MergedLine(ExtractSource(imp), AddNames([], ExtractNames(imp)))]
  {
    var imports := [imp];
    assert imports[..0] == [];
    var srcs, nls := SourcesOf(imports), NamesOf(imports);
    assert srcs == [ExtractSource(imp)] && nls == [ExtractNames(imp)];
    assert srcs[..0] == [] && nls[..0] == [];
    assert Collect(srcs[..0], nls[..0]) == Merged([], map[]);
    assert [] + [srcs[0]] == srcs;
    assert MergeState(imports) == Merged(srcs, map[srcs[0] := AddNames([], nls[0])]);
  }

  /**
   * A side-effect import names nothing and has no `from` clause, so
   * `merge_imports` turns it into a line with empty braces and an empty
   * module path: the module it imported is lost.
   */
  lemma SideEffectImportMerged()
    ensures Merge(["import './setup';"]) == ["import {  } from '';"]
  {
    var imp := "import './setup';";
    SideEffectImportParts(imp);
    NamelessImportMerged(imp);
  }

  /** An import with no names and no source merges into a line with empty braces and an empty path. */
  lemma NamelessImportMerged(imp: string)
    requires ExtractSource(imp) == "" && ExtractNames(imp) == []
    ensures Merge([imp]) == ["import {  } from '';"]
  {
    MergeOne(imp);
    assert AddNames([], []) == [];
    assert SortBy([], Same) == [];
    assert MergedLine("", []) == "import {  } from '';";
  }

  /** The side-effect import has an empty source and no names. */
  lemma SideEffectImportParts(imp: string)
    requires imp == "import './setup';"
    ensures ExtractSource(imp) == "" && ExtractNames(imp) == []
  {
    assert 'f' !in imp && '{' !in imp;
    NoFromNoSource(imp);
    NoBraceNoGroup(imp);
    assert SkipSpaces(imp, 6) == 7 && !IsWordChar(imp[7]);
  }

  // ---------------------------------------------------------------------
  // Import block
  // ---------------------------------------------------------------------

  /** The groups in the order the block lays them out. */
  function BlockOrder(o: OptimizedImports): seq<seq<string>> {
    [o.external, o.types, o.internal, o.testUtils]
  }

  /** The non-empty groups, in order. */
  function Present(gs: seq<seq<string>>): (r: seq<seq<string>>)
    ensures forall k :: 0 <= k < |r| ==> r[k] != []
    ensures forall k :: 0 <= k < |r| ==> r[k] in gs
  {
    if gs == [] then [] else if gs[0] == [] then Present(gs[1..]) else [gs[0]] + Present(gs[1..])
  }

  /** Nothing is present exactly when every group is empty. */
  lemma {:induction false} PresentEmpty(gs: seq<seq<string>>)
    ensures Present(gs) == [] <==> forall k :: 0 <= k < |gs| ==> gs[k] == []
    decreases |gs|
  {
    if gs != [] {
      PresentEmpty(gs[1..]);
      if gs[0] == [] {
        forall k | 0 < k < |gs|
          ensures gs[k] == gs[1..][k - 1]
        {
        }
      }
    }
  }

  /** Each group as its lines joined by newlines. */
  function Blocks(gs: seq<seq<string>>): (r: seq<string>)
    ensures |r| == |gs| && forall k :: 0 <= k < |gs| ==> r[k] == Join(gs[k], "\n")
  {
    if gs == [] then [] else [Join(gs[0], "\n")] + Blocks(gs[1..])
  }

  /** `generate_import_block` */
  function ImportBlock(o: OptimizedImports): string {
    Join(Blocks(Present(BlockOrder(o))), "\n\n")
  }

  /** Splitting the joined blocks at newlines gives the groups' lines with a blank line between groups. */
  lemma BlocksLines(gs: seq<seq<string>>)
    requires gs != []
    requires forall k :: 0 <= k < |gs| ==> gs[k] != [] && forall m :: 0 <= m < |gs[k]| ==> '\n' !in gs[k][m]
    ensures Lines(Join(Blocks(gs), "\n\n")) == Spaced(gs)
  {
    var bs := Blocks(gs);
    LinesJoinSpaced(bs);
    forall k | 0 <= k < |gs|
      ensures MapLines(bs)[k] == gs[k]
    {
      SplitJoin(gs[k], '\n');
    }
    assert MapLines(bs) == gs;
  }

  /**
   * The import block, read line by line, lists the non-empty groups in the
   * order external, types, internal, test utilities, each group's imports
   * in order and one blank line between neighbouring groups; with every
   * group empty the block is empty.
   */
  lemma ImportBlockLayout(o: OptimizedImports)
    requires forall g, m :: g in BlockOrder(o) && 0 <= m < |g| ==> '\n' !in g[m]
    ensures Present(BlockOrder(o)) == [] <==> o.external == [] && o.types == [] && o.internal == [] && o.testUtils == []
    ensures Present(BlockOrder(o)) == [] ==> ImportBlock(o) == ""
    ensures Present(BlockOrder(o)) != [] ==> Lines(ImportBlock(o)) == Spaced(Present(BlockOrder(o)))
  {
    var gs := BlockOrder(o);
    PresentEmpty(gs);
    if Present(gs) != [] {
      BlocksLines(Present(gs));
    }
  }
}
