/**
 * The file layouts the refactorer proposes before any file is written:
 * a test file split into numbered siblings, shared utilities extracted
 * next to it, or a directory of one test file per module; and the
 * migration map that records a layout as strings.
 */
module FileStructureGenerator {
  import opened Text
  import opened Paths

  /** A layout to be created: where it lives, its files and directories, and a description. */
  datatype FileStructure = FileStructure(basePath: Path, files: seq<Path>, directories: seq<Path>, description: string)

  // ---------------------------------------------------------------------
  // Split structure
  // ---------------------------------------------------------------------

  /** What follows the base name of split file `i` (counted from 0) under a strategy. */
  function SplitSuffix(strategy: string, i: nat): string {
    if strategy == "category" then ".category" + NatToString(i + 1) + ".spec.ts"
    else if strategy == "concern" then ".part" + NatToString(i + 1) + ".spec.ts"
    else ".split" + NatToString(i + 1) + ".spec.ts"
  }

  /** Split file `i`: the base name and the suffix, beside the original. */
  function SplitFile(original: Path, strategy: string, i: nat): Path {
    Child(Parent(original), BaseName(original) + SplitSuffix(strategy, i))
  }

  /** The first `n` split files, in order. */
  function SplitFiles(original: Path, strategy: string, n: nat): (r: seq<Path>)
    ensures |r| == n
  {
    if n == 0 then [] else SplitFiles(original, strategy, n - 1) + [SplitFile(original, strategy, n - 1)]
  }

  /** Split file `k` of the list is the one numbered `k + 1`. */
  lemma {:induction false} SplitFilesAt(original: Path, strategy: string, n: nat, k: nat)
    requires k < n
    ensures SplitFiles(original, strategy, n)[k] == SplitFile(original, strategy, k)
    decreases n
  {
    var prev, last := SplitFiles(original, strategy, n - 1), SplitFile(original, strategy, n - 1);
    assert SplitFiles(original, strategy, n) == prev + [last];
    if k < n - 1 {
      SplitFilesAt(original, strategy, n - 1, k);
      assert (prev + [last])[k] == prev[k];
    }
  }

  /** `range(split_count)` is empty for a count below one. */
  function Count(splitCount: int): nat {
    if splitCount < 0 then 0 else splitCount
  }

  /** The split layout `generate_split_structure` returns. */
  function SplitStructure(original: Path, splitCount: int, strategy: string): FileStructure {
    FileStructure(
      Parent(original),
      SplitFiles(original, strategy, Count(splitCount)),
      [Parent(original)],
      "Split " + Name(original) + " into " + IntToString(splitCount) + " files by " + strategy)
  }

  /** `generate_split_structure` */
  method GenerateSplitStructure(original: Path, splitCount: int, strategy: string) returns (s: FileStructure)
    ensures s == SplitStructure(original, splitCount, strategy)
  {
    var baseName := ReplaceAll(ReplaceAll(Stem(Name(original)), ".spec", ""), ".test", "");
    var parentDir := Parent(original);
    var files: seq<Path> := [];
    for i := 0 to Count(splitCount)
      invariant files == SplitFiles(original, strategy, i)
    {
      var suffix: string;
      if strategy == "category" {
        suffix := ".category" + NatToString(i + 1) + ".spec.ts";
      } else if strategy == "concern" {
        suffix := ".part" + NatToString(i + 1) + ".spec.ts";
      } else {
        suffix := ".split" + NatToString(i + 1) + ".spec.ts";
      }
      files := files + [Child(parentDir, baseName + suffix)];
    }
    s := FileStructure(parentDir, files, [parentDir],
      "Split " + Name(original) + " into " + IntToString(splitCount) + " files by " + strategy);
  }

  /** Different numbers are written differently. */
  lemma {:induction false} NatToStringInjective(a: nat, b: nat)
    requires NatToString(a) == NatToString(b)
    ensures a == b
    decreases a
  {
    var ra, rb := NatToString(a), NatToString(b);
    if a >= 10 && b >= 10 {
      var pa, pb := NatToString(a / 10), NatToString(b / 10);
      assert ra == pa + [DigitChar(a % 10)] && rb == pb + [DigitChar(b % 10)];
      assert pa == ra[..|ra| - 1] && pb == rb[..|rb| - 1];
      assert DigitChar(a % 10) == DigitChar(b % 10);
      NatToStringInjective(a / 10, b / 10);
    }
  }

  /** Two suffixes of one strategy are equal only for the same number. */
  lemma SplitSuffixInjective(strategy: string, i: nat, j: nat)
    requires SplitSuffix(strategy, i) == SplitSuffix(strategy, j)
    ensures i == j
  {
    var head := if strategy == "category" then ".category" else if strategy == "concern" then ".part" else ".split";
    var si, sj := NatToString(i + 1), NatToString(j + 1);
    assert SplitSuffix(strategy, i) == head + si + ".spec.ts";
    assert SplitSuffix(strategy, j) == head + sj + ".spec.ts";
    assert |si| == |sj|;
    assert si == SplitSuffix(strategy, i)[|head|..|head| + |si|];
    assert sj == SplitSuffix(strategy, j)[|head|..|head| + |sj|];
    NatToStringInjective(i + 1, j + 1);
  }

  /** Split file `k` lies beside the original and is named by the base name and its suffix, which ends in `.spec.ts`. */
  lemma SplitFileFacts(original: Path, strategy: string, k: nat)
    ensures Parent(SplitFile(original, strategy, k)) == Parent(original)
    ensures Name(SplitFile(original, strategy, k)) == BaseName(original) + SplitSuffix(strategy, k)
    ensures EndsWith(Name(SplitFile(original, strategy, k)), ".spec.ts")
  {
    var name := BaseName(original) + SplitSuffix(strategy, k);
    SplitNamePlain(original, strategy, k);
    ChildInverse(Parent(original), name);
    assert name[|name| - 8..] == ".spec.ts";
  }

  /** A split file's name is a single component. */
  lemma SplitNamePlain(original: Path, strategy: string, k: nat)
    ensures IsComponent(BaseName(original) + SplitSuffix(strategy, k))
  {
    BaseNamePlain(original);
    SuffixWordsPlain();
    var digits := NatToString(k + 1);
    assert '/' !in digits;
  }

  /** The fixed words of the generated names hold no '/'. */
  lemma SuffixWordsPlain()
    ensures '/' !in ".category" && '/' !in ".part" && '/' !in ".split" && '/' !in ".spec.ts" && '/' !in ".tests"
  {
  }

  /** Split files with different numbers have different names. */
  lemma SplitNamesDistinct(original: Path, strategy: string, k: nat, m: nat)
    requires k != m
    ensures Name(SplitFile(original, strategy, k)) != Name(SplitFile(original, strategy, m))
  {
    var base := BaseName(original);
    var a, b := base + SplitSuffix(strategy, k), base + SplitSuffix(strategy, m);
    SplitFileFacts(original, strategy, k);
    SplitFileFacts(original, strategy, m);
    if a == b {
      assert SplitSuffix(strategy, k) == a[|base|..] && SplitSuffix(strategy, m) == b[|base|..];
      SplitSuffixInjective(strategy, k, m);
    }
  }

  /**
   * `generate_split_structure`: exactly `split_count` files (none for a
   * count below one), all in the original's directory, file `k` named by
   * the base name, the strategy's word and the number `k + 1`, each name
   * ending in `.spec.ts` and no two alike; the only directory is the
   * original's.
   */
  lemma SplitStructureSpec(original: Path, splitCount: int, strategy: string)
    ensures |SplitStructure(original, splitCount, strategy).files| == (if splitCount < 0 then 0 else splitCount)
    ensures SplitStructure(original, splitCount, strategy).basePath == Parent(original)
    ensures SplitStructure(original, splitCount, strategy).directories == [Parent(original)]
    ensures forall k :: 0 <= k < Count(splitCount) ==>
      SplitStructure(original, splitCount, strategy).files[k] == SplitFile(original, strategy, k)
      && Parent(SplitFile(original, strategy, k)) == Parent(original)
      && Name(SplitFile(original, strategy, k)) == BaseName(original) + SplitSuffix(strategy, k)
      && EndsWith(Name(SplitFile(original, strategy, k)), ".spec.ts")
    ensures forall k, m :: 0 <= k < m < Count(splitCount) ==>
      Name(SplitFile(original, strategy, k)) != Name(SplitFile(original, strategy, m))
  {
    forall k | 0 <= k < Count(splitCount)
      ensures SplitFiles(original, strategy, Count(splitCount))[k] == SplitFile(original, strategy, k)
      ensures Parent(SplitFile(original, strategy, k)) == Parent(original)
      ensures Name(SplitFile(original, strategy, k)) == BaseName(original) + SplitSuffix(strategy, k)
      ensures EndsWith(Name(SplitFile(original, strategy, k)), ".spec.ts")
    {
      SplitFilesAt(original, strategy, Count(splitCount), k);
      SplitFileFacts(original, strategy, k);
    }
    forall k, m | 0 <= k < m < Count(splitCount)
      ensures Name(SplitFile(original, strategy, k)) != Name(SplitFile(original, strategy, m))
    {
      SplitNamesDistinct(original, strategy, k, m);
    }
  }

  // ---------------------------------------------------------------------
  // Shared utilities
  // ---------------------------------------------------------------------

  /** The layout `generate_extract_shared_structure` returns. */
  function ExtractSharedStructure(original: Path): FileStructure {
    var dir := Parent(original);
    FileStructure(
      dir,
      [Child(dir, "test-utils.ts"), Child(dir, "test-fixtures.ts"), Child(dir, "test-mocks.ts")],
      [dir],
      "Extract shared utilities from " + Name(original))
  }

  /**
   * `generate_extract_shared_structure`, whatever the original: three
   * files beside it, named `test-utils.ts`, `test-fixtures.ts` and
   * `test-mocks.ts` in that order, and its directory as the only one.
   */
  lemma ExtractSharedSpec(original: Path)
    ensures var s := ExtractSharedStructure(original);
      && |s.files| == 3
      && s.basePath == Parent(original) && s.directories == [Parent(original)]
      && (forall k :: 0 <= k < 3 ==> Parent(s.files[k]) == Parent(original))
      && Name(s.files[0]) == "test-utils.ts"
      && Name(s.files[1]) == "test-fixtures.ts"
      && Name(s.files[2]) == "test-mocks.ts"
  {
    var dir := Parent(original);
    SharedNamesAreComponents();
    ChildInverse(dir, "test-utils.ts");
    ChildInverse(dir, "test-fixtures.ts");
    ChildInverse(dir, "test-mocks.ts");
  }

  /** The three utility file names are single components. */
  lemma SharedNamesAreComponents()
    ensures IsComponent("test-utils.ts") && IsComponent("test-fixtures.ts") && IsComponent("test-mocks.ts")
  {
  }

  // ---------------------------------------------------------------------
  // Modular structure
  // ---------------------------------------------------------------------

  /** The directory that holds the modules: `<base>.tests` beside the original. */
  function ModuleDir(original: Path): Path {
    Child(Parent(original), BaseName(original) + ".tests")
  }

  /** One test file per module, in order. */
  function ModuleFiles(dir: Path, modules: seq<string>): (r: seq<Path>)
    ensures |r| == |modules|
  {
    if modules == [] then []
    else ModuleFiles(dir, modules[..|modules| - 1]) + [Child(dir, Slug(modules[|modules| - 1]) + ".spec.ts")]
  }

  /** File `k` is the test file of module `k`. */
  lemma {:induction false} ModuleFilesAt(dir: Path, modules: seq<string>, k: nat)
    requires k < |modules|
    ensures ModuleFiles(dir, modules)[k] == Child(dir, Slug(modules[k]) + ".spec.ts")
    decreases |modules|
  {
    if k < |modules| - 1 {
      ModuleFilesAt(dir, modules[..|modules| - 1], k);
    }
  }

  /** The layout `generate_modular_structure` returns. */
  function ModularStructure(original: Path, modules: seq<string>): FileStructure {
    var dir := ModuleDir(original);
    FileStructure(
      dir,
      ModuleFiles(dir, modules) + [Child(dir, "index.ts"), Child(dir, "shared.ts")],
      [dir],
      "Create modular structure for " + Name(original))
  }

  /** `generate_modular_structure` */
  method GenerateModularStructure(original: Path, modules: seq<string>) returns (s: FileStructure)
    ensures s == ModularStructure(original, modules)
  {
    var baseName := ReplaceAll(ReplaceAll(Stem(Name(original)), ".spec", ""), ".test", "");
    var parentDir := Parent(original);
    var moduleDir := Child(parentDir, baseName + ".tests");
    var files: seq<Path> := [];
    for i := 0 to |modules|
      invariant files == ModuleFiles(moduleDir, modules[..i])
    {
      assert modules[..i + 1][..i] == modules[..i];
      var moduleSafe := ReplaceAll(Lower(modules[i]), " ", "-");
      files := files + [Child(moduleDir, moduleSafe + ".spec.ts")];
    }
    assert modules[..|modules|] == modules;
    files := files + [Child(moduleDir, "index.ts")];
    files := files + [Child(moduleDir, "shared.ts")];
    s := FileStructure(moduleDir, files, [moduleDir], "Create modular structure for " + Name(original));
  }

  /**
   * `generate_modular_structure`: `len(modules) + 2` files under
   * `<base>.tests` beside the original; file `k` is that directory joined
   * with module `k` lowercased, its spaces turned into '-', and `.spec.ts`
   * added, so no part of the name taken from a module holds a space or an
   * upper-case letter; a module without '/' gives a file directly inside
   * the directory; the last two files are `index.ts` and `shared.ts`.
   */
  lemma ModularStructureSpec(original: Path, modules: seq<string>)
    ensures var s := ModularStructure(original, modules);
      && |s.files| == |modules| + 2
      && s.basePath == ModuleDir(original) && s.directories == [ModuleDir(original)]
      && Parent(ModuleDir(original)) == Parent(original)
      && Name(ModuleDir(original)) == BaseName(original) + ".tests"
      && (forall k :: 0 <= k < |modules| ==>
            s.files[k] == Child(ModuleDir(original), Slug(modules[k]) + ".spec.ts")
            && |Slug(modules[k])| == |modules[k]|
            && (forall i :: 0 <= i < |modules[k]| ==> Slug(modules[k])[i] != ' ' && !IsUpper(Slug(modules[k])[i])))
      && (forall k :: 0 <= k < |modules| && '/' !in modules[k] ==>
            Parent(s.files[k]) == ModuleDir(original) && Name(s.files[k]) == Slug(modules[k]) + ".spec.ts")
      && Parent(s.files[|modules|]) == ModuleDir(original) && Name(s.files[|modules|]) == "index.ts"
      && Parent(s.files[|modules| + 1]) == ModuleDir(original) && Name(s.files[|modules| + 1]) == "shared.ts"
  {
    var dir := ModuleDir(original);
    var files := ModularStructure(original, modules).files;
    BaseNamePlain(original);
    ChildInverse(Parent(original), BaseName(original) + ".tests");
    forall k | 0 <= k < |modules|
      ensures files[k] == Child(dir, Slug(modules[k]) + ".spec.ts")
      ensures '/' !in modules[k] ==> Parent(files[k]) == dir && Name(files[k]) == Slug(modules[k]) + ".spec.ts"
    {
      ModuleFileFacts(dir, modules, k);
    }
    IndexAndSharedNames();
    ChildInverse(dir, "index.ts");
    ChildInverse(dir, "shared.ts");
  }

  /** File `k` of the modules is the module's file, directly in `dir` when the module has no '/'. */
  lemma ModuleFileFacts(dir: Path, modules: seq<string>, k: nat)
    requires k < |modules|
    ensures ModuleFiles(dir, modules)[k] == Child(dir, Slug(modules[k]) + ".spec.ts")
    ensures '/' !in modules[k] ==>
      Parent(ModuleFiles(dir, modules)[k]) == dir && Name(ModuleFiles(dir, modules)[k]) == Slug(modules[k]) + ".spec.ts"
  {
    ModuleFilesAt(dir, modules, k);
    if '/' !in modules[k] {
      SlugKeepsSlashesAndDots(modules[k]);
      ChildInverse(dir, Slug(modules[k]) + ".spec.ts");
    }
  }

  /** The two fixed file names of the modular layout are single components. */
  lemma IndexAndSharedNames()
    ensures IsComponent("index.ts") && IsComponent("shared.ts")
  {
  }

  /**
   * A module "a/b" gives a file `b`'s slug + `.spec.ts` inside a further
   * directory named by `a`'s slug, not directly inside `<base>.tests`.
   */
  lemma ModuleWithSlash(original: Path, modules: seq<string>, k: nat, a: string, b: string)
    requires k < |modules| && modules[k] == a + "/" + b
    requires IsComponent(a) && '/' !in b
    ensures var f := ModularStructure(original, modules).files[k];
      Parent(f) == Child(ModuleDir(original), Slug(a))
      && Parent(f) != ModuleDir(original)
      && Name(f) == Slug(b) + ".spec.ts"
  {
    var dir := ModuleDir(original);
    ModuleFilesAt(dir, modules, k);
    SlashedModuleName(a, b);
    ChildOfSlashed(dir, Slug(a), Slug(b) + ".spec.ts");
    ChildInverse(dir, Slug(a));
  }

  /** The file name of a module "a/b", regrouped around its '/' into two components. */
  lemma SlashedModuleName(a: string, b: string)
    requires IsComponent(a) && '/' !in b
    ensures Slug(a + "/" + b) + ".spec.ts" == Slug(a) + "/" + (Slug(b) + ".spec.ts")
    ensures IsComponent(Slug(a)) && IsComponent(Slug(b) + ".spec.ts")
  {
    SlugOfSlashed(a, b);
    SlugOfComponent(a);
    SlugKeepsSlashesAndDots(b);
    SuffixWordsPlain();
  }

  /** The file name of a module "/b": '/' and one component. */
  lemma RootedModuleName(b: string)
    requires '/' !in b
    ensures Slug("/" + b) + ".spec.ts" == "/" + (Slug(b) + ".spec.ts")
    ensures IsComponent(Slug(b) + ".spec.ts")
  {
    SlugAppend("/", b);
    SlugAt("/");
    SlugKeepsSlashesAndDots(b);
    SuffixWordsPlain();
  }

  /** A module "/b" gives the absolute path "/b.spec.ts" (lowercased, spaces as '-'), outside every directory of the layout. */
  lemma RootedModule(original: Path, modules: seq<string>, k: nat, b: string)
    requires k < |modules| && modules[k] == "/" + b && '/' !in b
    ensures var f := ModularStructure(original, modules).files[k];
      f.absolute && f.parts == [Slug(b) + ".spec.ts"]
  {
    var dir := ModuleDir(original);
    ModuleFilesAt(dir, modules, k);
    RootedModuleName(b);
    ChildOfRooted(dir, Slug(b) + ".spec.ts");
  }

  // ---------------------------------------------------------------------
  // Migration map
  // ---------------------------------------------------------------------

  /** The record `generate_migration_map` returns, with its five keys as fields. */
  datatype MigrationMap = MigrationMap(original: string, strategy: string, basePath: string, newFiles: seq<string>, createdDirs: seq<string>)

  /** Every path rendered with `str`, in order. */
  function RenderAll(ps: seq<Path>): (r: seq<string>)
    ensures |r| == |ps|
  {
    if ps == [] then [] else RenderAll(ps[..|ps| - 1]) + [Render(ps[|ps| - 1])]
  }

  /** Entry `k` is path `k` rendered. */
  lemma {:induction false} RenderAllAt(ps: seq<Path>, k: nat)
    requires k < |ps|
    ensures RenderAll(ps)[k] == Render(ps[k])
    decreases |ps|
  {
    if k < |ps| - 1 {
      RenderAllAt(ps[..|ps| - 1], k);
    }
  }

  /** `generate_migration_map` */
  function MigrationMapOf(original: Path, s: FileStructure): MigrationMap {
    MigrationMap(Render(original), s.description, Render(s.basePath), RenderAll(s.files), RenderAll(s.directories))
  }

  /**
   * The map's file and directory lists mirror the structure's, entry by
   * entry and in order, and it records the structure's description as its
   * strategy.
   */
  lemma MigrationMapSpec(original: Path, s: FileStructure)
    ensures var m := MigrationMapOf(original, s);
      && m.original == Render(original) && m.strategy == s.description && m.basePath == Render(s.basePath)
      && |m.newFiles| == |s.files| && (forall k :: 0 <= k < |s.files| ==> m.newFiles[k] == Render(s.files[k]))
      && |m.createdDirs| == |s.directories| && (forall k :: 0 <= k < |s.directories| ==> m.createdDirs[k] == Render(s.directories[k]))
  {
    forall k | 0 <= k < |s.files|
      ensures RenderAll(s.files)[k] == Render(s.files[k])
    {
      RenderAllAt(s.files, k);
    }
    forall k | 0 <= k < |s.directories|
      ensures RenderAll(s.directories)[k] == Render(s.directories[k])
    {
      RenderAllAt(s.directories, k);
    }
  }

  /**
   * For a split of a file in a directory with at least one component, the
   * map's new files are the directory's rendering, '/', and each split
   * name.
   */
  lemma MigrationMapOfSplit(original: Path, splitCount: int, strategy: string)
    requires Parent(original).parts != []
    ensures |MigrationMapOf(original, SplitStructure(original, splitCount, strategy)).newFiles| == Count(splitCount)
    ensures forall k :: 0 <= k < Count(splitCount) ==>
      MigrationMapOf(original, SplitStructure(original, splitCount, strategy)).newFiles[k]
        == Render(Parent(original)) + "/" + BaseName(original) + SplitSuffix(strategy, k)
  {
    var files := SplitFiles(original, strategy, Count(splitCount));
    forall k | 0 <= k < Count(splitCount)
      ensures RenderAll(files)[k] == Render(Parent(original)) + "/" + BaseName(original) + SplitSuffix(strategy, k)
    {
      RenderAllAt(files, k);
      SplitFilesAt(original, strategy, Count(splitCount), k);
      SplitFileRendered(original, strategy, k);
    }
  }

  /** A split file renders as its directory, '/', and its name. */
  lemma SplitFileRendered(original: Path, strategy: string, k: nat)
    requires Parent(original).parts != []
    ensures Render(SplitFile(original, strategy, k)) == Render(Parent(original)) + "/" + BaseName(original) + SplitSuffix(strategy, k)
  {
    var name := BaseName(original) + SplitSuffix(strategy, k);
    SplitNamePlain(original, strategy, k);
    RenderChild(Parent(original), name);
  }
}
