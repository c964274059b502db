/**
 * File-system paths as the planners and generators build them: a path is a
 * list of components, absolute or relative, the way `pathlib` keeps them.
 * Only the operations the planners use are modelled: `parent`, `name`,
 * `stem`, joining one component, and rendering with `str`.
 */
module Paths {
  import opened Text

  /** What `pathlib` keeps as one component: not empty, not ".", and without '/'. */
  predicate IsComponent(s: string) {
    s != [] && s != "." && '/' !in s
  }

  type Component = s: string | IsComponent(s) witness "a"

  datatype Path = Path(absolute: bool, parts: seq<Component>)

  /** `path.parent`: the path without its last component; a path with no components is its own parent. */
  function Parent(p: Path): Path {
    if p.parts == [] then p else Path(p.absolute, p.parts[..|p.parts| - 1])
  }

  /** `path.name`: the last component, or "" when there is none. */
  function Name(p: Path): string {
    if p.parts == [] then "" else p.parts[|p.parts| - 1]
  }

  /** The pieces that are components, in order. */
  function Proper(pieces: seq<string>): seq<Component>
    decreases |pieces|
  {
    if pieces == [] then []
    else if IsComponent(pieces[|pieces| - 1]) then Proper(pieces[..|pieces| - 1]) + [pieces[|pieces| - 1]]
    else Proper(pieces[..|pieces| - 1])
  }

  /**
   * The components `pathlib` reads in a string: the pieces between '/'
   * characters, leaving out the empty ones and ".".
   */
  function Components(s: string): seq<Component> {
    Proper(Split(s, '/'))
  }

  /**
   * `path / name`: a name starting with '/' gives an absolute path of its own
   * components and drops `path`; any other name appends its components (a
   * single component is appended as it is).
   */
  function Child(p: Path, name: string): Path {
    if IsComponent(name) then Path(p.absolute, p.parts + [name])
    else if name != [] && name[0] == '/' then Path(true, Components(name))
    else Path(p.absolute, p.parts + Components(name))
  }

  /** Joining is reading the name's components: the first branch of `Child` is a shortcut of the others. */
  lemma ChildByComponents(p: Path, name: string)
    ensures Child(p, name) ==
      if name != [] && name[0] == '/' then Path(true, Components(name)) else Path(p.absolute, p.parts + Components(name))
  {
    if IsComponent(name) {
      ComponentsOfComponent(name);
    }
  }

  /** Keeping the components of two lists of pieces keeps those of each. */
  lemma {:induction false} ProperAppend(a: seq<string>, b: seq<string>)
    ensures Proper(a + b) == Proper(a) + Proper(b)
    decreases |b|
  {
    if b == [] {
      assert a + b == a;
    } else {
      var b' := b[..|b| - 1];
      assert (a + b)[..|a + b| - 1] == a + b';
      ProperAppend(a, b');
    }
  }

  /** A component read as a path is that one component. */
  lemma ComponentsOfComponent(name: string)
    requires IsComponent(name)
    ensures Components(name) == [name]
  {
    SplitNoSeparator(name, '/');
    assert [name][..0] == [];
    assert Proper([name]) == Proper([]) + [name];
  }

  /** The components of a name holding '/' are those of the part before it and of the part after it. */
  lemma ComponentsOfSlashed(a: string, b: string)
    ensures Components(a + "/" + b) == Components(a) + Components(b)
  {
    SplitAppend(a, b, '/');
    ProperAppend(Split(a, '/'), Split(b, '/'));
  }

  /** A child's parent is the directory it was put in, and its name the component it was given. */
  lemma ChildInverse(p: Path, name: string)
    requires IsComponent(name)
    ensures Parent(Child(p, name)) == p && Name(Child(p, name)) == name
  {
    ComponentsOfComponent(name);
    assert (p.parts + [name])[..|p.parts|] == p.parts;
  }

  /** Conversely, a path with a component is the child of its parent named by its name. */
  lemma ParentChild(p: Path)
    requires p.parts != []
    ensures Child(Parent(p), Name(p)) == p
  {
    ComponentsOfComponent(Name(p));
    assert p.parts[..|p.parts| - 1] + [p.parts[|p.parts| - 1]] == p.parts;
  }

  /**
   * A name "a/b" joined below a path makes two components: the result lies
   * in the directory `p / a`, not in `p`, and is named `b`.
   */
  lemma ChildOfSlashed(p: Path, a: string, b: string)
    requires IsComponent(a) && IsComponent(b)
    ensures Child(p, a + "/" + b) == Child(Child(p, a), b)
    ensures Parent(Child(p, a + "/" + b)) == Child(p, a) && Name(Child(p, a + "/" + b)) == b
  {
    ComponentsOfSlashed(a, b);
    ComponentsOfComponent(a);
    ComponentsOfComponent(b);
    ChildInverse(Child(p, a), b);
    assert (p.parts + [a]) + [b] == p.parts + [a, b];
  }

  /** A name "/b" joined below any path gives the absolute path "/b". */
  lemma ChildOfRooted(p: Path, b: string)
    requires IsComponent(b)
    ensures Child(p, "/" + b) == Path(true, [b])
  {
    ComponentsOfSlashed("", b);
    ComponentsOfComponent(b);
    assert Split("", '/') == [""];
    assert "" + "/" + b == "/" + b;
  }

  /** `str(path)`: components joined with '/', a leading '/' when absolute, "." for the empty relative path. */
  function Render(p: Path): (s: string)
    ensures s != []
  {
    if p.absolute then "/" + Join(p.parts, "/")
    else if Join(p.parts, "/") == [] then "."
    else Join(p.parts, "/")
  }

  /** Rendering a child appends '/' and the name, except directly below "." or the root. */
  lemma RenderChild(p: Path, name: string)
    requires IsComponent(name)
    ensures Render(Child(p, name)) ==
      if p.parts == [] then (if p.absolute then "/" + name else name)
      else Render(p) + "/" + name
  {
    ComponentsOfComponent(name);
    if p.parts == [] {
      assert p.parts + [name] == [name];
    } else {
      JoinSnoc(p.parts, name, "/");
      JoinEmpty(p.parts, "/");
    }
  }

  /** The index of the last '.', or -1. */
  function LastDot(s: string): (i: int)
    ensures -1 <= i < |s|
    ensures i >= 0 ==> s[i] == '.'
    ensures forall k :: i < k < |s| ==> s[k] != '.'
    decreases |s|
  {
    if s == [] then -1
    else if s[|s| - 1] == '.' then |s| - 1
    else LastDot(s[..|s| - 1])
  }

  /** `path.suffix` of a name: from the last '.', unless that dot starts or ends the name. */
  function Suffix(name: string): (r: string)
    ensures r == [] || (r[0] == '.' && '.' !in r[1..] && |r| >= 2)
  {
    var i := LastDot(name);
    if 0 < i < |name| - 1 then name[i..] else ""
  }

  /** `path.stem` of a name: the name without its suffix. */
  function Stem(name: string): string {
    var i := LastDot(name);
    if 0 < i < |name| - 1 then name[..i] else name
  }

  /** Stem and suffix split the name. */
  lemma StemSuffix(name: string)
    ensures Stem(name) + Suffix(name) == name
  {
  }

  /** The stem with ".spec" and then ".test" removed: the base every generated file name starts from. */
  function BaseName(p: Path): string {
    ReplaceAll(ReplaceAll(Stem(Name(p)), ".spec", ""), ".test", "")
  }

  /** A category or module name made safe for a file name: lowercased, spaces turned into '-'. */
  function Slug(s: string): (r: string)
    ensures |r| == |s|
    ensures forall i :: 0 <= i < |r| ==> r[i] != ' ' && !IsUpper(r[i])
  {
    ReplaceCharPointwise(Lower(s), ' ', '-');
    ReplaceAll(Lower(s), " ", "-")
  }

  /** A base name never holds '/', so a file name built from it stays in one component. */
  lemma BaseNamePlain(p: Path)
    ensures '/' !in BaseName(p)
  {
    var stem := Stem(Name(p));
    assert forall c :: c in stem ==> c in Name(p);
    RemoveAllFrom(stem, ".spec");
    RemoveAllFrom(ReplaceAll(stem, ".spec", ""), ".test");
  }

  /** Each character of a slug is made from the character at the same place. */
  lemma SlugAt(s: string)
    ensures forall i :: 0 <= i < |s| ==> Slug(s)[i] == (if LowerChar(s[i]) == ' ' then '-' else LowerChar(s[i]))
  {
    ReplaceCharPointwise(Lower(s), ' ', '-');
  }

  /** The slug of a concatenation is the concatenation of the slugs. */
  lemma SlugAppend(a: string, b: string)
    ensures Slug(a + b) == Slug(a) + Slug(b)
  {
    SlugAt(a);
    SlugAt(b);
    SlugAt(a + b);
    assert forall i :: 0 <= i < |a| ==> (a + b)[i] == a[i];
    assert forall i :: |a| <= i < |a| + |b| ==> (a + b)[i] == b[i - |a|];
  }

  /** The slug of "a/b" is the slug of `a`, '/', and the slug of `b`. */
  lemma SlugOfSlashed(a: string, b: string)
    ensures Slug(a + "/" + b) == Slug(a) + "/" + Slug(b)
  {
    SlugAppend(a + "/", b);
    SlugAppend(a, "/");
    SlugAt("/");
  }

  /** A slug holds '/' or '.' exactly where the name does. */
  lemma SlugKeepsSlashesAndDots(s: string)
    ensures forall i :: 0 <= i < |s| ==> (Slug(s)[i] == '/' <==> s[i] == '/') && (Slug(s)[i] == '.' <==> s[i] == '.')
  {
    SlugAt(s);
  }

  /** The slug of a component is a component. */
  lemma SlugOfComponent(s: string)
    requires IsComponent(s)
    ensures IsComponent(Slug(s))
  {
    SlugKeepsSlashesAndDots(s);
  }

  /** The stem of "test.spec.ts" is "test.spec", and its base "test". */
  lemma BaseNameExample()
    ensures Stem("test.spec.ts") == "test.spec"
    ensures BaseName(Path(false, ["src", "test.spec.ts"])) == "test"
  {
    assert LastDot("test.spec.ts") == 9 by {
      assert "test.spec.ts"[..11] == "test.spec.t";
      assert "test.spec.t"[..10] == "test.spec.";
    }
    assert "test.spec.ts"[..9] == "test.spec";
    var s := "test.spec";
    assert s[..5] == "test.";
    assert s[1..][..5] == "est.s";
    assert s[2..][..5] == "st.sp";
    assert s[3..][..5] == "t.spe";
    assert s[4..][..5] == ".spec";
    assert ReplaceAll(s, ".spec", "") == "test";
    assert ReplaceAll("test", ".test", "") == "test";
  }
}
