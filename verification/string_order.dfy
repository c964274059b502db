/**
 * Python's ordering of strings (lexicographic by code point) and
 * `sorted` over a list of strings with a key function. Python's sort is
 * stable: elements with equal keys keep their input order.
 */
module StringOrder {
  /** `a < b` on Python strings. */
  predicate Below(a: string, b: string)
    decreases |a|
  {
    b != [] && (a == [] || a[0] < b[0] || (a[0] == b[0] && Below(a[1..], b[1..])))
  }

  /** No string is below itself. */
  lemma {:induction false} BelowIrreflexive(a: string)
    ensures !Below(a, a)
    decreases |a|
  {
    if a != [] {
      BelowIrreflexive(a[1..]);
    }
  }

  /** The order is transitive. */
  lemma {:induction false} BelowTransitive(a: string, b: string, c: string)
    requires Below(a, b) && Below(b, c)
    ensures Below(a, c)
    decreases |a|
  {
    if a != [] && a[0] == b[0] && b[0] == c[0] {
      BelowTransitive(a[1..], b[1..], c[1..]);
    }
  }

  /** Any two different strings are ordered one way or the other. */
  lemma {:induction false} BelowTotal(a: string, b: string)
    ensures a == b || Below(a, b) || Below(b, a)
    decreases |a|
  {
    if a != [] && b != [] && a[0] == b[0] {
      BelowTotal(a[1..], b[1..]);
      if a[1..] == b[1..] {
        assert a == [a[0]] + a[1..] && b == [b[0]] + b[1..];
      }
    }
  }

  /** The identity key: `sorted(s)` with no key. */
  function Same(x: string): string {
    x
  }

  /** No element's key is below the key of an element before it. */
  predicate Sorted(r: seq<string>, key: string -> string) {
    forall i, j {:trigger Below(key(r[j]), key(r[i]))} :: 0 <= i < j < |r| ==> !Below(key(r[j]), key(r[i]))
  }

  /** The elements of `s` whose key is `k`, in order. */
  function WithKey(s: seq<string>, k: string, key: string -> string): seq<string>
    decreases |s|
  {
    if s == [] then [] else (if key(s[0]) == k then [s[0]] else []) + WithKey(s[1..], k, key)
  }

  /** Inserting `x` after every element whose key is not above its own. */
  function Insert(x: string, t: seq<string>, key: string -> string): seq<string>
    decreases |t|
  {
    if t == [] then [x]
    else if Below(key(x), key(t[0])) then [x] + t
    else [t[0]] + Insert(x, t[1..], key)
  }

  /** `sorted(s, key=key)`: insertion of each element in input order. */
  function SortBy(s: seq<string>, key: string -> string): seq<string>
    decreases |s|
  {
    if s == [] then [] else Insert(s[|s| - 1], SortBy(s[..|s| - 1], key), key)
  }

  /** Selecting by key distributes over concatenation. */
  lemma {:induction false} WithKeyAppend(a: seq<string>, b: seq<string>, k: string, key: string -> string)
    ensures WithKey(a + b, k, key) == WithKey(a, k, key) + WithKey(b, k, key)
    decreases |a|
  {
    if a == [] {
      assert a + b == b;
    } else {
      assert (a + b)[0] == a[0] && (a + b)[1..] == a[1..] + b;
      WithKeyAppend(a[1..], b, k, key);
    }
  }

  /** No element with key `k` means nothing selected. */
  lemma {:induction false} WithKeyNone(s: seq<string>, k: string, key: string -> string)
    requires forall i :: 0 <= i < |s| ==> key(s[i]) != k
    ensures WithKey(s, k, key) == []
    decreases |s|
  {
    if s != [] {
      WithKeyNone(s[1..], k, key);
    }
  }

  /** Inserting adds exactly `x`. */
  lemma {:induction false} InsertMultiset(x: string, t: seq<string>, key: string -> string)
    ensures multiset(Insert(x, t, key)) == multiset(t) + multiset{x}
    decreases |t|
  {
    if t != [] && !Below(key(x), key(t[0])) {
      InsertMultiset(x, t[1..], key);
      assert t == [t[0]] + t[1..];
    }
  }

  /** The tail of a sorted list is sorted. */
  lemma SortedTail(t: seq<string>, key: string -> string)
    requires t != [] && Sorted(t, key)
    ensures Sorted(t[1..], key)
  {
    forall i, j | 0 <= i < j < |t[1..]|
      ensures !Below(key(t[1..][j]), key(t[1..][i]))
    {
      assert t[1..][j] == t[j + 1] && t[1..][i] == t[i + 1];
    }
  }

  /** When `x` goes in front of a sorted list, every element's key is above the key of `x`. */
  lemma InsertedInFront(x: string, t: seq<string>, key: string -> string)
    requires t != [] && Sorted(t, key) && Below(key(x), key(t[0]))
    ensures forall j :: 0 <= j < |t| ==> !Below(key(t[j]), key(x)) && key(t[j]) != key(x)
  {
    var kx, k0 := key(x), key(t[0]);
    forall j | 0 <= j < |t|
      ensures !Below(key(t[j]), kx) && key(t[j]) != kx
    {
      var kj := key(t[j]);
      BelowIrreflexive(k0);
      if Below(kj, kx) {
        BelowTransitive(kj, kx, k0);
      }
    }
  }

  /** When neither `x` nor any element of `t` has a key below `b`, no element of the insertion has. */
  lemma {:induction false} InsertAbove(x: string, t: seq<string>, key: string -> string, b: string)
    requires !Below(key(x), b)
    requires forall j :: 0 <= j < |t| ==> !Below(key(t[j]), b)
    ensures forall j :: 0 <= j < |Insert(x, t, key)| ==> !Below(key(Insert(x, t, key)[j]), b)
    decreases |t|
  {
    var r := Insert(x, t, key);
    if t != [] && !Below(key(x), key(t[0])) {
      InsertAbove(x, t[1..], key, b);
      var rest := Insert(x, t[1..], key);
      assert r == [t[0]] + rest;
      forall j | 0 < j < |r|
        ensures !Below(key(r[j]), b)
      {
        assert r[j] == rest[j - 1];
      }
    } else if t != [] {
      assert r == [x] + t;
    }
  }

  /** Inserting into a sorted list keeps it sorted. */
  lemma {:induction false} InsertSorted(x: string, t: seq<string>, key: string -> string)
    requires Sorted(t, key)
    ensures Sorted(Insert(x, t, key), key)
    decreases |t|
  {
    var r := Insert(x, t, key);
    if t == [] {
    } else if Below(key(x), key(t[0])) {
      InsertedInFront(x, t, key);
      assert r == [x] + t;
      forall i, j | 0 <= i < j < |r|
        ensures !Below(key(r[j]), key(r[i]))
      {
        assert r[j] == t[j - 1];
        if i > 0 {
          assert r[i] == t[i - 1];
        }
      }
    } else {
      var rest := Insert(x, t[1..], key);
      assert r == [t[0]] + rest;
      SortedTail(t, key);
      InsertSorted(x, t[1..], key);
      InsertAbove(x, t[1..], key, key(t[0]));
      forall j | 0 < j < |r|
        ensures !Below(key(r[j]), key(t[0]))
      {
        assert r[j] == rest[j - 1];
      }
      forall i, j | 0 <= i < j < |r|
        ensures !Below(key(r[j]), key(r[i]))
      {
        if i > 0 {
          assert r[i] == rest[i - 1] && r[j] == rest[j - 1];
        }
      }
    }
  }

  /** Inserting places `x` after every element with the same key. */
  lemma {:induction false} InsertWithKey(x: string, t: seq<string>, key: string -> string, k: string)
    requires Sorted(t, key)
    ensures WithKey(Insert(x, t, key), k, key) == WithKey(t, k, key) + (if key(x) == k then [x] else [])
    decreases |t|
  {
    if t == [] {
      assert Insert(x, t, key) == [x] + [];
      WithKeyCons(x, [], k, key);
    } else if Below(key(x), key(t[0])) {
      WithKeyCons(x, t, k, key);
      if key(x) == k {
        InsertedInFront(x, t, key);
        WithKeyNone(t, k, key);
      }
    } else {
      SortedTail(t, key);
      InsertWithKey(x, t[1..], key, k);
      WithKeyCons(t[0], Insert(x, t[1..], key), k, key);
      WithKeyCons(t[0], t[1..], k, key);
      assert [t[0]] + t[1..] == t;
    }
  }

  /** The elements with key `k` of a list with a head `y`. */
  lemma WithKeyCons(y: string, s: seq<string>, k: string, key: string -> string)
    ensures WithKey([y] + s, k, key) == (if key(y) == k then [y] else []) + WithKey(s, k, key)
  {
    assert ([y] + s)[0] == y && ([y] + s)[1..] == s;
  }

  /**
   * `sorted` returns a permutation of its input, ordered by key, in which
   * the elements of each key keep their input order.
   */
  lemma {:induction false} SortBySpec(s: seq<string>, key: string -> string)
    ensures multiset(SortBy(s, key)) == multiset(s)
    ensures Sorted(SortBy(s, key), key)
    ensures forall k :: WithKey(SortBy(s, key), k, key) == WithKey(s, k, key)
    decreases |s|
  {
    if s != [] {
      var init, last := s[..|s| - 1], s[|s| - 1];
      SortBySpec(init, key);
      InsertMultiset(last, SortBy(init, key), key);
      InsertSorted(last, SortBy(init, key), key);
      assert s == init + [last];
      forall k
        ensures WithKey(SortBy(s, key), k, key) == WithKey(s, k, key)
      {
        InsertWithKey(last, SortBy(init, key), key, k);
        WithKeyAppend(init, [last], k, key);
      }
    }
  }

  /** Sorting keeps the length. */
  lemma SortByLength(s: seq<string>, key: string -> string)
    ensures |SortBy(s, key)| == |s|
  {
    SortBySpec(s, key);
    assert |multiset(SortBy(s, key))| == |multiset(s)|;
  }
}
