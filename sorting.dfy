/** Python's ordering of sort keys and its stable `sorted(..., key=...)`.
    Every key in the catalog code is a tuple of strings and integers; such a
    tuple is modelled as a sequence of `KeyPart`s compared lexicographically,
    strings by code point as Python compares them. */
module Sorting {

  datatype KeyPart = S(s: string) | N(n: int)

  type Key = seq<KeyPart>

  /** Python's `<` on strings: lexicographic by code point, a proper prefix first. */
  predicate StrLt(a: string, b: string)
  {
    if a == [] then b != []
    else if b == [] then false
    else if a[0] != b[0] then a[0] < b[0]
    else StrLt(a[1..], b[1..])
  }

  lemma {:induction false} StrLtIrreflexive(a: string)
    ensures !StrLt(a, a)
  {
    if a != [] { StrLtIrreflexive(a[1..]); }
  }

  lemma {:induction false} StrLtTotal(a: string, b: string)
    ensures a == b || StrLt(a, b) || StrLt(b, a)
  {
    if a != [] && b != [] && a[0] == b[0] {
      StrLtTotal(a[1..], b[1..]);
      if a[1..] == b[1..] { assert a == [a[0]] + a[1..] && b == [b[0]] + b[1..]; }
    }
  }

  lemma {:induction false} StrLtTransitive(a: string, b: string, c: string)
    requires StrLt(a, b) && StrLt(b, c)
    ensures StrLt(a, c)
  {
    if a != [] && a[0] == b[0] && b[0] == c[0] {
      StrLtTransitive(a[1..], b[1..], c[1..]);
    }
  }

  lemma StrLtAsymmetric(a: string, b: string)
    requires StrLt(a, b)
    ensures !StrLt(b, a)
  {
    if StrLt(b, a) { StrLtTransitive(a, b, a); StrLtIrreflexive(a); }
  }

  /** Integers before strings; in the catalog keys the two kinds never meet in
      one position, so this choice is never observed. */
  predicate PartLt(x: KeyPart, y: KeyPart)
  {
    match (x, y)
    case (S(a), S(b)) => StrLt(a, b)
    case (N(a), N(b)) => a < b
    case (N(_), S(_)) => true
    case (S(_), N(_)) => false
  }

  /** Python's `<` on tuples: lexicographic, a proper prefix first. */
  predicate KeyLt(a: Key, b: Key)
  {
    if a == [] then b != []
    else if b == [] then false
    else if a[0] != b[0] then PartLt(a[0], b[0])
    else KeyLt(a[1..], b[1..])
  }

  predicate KeyLe(a: Key, b: Key) { !KeyLt(b, a) }

  lemma PartLtTotal(x: KeyPart, y: KeyPart)
    ensures x == y || PartLt(x, y) || PartLt(y, x)
  {
    if x.S? && y.S? { StrLtTotal(x.s, y.s); }
  }

  lemma PartLtTransitive(x: KeyPart, y: KeyPart, z: KeyPart)
    requires PartLt(x, y) && PartLt(y, z)
    ensures PartLt(x, z)
  {
    if x.S? && y.S? && z.S? { StrLtTransitive(x.s, y.s, z.s); }
  }

  lemma PartLtIrreflexive(x: KeyPart)
    ensures !PartLt(x, x)
  {
    if x.S? { StrLtIrreflexive(x.s); }
  }

  lemma {:induction false} KeyLtIrreflexive(a: Key)
    ensures !KeyLt(a, a)
  {
    if a != [] { KeyLtIrreflexive(a[1..]); }
  }

  lemma {:induction false} KeyLtTotal(a: Key, b: Key)
    ensures a == b || KeyLt(a, b) || KeyLt(b, a)
  {
    if a != [] && b != [] {
      if a[0] == b[0] {
        KeyLtTotal(a[1..], b[1..]);
        if a[1..] == b[1..] { assert a == [a[0]] + a[1..] && b == [b[0]] + b[1..]; }
      } else {
        PartLtTotal(a[0], b[0]);
      }
    }
  }

  lemma {:induction false} KeyLtTransitive(a: Key, b: Key, c: Key)
    requires KeyLt(a, b) && KeyLt(b, c)
    ensures KeyLt(a, c)
  {
    if a != [] {
      if a[0] == b[0] && b[0] == c[0] {
        KeyLtTransitive(a[1..], b[1..], c[1..]);
      } else if a[0] == b[0] {
        assert PartLt(b[0], c[0]);
      } else if b[0] == c[0] {
        assert PartLt(a[0], b[0]);
      } else {
        PartLtTransitive(a[0], b[0], c[0]);
        if a[0] == c[0] { PartLtIrreflexive(a[0]); }
      }
    }
  }

  /** `KeyLe` is a total preorder (in fact a total order on keys). */
  lemma KeyLeTotal(a: Key, b: Key)
    ensures KeyLe(a, b) || KeyLe(b, a)
  {
    if KeyLt(a, b) && KeyLt(b, a) { KeyLtTransitive(a, b, a); KeyLtIrreflexive(a); }
  }

  lemma KeyLeTransitive(a: Key, b: Key, c: Key)
    requires KeyLe(a, b) && KeyLe(b, c)
    ensures KeyLe(a, c)
  {
    if KeyLt(c, a) {
      KeyLtTotal(a, b);
      if KeyLt(a, b) { KeyLtTransitive(c, a, b); }
    }
  }

  lemma KeyLeAntisymmetric(a: Key, b: Key)
    requires KeyLe(a, b) && KeyLe(b, a)
    ensures a == b
  {
    KeyLtTotal(a, b);
  }

  lemma KeyLeReflexive(a: Key)
    ensures KeyLe(a, a)
  {
    KeyLtIrreflexive(a);
  }

  ghost predicate SortedBy<T>(s: seq<T>, key: T -> Key)
  {
    forall i, j :: 0 <= i < j < |s| ==> KeyLe(key(s[i]), key(s[j]))
  }

  /** The elements of `s` whose key is `k`, in their order in `s`. */
  function WithKey<T>(s: seq<T>, key: T -> Key, k: Key): (r: seq<T>)
    ensures |r| <= |s|
  {
    if s == [] then [] else (if key(s[0]) == k then [s[0]] else []) + WithKey(s[1..], key, k)
  }

  lemma {:induction false} WithKeyAppend<T>(a: seq<T>, b: seq<T>, key: T -> Key, k: Key)
    ensures WithKey(a + b, key, k) == WithKey(a, key, k) + WithKey(b, key, k)
  {
    if a != [] {
      assert (a + b)[1..] == a[1..] + b;
      WithKeyAppend(a[1..], b, key, k);
    } else {
      assert a + b == b;
    }
  }

  lemma {:induction false} WithKeyNone<T>(s: seq<T>, key: T -> Key, k: Key)
    requires forall i :: 0 <= i < |s| ==> key(s[i]) != k
    ensures WithKey(s, key, k) == []
  {
    if s != [] { WithKeyNone(s[1..], key, k); }
  }

  /** Inserts `x` after every element whose key is at most `key(x)`. */
  function InsertBy<T>(x: T, s: seq<T>, key: T -> Key): (r: seq<T>)
    requires SortedBy(s, key)
    ensures SortedBy(r, key)
    ensures multiset(r) == multiset(s) + multiset{x}
    ensures forall k :: WithKey(r, key, k) == WithKey(s, key, k) + (if key(x) == k then [x] else [])
  {
    if s == [] then [x]
    else if KeyLe(key(s[0]), key(x)) then
      var rest := InsertBy(x, s[1..], key);
      ConsSorted(s, x, rest, key);
      ConsWithKey(s, x, rest, key);
      assert s == [s[0]] + s[1..];
      [s[0]] + rest
    else
      FrontSorted(x, s, key);
      FrontWithKey(x, s, key);
      [x] + s
  }

  lemma ConsSorted<T>(s: seq<T>, x: T, rest: seq<T>, key: T -> Key)
    requires s != [] && SortedBy(s, key) && KeyLe(key(s[0]), key(x))
    requires SortedBy(rest, key) && multiset(rest) == multiset(s[1..]) + multiset{x}
    ensures SortedBy([s[0]] + rest, key)
  {
    var r := [s[0]] + rest;
    forall j | 0 < j < |r| ensures KeyLe(key(r[0]), key(r[j])) {
      assert r[j] == rest[j - 1];
      assert r[j] in multiset(rest);
      if r[j] != x {
        assert r[j] in multiset(s[1..]);
        var m :| 0 <= m < |s[1..]| && s[1..][m] == r[j];
        assert s[m + 1] == r[j];
      }
    }
    forall i, j | 0 <= i < j < |r| ensures KeyLe(key(r[i]), key(r[j])) {
      if i > 0 { assert r[i] == rest[i - 1] && r[j] == rest[j - 1]; }
    }
  }

  lemma ConsWithKey<T>(s: seq<T>, x: T, rest: seq<T>, key: T -> Key)
    requires s != []
    requires forall k :: WithKey(rest, key, k) == WithKey(s[1..], key, k) + (if key(x) == k then [x] else [])
    ensures forall k :: WithKey([s[0]] + rest, key, k) == WithKey(s, key, k) + (if key(x) == k then [x] else [])
  {
    var r := [s[0]] + rest;
    assert r[0] == s[0] && r[1..] == rest;
    forall k ensures WithKey(r, key, k) == WithKey(s, key, k) + (if key(x) == k then [x] else []) {
      var h := if key(s[0]) == k then [s[0]] else [];
      var e := if key(x) == k then [x] else [];
      calc {
        WithKey(r, key, k);
        h + WithKey(rest, key, k);
        h + (WithKey(s[1..], key, k) + e);
        (h + WithKey(s[1..], key, k)) + e;
        WithKey(s, key, k) + e;
      }
    }
  }

  lemma FrontSorted<T>(x: T, s: seq<T>, key: T -> Key)
    requires s != [] && SortedBy(s, key) && !KeyLe(key(s[0]), key(x))
    ensures SortedBy([x] + s, key)
  {
    var r := [x] + s;
    KeyLeTotal(key(s[0]), key(x));
    forall j | 0 < j < |r| ensures KeyLe(key(x), key(r[j])) {
      assert r[j] == s[j - 1];
      if j > 1 { KeyLeTransitive(key(x), key(s[0]), key(s[j - 1])); }
    }
    forall i, j | 0 <= i < j < |r| ensures KeyLe(key(r[i]), key(r[j])) {
      if i > 0 { assert r[i] == s[i - 1] && r[j] == s[j - 1]; }
    }
  }

  lemma FrontWithKey<T>(x: T, s: seq<T>, key: T -> Key)
    requires s != [] && SortedBy(s, key) && !KeyLe(key(s[0]), key(x))
    ensures forall k :: WithKey([x] + s, key, k) == WithKey(s, key, k) + (if key(x) == k then [x] else [])
  {
    var r := [x] + s;
    assert r[1..] == s;
    forall i | 0 <= i < |s| ensures key(s[i]) != key(x) {
      if i == 0 { KeyLeReflexive(key(s[0])); }
      assert KeyLe(key(s[0]), key(s[i]));
    }
    WithKeyNone(s, key, key(x));
  }

  /** `sorted(s, key=key)`: Python's sort is stable, so the result is the
      insertion sort that keeps equal keys in their original order. */
  function SortBy<T>(s: seq<T>, key: T -> Key): (r: seq<T>)
    ensures SortedBy(r, key)
    ensures multiset(r) == multiset(s)
    ensures |r| == |s|
    ensures forall k :: WithKey(r, key, k) == WithKey(s, key, k)
  {
    if s == [] then []
    else
      var init := s[..|s| - 1];
      var r := InsertBy(s[|s| - 1], SortBy(init, key), key);
      assert s == init + [s[|s| - 1]];
      forall k ensures WithKey(r, key, k) == WithKey(s, key, k) {
        WithKeyAppend(init, [s[|s| - 1]], key, k);
      }
      assert |r| == |multiset(r)|;
      r
  }

  /** The position of the first element of `s` with key `k`. */
  lemma {:induction false} WithKeyHead<T>(s: seq<T>, key: T -> Key, k: Key) returns (i: nat)
    requires WithKey(s, key, k) != []
    ensures i < |s| && s[i] == WithKey(s, key, k)[0] && key(s[i]) == k
    ensures forall j :: 0 <= j < i ==> key(s[j]) != k
  {
    if key(s[0]) == k {
      i := 0;
    } else {
      var tail := s[1..];
      assert WithKey(s, key, k) == WithKey(tail, key, k);
      var m := WithKeyHead(tail, key, k);
      i := m + 1;
      assert s[i] == tail[m];
      forall j | 0 <= j < i ensures key(s[j]) != k {
        if j > 0 { assert s[j] == tail[j - 1]; }
      }
    }
  }

  /** The head of a stable sort has the least key, and among the elements with
      that key it is the earliest in the input. */
  lemma SortHead<T>(s: seq<T>, key: T -> Key)
    requires s != []
    ensures var h := SortBy(s, key)[0];
      && (forall j :: 0 <= j < |s| ==> KeyLe(key(h), key(s[j])))
      && exists i :: 0 <= i < |s| && s[i] == h
                     && forall j :: 0 <= j < i ==> KeyLt(key(h), key(s[j]))
  {
    var i := StableHead(SortBy(s, key), s, key);
  }

  /** The same for any sorted arrangement that keeps the order among equal
      keys. */
  lemma StableHead<T>(r: seq<T>, s: seq<T>, key: T -> Key) returns (i: nat)
    requires r != [] && SortedBy(r, key) && multiset(r) == multiset(s)
    requires forall k :: WithKey(r, key, k) == WithKey(s, key, k)
    ensures forall j :: 0 <= j < |s| ==> KeyLe(key(r[0]), key(s[j]))
    ensures i < |s| && s[i] == r[0]
    ensures forall j :: 0 <= j < i ==> KeyLt(key(r[0]), key(s[j]))
  {
    var h := r[0];
    var k := key(h);
    SortedHeadLeast(r, s, key);
    assert WithKey(r, key, k) == [h] + WithKey(r[1..], key, k);
    i := WithKeyHead(s, key, k);
    forall j | 0 <= j < i ensures KeyLt(k, key(s[j])) {
      KeyLtTotal(k, key(s[j]));
    }
  }

  lemma SortedHeadLeast<T>(r: seq<T>, s: seq<T>, key: T -> Key)
    requires r != [] && SortedBy(r, key) && multiset(r) == multiset(s)
    ensures forall j :: 0 <= j < |s| ==> KeyLe(key(r[0]), key(s[j]))
  {
    forall j | 0 <= j < |s| ensures KeyLe(key(r[0]), key(s[j])) {
      assert s[j] in multiset(r);
      var m :| 0 <= m < |r| && r[m] == s[j];
      if m == 0 { KeyLeReflexive(key(r[0])); }
    }
  }
}
