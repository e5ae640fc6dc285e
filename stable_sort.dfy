/** `Array.prototype.sort` with a comparator `(a, b) => key(b) - key(a)`:
    descending by an integer key, and stable, so elements with equal keys
    keep their relative order. The specification is insertion sort on
    sequences; `SortInPlace` is the in-place version on an array. */
module StableSort {

  predicate SortedDesc<T>(s: seq<T>, key: T -> int) {
    forall i, j :: 0 <= i < j < |s| ==> key(s[i]) >= key(s[j])
  }

  /** The elements of `s` whose key is `v`, in their order in `s`. */
  function WithKey<T>(s: seq<T>, key: T -> int, v: int): seq<T> {
    if s == [] then []
    else (if key(s[0]) == v then [s[0]] else []) + WithKey(s[1..], key, v)
  }

  /** Where `x` goes in `s`: after every trailing element whose key is
      smaller than `x`'s has been passed, scanning from the back. */
  function InsertPos<T>(s: seq<T>, x: T, key: T -> int): (p: nat)
    ensures p <= |s|
    ensures forall k :: p <= k < |s| ==> key(s[k]) < key(x)
    ensures p > 0 ==> key(s[p - 1]) >= key(x)
  {
    if s == [] || key(s[|s| - 1]) >= key(x) then |s| else InsertPos(s[..|s| - 1], x, key)
  }

  function Insert<T>(s: seq<T>, x: T, key: T -> int): seq<T> {
    var p := InsertPos(s, x, key);
    s[..p] + [x] + s[p..]
  }

  /** Insertion sort: each element in turn inserted after every element
      already placed whose key is at least its own. */
  function SortDesc<T>(s: seq<T>, key: T -> int): seq<T> {
    if s == [] then [] else Insert(SortDesc(s[..|s| - 1], key), s[|s| - 1], key)
  }

  lemma {:induction false} WithKeyConcat<T>(a: seq<T>, b: seq<T>, key: T -> int, v: int)
    ensures WithKey(a + b, key, v) == WithKey(a, key, v) + WithKey(b, key, v)
  {
    if a == [] {
      assert a + b == b;
    } else {
      assert (a + b)[0] == a[0];
      assert (a + b)[1..] == a[1..] + b;
      WithKeyConcat(a[1..], b, key, v);
      var head := if key(a[0]) == v then [a[0]] else [];
      calc {
        WithKey(a + b, key, v);
        head + WithKey(a[1..] + b, key, v);
        head + (WithKey(a[1..], key, v) + WithKey(b, key, v));
        (head + WithKey(a[1..], key, v)) + WithKey(b, key, v);
      }
    }
  }

  lemma {:induction false} WithKeyNone<T>(s: seq<T>, key: T -> int, v: int)
    requires forall k :: 0 <= k < |s| ==> key(s[k]) != v
    ensures WithKey(s, key, v) == []
  {
    if s != [] { WithKeyNone(s[1..], key, v); }
  }

  lemma InsertSorted<T>(s: seq<T>, x: T, key: T -> int)
    requires SortedDesc(s, key)
    ensures SortedDesc(Insert(s, x, key), key)
  {
    var p := InsertPos(s, x, key);
    var r := Insert(s, x, key);
    forall i, j | 0 <= i < j < |r| ensures key(r[i]) >= key(r[j]) {
      if j == p {
        assert r[i] == s[i] && key(s[i]) >= key(s[p - 1]);
      } else if i == p {
        assert r[j] == s[j - 1] && key(s[j - 1]) < key(x);
      } else if i < p < j {
        assert r[i] == s[i] && r[j] == s[j - 1];
      }
    }
  }

  lemma InsertPermutes<T>(s: seq<T>, x: T, key: T -> int)
    ensures multiset(Insert(s, x, key)) == multiset(s) + multiset{x}
  {
    var p := InsertPos(s, x, key);
    assert s == s[..p] + s[p..];
  }

  lemma InsertWithKey<T>(s: seq<T>, x: T, key: T -> int, v: int)
    ensures WithKey(Insert(s, x, key), key, v) ==
      WithKey(s, key, v) + (if key(x) == v then [x] else [])
  {
    var p := InsertPos(s, x, key);
    assert s == s[..p] + s[p..];
    WithKeyConcat(s[..p] + [x], s[p..], key, v);
    WithKeyConcat(s[..p], [x], key, v);
    WithKeyConcat(s[..p], s[p..], key, v);
    assert WithKey([x], key, v) == if key(x) == v then [x] else [];
    if key(x) == v {
      WithKeyNone(s[p..], key, v);
    }
  }

  /** The result is ordered by descending key. */
  lemma {:induction false} SortDescSorted<T>(s: seq<T>, key: T -> int)
    ensures SortedDesc(SortDesc(s, key), key)
  {
    if s != [] {
      SortDescSorted(s[..|s| - 1], key);
      InsertSorted(SortDesc(s[..|s| - 1], key), s[|s| - 1], key);
    }
  }

  /** The result is a permutation of the input. */
  lemma {:induction false} SortDescPermutes<T>(s: seq<T>, key: T -> int)
    ensures multiset(SortDesc(s, key)) == multiset(s)
  {
    if s != [] {
      var init := s[..|s| - 1];
      SortDescPermutes(init, key);
      InsertPermutes(SortDesc(init, key), s[|s| - 1], key);
      assert s == init + [s[|s| - 1]];
    }
  }

  /** Stability: for every key value, the elements carrying it appear in the
      result in exactly their input order. */
  lemma {:induction false} SortDescStable<T>(s: seq<T>, key: T -> int, v: int)
    ensures WithKey(SortDesc(s, key), key, v) == WithKey(s, key, v)
  {
    if s != [] {
      var init, last := s[..|s| - 1], s[|s| - 1];
      SortDescStable(init, key, v);
      InsertWithKey(SortDesc(init, key), last, key, v);
      assert s == init + [last];
      WithKeyConcat(init, [last], key, v);
      assert WithKey([last], key, v) == if key(last) == v then [last] else [];
    }
  }

  lemma SortDescLength<T>(s: seq<T>, key: T -> int)
    ensures |SortDesc(s, key)| == |s|
  {
    SortDescPermutes(s, key);
    assert |multiset(SortDesc(s, key))| == |multiset(s)|;
  }

  /** The insertion point is the one just after the last element whose key
      is at least `x`'s, when everything after it has a smaller key. */
  lemma {:induction false} InsertPosAt<T>(s: seq<T>, x: T, key: T -> int, j: nat)
    requires j <= |s|
    requires forall k :: j <= k < |s| ==> key(s[k]) < key(x)
    requires j > 0 ==> key(s[j - 1]) >= key(x)
    ensures InsertPos(s, x, key) == j
  {
    if j < |s| {
      InsertPosAt(s[..|s| - 1], x, key, j);
    }
  }

  /** Moves `a[i]` left past the elements before it with a smaller key:
      one step of an insertion sort. */
  method InsertAt<T>(a: array<T>, i: nat, key: T -> int)
    requires i < a.Length
    modifies a
    ensures a[..i + 1] == Insert(old(a[..i]), old(a[i]), key)
    ensures a[i + 1..] == old(a[i + 1..])
  {
    ghost var s := a[..i];
    var x := a[i];
    var j := i;
    while j > 0 && key(a[j - 1]) < key(x)
      invariant 0 <= j <= i
      invariant forall k :: 0 <= k < j ==> a[k] == s[k]
      invariant forall k :: j < k <= i ==> a[k] == s[k - 1]
      invariant forall k :: i < k < a.Length ==> a[k] == old(a[k])
      invariant forall k :: j <= k < i ==> key(s[k]) < key(x)
    {
      a[j] := a[j - 1];
      j := j - 1;
    }
    a[j] := x;
    InsertPosAt(s, x, key, j);
    assert a[..i + 1] == s[..j] + [x] + s[j..];
  }

  /** Sorting an array in place, an insertion sort. */
  method SortInPlace<T>(a: array<T>, key: T -> int)
    modifies a
    ensures a[..] == SortDesc(old(a[..]), key)
  {
    ghost var orig := a[..];
    for i := 0 to a.Length
      invariant a[..i] == SortDesc(orig[..i], key)
      invariant a[i..] == orig[i..]
    {
      InsertAt(a, i, key);
      assert orig[..i + 1][..i] == orig[..i];
    }
    assert orig[..a.Length] == orig;
  }
}
