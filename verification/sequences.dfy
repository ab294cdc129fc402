/** Generic sequence operations shared by the services: the stream `filter`,
    the stream `findFirst` and the stable stream `sorted` by an integer key. */
module Sequences {

  /** The elements of `s` that satisfy `p`, in their original order. */
  function Filter<T>(s: seq<T>, p: T -> bool): seq<T>
  {
    if s == [] then [] else (if p(s[0]) then [s[0]] else []) + Filter(s[1..], p)
  }

  lemma {:induction false} FilterMembers<T>(s: seq<T>, p: T -> bool)
    ensures |Filter(s, p)| <= |s|
    ensures forall x :: x in Filter(s, p) <==> x in s && p(x)
  {
    if s != [] {
      FilterMembers(s[1..], p);
      assert s == [s[0]] + s[1..];
    }
  }

  lemma {:induction false} FilterNone<T>(s: seq<T>, p: T -> bool)
    requires forall i :: 0 <= i < |s| ==> !p(s[i])
    ensures Filter(s, p) == []
  {
    if s != [] {
      FilterNone(s[1..], p);
    }
  }

  lemma {:induction false} FilterAppend<T>(s: seq<T>, t: seq<T>, p: T -> bool)
    ensures Filter(s + t, p) == Filter(s, p) + Filter(t, p)
  {
    if s != [] {
      FilterAppend(s[1..], t, p);
      assert (s + t)[1..] == s[1..] + t;
    } else {
      assert s + t == t;
    }
  }

  /** The index of the first element that satisfies `p`, or -1 when there is none. */
  function IndexWhere<T>(s: seq<T>, p: T -> bool): (i: int)
    ensures -1 <= i < |s|
    ensures 0 <= i ==> p(s[i]) && forall j :: 0 <= j < i ==> !p(s[j])
    ensures i == -1 ==> forall j :: 0 <= j < |s| ==> !p(s[j])
  {
    if s == [] then -1
    else if p(s[0]) then 0
    else
      var k := IndexWhere(s[1..], p);
      if k == -1 then -1 else k + 1
  }

  predicate SortedBy<T>(s: seq<T>, key: T -> int)
  {
    forall i, j :: 0 <= i < j < |s| ==> key(s[i]) <= key(s[j])
  }

  /** Inserts `x` before the first element whose key is not smaller, so that `x`
      stays ahead of the elements with an equal key. */
  function Insert<T>(x: T, s: seq<T>, key: T -> int): seq<T>
  {
    if s == [] || key(x) <= key(s[0]) then [x] + s
    else [s[0]] + Insert(x, s[1..], key)
  }

  /** Stable sort by ascending key (insertion sort). */
  function SortBy<T>(s: seq<T>, key: T -> int): seq<T>
  {
    if s == [] then [] else Insert(s[0], SortBy(s[1..], key), key)
  }

  /** The elements whose key is `k`, in order: what a stable sort must not reorder. */
  function WithKey<T>(s: seq<T>, key: T -> int, k: int): seq<T>
  {
    if s == [] then [] else (if key(s[0]) == k then [s[0]] else []) + WithKey(s[1..], key, k)
  }

  lemma {:induction false} InsertCount<T>(x: T, s: seq<T>, key: T -> int)
    ensures multiset(Insert(x, s, key)) == multiset{x} + multiset(s)
    ensures |Insert(x, s, key)| == |s| + 1
  {
    if s == [] || key(x) <= key(s[0]) {
    } else {
      InsertCount(x, s[1..], key);
      assert s == [s[0]] + s[1..];
    }
  }

  /** Every element has a key of at least `b`. */
  predicate AllAtLeast<T>(s: seq<T>, key: T -> int, b: int)
  {
    forall i :: 0 <= i < |s| ==> b <= key(s[i])
  }

  lemma {:induction false} InsertAtLeast<T>(x: T, s: seq<T>, key: T -> int, b: int)
    requires AllAtLeast(s, key, b) && b <= key(x)
    ensures AllAtLeast(Insert(x, s, key), key, b)
  {
    if s != [] && key(s[0]) < key(x) {
      InsertAtLeast(x, s[1..], key, b);
      var r := Insert(x, s[1..], key);
      forall i | 0 <= i < |[s[0]] + r| ensures b <= key(([s[0]] + r)[i]) {
        if i > 0 { assert ([s[0]] + r)[i] == r[i - 1]; }
      }
    }
  }

  lemma {:induction false} InsertSorted<T>(x: T, s: seq<T>, key: T -> int)
    requires SortedBy(s, key)
    ensures SortedBy(Insert(x, s, key), key)
  {
    if s != [] && key(s[0]) < key(x) {
      var r := Insert(x, s[1..], key);
      assert SortedBy(s[1..], key);
      InsertSorted(x, s[1..], key);
      assert AllAtLeast(s[1..], key, key(s[0]));
      InsertAtLeast(x, s[1..], key, key(s[0]));
      var t := [s[0]] + r;
      forall i, j | 0 <= i < j < |t| ensures key(t[i]) <= key(t[j]) {
        assert t[j] == r[j - 1];
        if i > 0 {
          assert t[i] == r[i - 1];
        }
      }
    }
  }

  lemma {:induction false} SortByFacts<T>(s: seq<T>, key: T -> int)
    ensures SortedBy(SortBy(s, key), key)
    ensures multiset(SortBy(s, key)) == multiset(s)
    ensures |SortBy(s, key)| == |s|
  {
    if s != [] {
      var rest := SortBy(s[1..], key);
      SortByFacts(s[1..], key);
      InsertCount(s[0], rest, key);
      InsertSorted(s[0], rest, key);
      assert multiset(s) == multiset{s[0]} + multiset(s[1..]) by {
        assert s == [s[0]] + s[1..];
      }
    }
  }

  lemma {:induction false} InsertWithKey<T>(x: T, s: seq<T>, key: T -> int, k: int)
    ensures WithKey(Insert(x, s, key), key, k)
         == (if key(x) == k then [x] else []) + WithKey(s, key, k)
  {
    var hx := if key(x) == k then [x] else [];
    if s == [] || key(x) <= key(s[0]) {
      var r := [x] + s;
      assert r[0] == x && r[1..] == s;
    } else {
      var i := Insert(x, s[1..], key);
      var r := [s[0]] + i;
      assert r[0] == s[0] && r[1..] == i;
      var h0 := if key(s[0]) == k then [s[0]] else [];
      assert WithKey(r, key, k) == h0 + WithKey(i, key, k);
      InsertWithKey(x, s[1..], key, k);
      assert WithKey(s, key, k) == h0 + WithKey(s[1..], key, k);
      assert h0 == [] || hx == [];
      if h0 == [] {
        assert WithKey(r, key, k) == hx + WithKey(s[1..], key, k);
      } else {
        assert WithKey(r, key, k) == h0 + WithKey(s[1..], key, k);
      }
    }
  }

  /** Stability: sorting keeps the relative order of the elements of every key. */
  lemma {:induction false} SortByStable<T>(s: seq<T>, key: T -> int, k: int)
    ensures WithKey(SortBy(s, key), key, k) == WithKey(s, key, k)
  {
    if s != [] {
      SortByStable(s[1..], key, k);
      InsertWithKey(s[0], SortBy(s[1..], key), key, k);
    }
  }
}
