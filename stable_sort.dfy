/**
 * Python's `list.sort(key=k, reverse=True)` and `sorted(xs, key=k, reverse=True)`:
 * a stable sort into non-increasing key order. Elements with equal keys keep
 * the order they had in the input.
 */
module StableSort {

  predicate NonIncreasing<T>(s: seq<T>, key: T -> real) {
    forall i, j :: 0 <= i < j < |s| ==> key(s[i]) >= key(s[j])
  }

  /** Puts `x` just before the first element whose key is strictly smaller. */
  function Insert<T>(s: seq<T>, x: T, key: T -> real): (r: seq<T>)
    ensures |r| == |s| + 1
  {
    if s == [] then [x]
    else if key(s[0]) < key(x) then [x] + s
    else [s[0]] + Insert(s[1..], x, key)
  }

  /** Inserts the input's elements, first to last, into an initially empty list. */
  function SortDesc<T>(s: seq<T>, key: T -> real): (r: seq<T>)
    ensures |r| == |s|
  {
    if s == [] then [] else Insert(SortDesc(s[..|s| - 1], key), s[|s| - 1], key)
  }

  /** The elements of `s` whose key is `v`, in their order in `s`. */
  function WithKey<T>(s: seq<T>, key: T -> real, v: real): seq<T> {
    if s == [] then [] else (if key(s[0]) == v then [s[0]] else []) + WithKey(s[1..], key, v)
  }

  lemma {:induction false} WithKeyAppend<T>(a: seq<T>, b: seq<T>, key: T -> real, v: real)
    ensures WithKey(a + b, key, v) == WithKey(a, key, v) + WithKey(b, key, v)
  {
    if a == [] {
      assert a + b == b;
    } else {
      var head := if key(a[0]) == v then [a[0]] else [];
      assert (a + b)[0] == a[0] && (a + b)[1..] == a[1..] + b;
      assert WithKey(a + b, key, v) == head + WithKey(a[1..] + b, key, v);
      WithKeyAppend(a[1..], b, key, v);
      assert WithKey(a, key, v) == head + WithKey(a[1..], key, v);
    }
  }

  lemma {:induction false} WithKeyNone<T>(s: seq<T>, key: T -> real, v: real)
    requires forall i :: 0 <= i < |s| ==> key(s[i]) != v
    ensures WithKey(s, key, v) == []
  {
    if s != [] {
      WithKeyNone(s[1..], key, v);
    }
  }

  lemma {:induction false} InsertMembers<T>(s: seq<T>, x: T, key: T -> real)
    ensures multiset(Insert(s, x, key)) == multiset(s) + multiset{x}
  {
    if s != [] && key(s[0]) >= key(x) {
      InsertMembers(s[1..], x, key);
      assert s == [s[0]] + s[1..];
    }
  }

  lemma {:induction false} InsertNonIncreasing<T>(s: seq<T>, x: T, key: T -> real)
    requires NonIncreasing(s, key)
    ensures NonIncreasing(Insert(s, x, key), key)
  {
    if s != [] && key(s[0]) >= key(x) {
      var r, rest := Insert(s, x, key), Insert(s[1..], x, key);
      InsertNonIncreasing(s[1..], x, key);
      InsertMembers(s[1..], x, key);
      assert r[0] == s[0] && r[1..] == rest;
      forall j | 0 < j < |r| ensures key(r[0]) >= key(r[j]) {
        assert r[j] == rest[j - 1] && r[j] in multiset(rest);
        if r[j] != x {
          assert r[j] in s[1..];
          var k :| 0 <= k < |s[1..]| && s[1..][k] == r[j];
          assert s[k + 1] == r[j];
        }
      }
    }
  }

  lemma {:induction false} InsertWithKey<T>(s: seq<T>, x: T, key: T -> real, v: real)
    requires NonIncreasing(s, key)
    ensures WithKey(Insert(s, x, key), key, v) == WithKey(s, key, v) + (if key(x) == v then [x] else [])
  {
    var r := Insert(s, x, key);
    if s == [] {
      assert r[1..] == [];
    } else if key(s[0]) < key(x) {
      assert r[0] == x && r[1..] == s;
      if key(x) == v {
        WithKeyNone(s, key, v);
      }
    } else {
      var rest := Insert(s[1..], x, key);
      assert NonIncreasing(s[1..], key) by {
        forall i, j | 0 <= i < j < |s| - 1 ensures key(s[1..][i]) >= key(s[1..][j]) {
          assert s[1..][i] == s[i + 1] && s[1..][j] == s[j + 1];
        }
      }
      InsertWithKey(s[1..], x, key, v);
      assert r[0] == s[0] && r[1..] == rest;
      assert WithKey(r, key, v) == (if key(s[0]) == v then [s[0]] else []) + WithKey(rest, key, v);
      assert WithKey(s, key, v) == (if key(s[0]) == v then [s[0]] else []) + WithKey(s[1..], key, v);
    }
  }

  /** The result is sorted, a permutation of the input, and stable. */
  lemma {:induction false} SortDescFacts<T>(s: seq<T>, key: T -> real)
    ensures NonIncreasing(SortDesc(s, key), key)
    ensures multiset(SortDesc(s, key)) == multiset(s)
    ensures forall v :: WithKey(SortDesc(s, key), key, v) == WithKey(s, key, v)
  {
    if s != [] {
      var init, last := s[..|s| - 1], s[|s| - 1];
      SortDescFacts(init, key);
      InsertNonIncreasing(SortDesc(init, key), last, key);
      InsertMembers(SortDesc(init, key), last, key);
      assert s == init + [last];
      forall v ensures WithKey(SortDesc(s, key), key, v) == WithKey(s, key, v) {
        InsertWithKey(SortDesc(init, key), last, key, v);
        WithKeyAppend(init, [last], key, v);
      }
    }
  }

  /** Every element of the sorted list comes from the input. */
  lemma SortDescMembers<T>(s: seq<T>, key: T -> real)
    ensures forall i :: 0 <= i < |SortDesc(s, key)| ==> exists k :: 0 <= k < |s| && s[k] == SortDesc(s, key)[i]
  {
    SortDescFacts(s, key);
    var r := SortDesc(s, key);
    forall i | 0 <= i < |r| ensures exists k :: 0 <= k < |s| && s[k] == r[i] {
      assert r[i] in multiset(r);
      assert r[i] in s;
    }
  }

  /** `s[k]` is a largest element and every element before it is strictly smaller. */
  predicate IsFirstMax<T>(s: seq<T>, key: T -> real, k: int) {
    && 0 <= k < |s|
    && (forall j :: 0 <= j < |s| ==> key(s[j]) <= key(s[k]))
    && (forall j :: 0 <= j < k ==> key(s[j]) < key(s[k]))
  }

  /** `sorted(s, key=key, reverse=True)[0]` is the first element of maximal key. */
  lemma {:induction false} SortDescHead<T>(s: seq<T>, key: T -> real)
    requires s != []
    ensures exists k :: IsFirstMax(s, key, k) && SortDesc(s, key)[0] == s[k]
  {
    var init, last := s[..|s| - 1], s[|s| - 1];
    if init == [] {
      assert IsFirstMax(s, key, 0);
    } else {
      SortDescHead(init, key);
      var k0 :| IsFirstMax(init, key, k0) && SortDesc(init, key)[0] == init[k0];
      if key(init[k0]) < key(last) {
        assert IsFirstMax(s, key, |s| - 1);
      } else {
        assert IsFirstMax(s, key, k0);
      }
    }
  }

  /** Distinct images under `f` stay distinct after sorting. */
  lemma {:induction false} SortDescKeepsDistinct<T, U>(s: seq<T>, key: T -> real, f: T -> U)
    requires forall i, j :: 0 <= i < j < |s| ==> f(s[i]) != f(s[j])
    ensures forall i, j :: 0 <= i < j < |SortDesc(s, key)| ==> f(SortDesc(s, key)[i]) != f(SortDesc(s, key)[j])
  {
    if s != [] {
      var init, last := s[..|s| - 1], s[|s| - 1];
      SortDescKeepsDistinct(init, key, f);
      SortDescFacts(init, key);
      var sorted := SortDesc(init, key);
      forall i | 0 <= i < |sorted| ensures f(sorted[i]) != f(last) {
        assert sorted[i] in multiset(sorted);
        assert sorted[i] in init;
        var k :| 0 <= k < |init| && init[k] == sorted[i];
        assert s[k] == sorted[i];
      }
      InsertKeepsDistinct(sorted, last, key, f);
    }
  }

  lemma {:induction false} InsertKeepsDistinct<T, U>(s: seq<T>, x: T, key: T -> real, f: T -> U)
    requires forall i, j :: 0 <= i < j < |s| ==> f(s[i]) != f(s[j])
    requires forall i :: 0 <= i < |s| ==> f(s[i]) != f(x)
    ensures forall i, j :: 0 <= i < j < |Insert(s, x, key)| ==> f(Insert(s, x, key)[i]) != f(Insert(s, x, key)[j])
  {
    if s != [] && key(s[0]) >= key(x) {
      InsertKeepsDistinct(s[1..], x, key, f);
      InsertMembers(s[1..], x, key);
      var r, rest := Insert(s, x, key), Insert(s[1..], x, key);
      assert r[1..] == rest;
      forall j | 0 < j < |r| ensures f(r[0]) != f(r[j]) {
        assert r[j] == rest[j - 1] && r[j] in multiset(rest);
        if r[j] != x {
          assert r[j] in s[1..];
          var k :| 0 <= k < |s[1..]| && s[1..][k] == r[j];
          assert s[k + 1] == r[j];
        }
      }
    }
  }

  /** Two lists that agree position by position (relation `R`, equal keys) still do after sorting. */
  predicate Corresponds<A, B>(xs: seq<A>, ys: seq<B>, kx: A -> real, ky: B -> real, R: (A, B) -> bool) {
    && |xs| == |ys|
    && forall i :: 0 <= i < |xs| ==> R(xs[i], ys[i]) && kx(xs[i]) == ky(ys[i])
  }

  lemma {:induction false} InsertCorresponds<A, B>(xs: seq<A>, ys: seq<B>, x: A, y: B,
                                                   kx: A -> real, ky: B -> real, R: (A, B) -> bool)
    requires Corresponds(xs, ys, kx, ky, R) && R(x, y) && kx(x) == ky(y)
    ensures Corresponds(Insert(xs, x, kx), Insert(ys, y, ky), kx, ky, R)
  {
    if xs == [] {
      assert Insert(xs, x, kx) == [x] && Insert(ys, y, ky) == [y];
    } else if kx(xs[0]) < kx(x) {
      assert ky(ys[0]) < ky(y);
      assert Insert(xs, x, kx) == [x] + xs && Insert(ys, y, ky) == [y] + ys;
    } else {
      assert ky(ys[0]) >= ky(y);
      assert Corresponds(xs[1..], ys[1..], kx, ky, R) by {
        forall i | 0 <= i < |xs| - 1 ensures R(xs[1..][i], ys[1..][i]) && kx(xs[1..][i]) == ky(ys[1..][i]) {
          assert xs[1..][i] == xs[i + 1] && ys[1..][i] == ys[i + 1];
        }
      }
      InsertCorresponds(xs[1..], ys[1..], x, y, kx, ky, R);
      var rx, ry := Insert(xs[1..], x, kx), Insert(ys[1..], y, ky);
      assert Insert(xs, x, kx) == [xs[0]] + rx && Insert(ys, y, ky) == [ys[0]] + ry;
    }
  }

  lemma {:induction false} SortCorresponds<A, B>(xs: seq<A>, ys: seq<B>,
                                                 kx: A -> real, ky: B -> real, R: (A, B) -> bool)
    requires Corresponds(xs, ys, kx, ky, R)
    ensures Corresponds(SortDesc(xs, kx), SortDesc(ys, ky), kx, ky, R)
  {
    if xs != [] {
      var n := |xs| - 1;
      SortCorresponds(xs[..n], ys[..n], kx, ky, R);
      InsertCorresponds(SortDesc(xs[..n], kx), SortDesc(ys[..n], ky), xs[n], ys[n], kx, ky, R);
    }
  }
}
