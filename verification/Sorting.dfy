/**
 Stable sorting by a total preorder, as `slice::sort_by_key` and `sort_by` provide it,
 and the order on strings that Rust's `String: Ord` gives (code point by code point).
 */
module Sorting {
  import opened Prelude

  ghost predicate TotalPreorder<T(!new)>(le: (T, T) -> bool) {
    && (forall x, y :: le(x, y) || le(y, x))
    && (forall x, y, z :: le(x, y) && le(y, z) ==> le(x, z))
  }

  ghost predicate Antisymmetric<T(!new)>(le: (T, T) -> bool) {
    forall x, y :: le(x, y) && le(y, x) ==> x == y
  }

  ghost predicate Sorted<T>(le: (T, T) -> bool, xs: seq<T>) {
    forall i, j :: 0 <= i < j < |xs| ==> le(xs[i], xs[j])
  }

  function Insert<T>(le: (T, T) -> bool, x: T, xs: seq<T>): (r: seq<T>)
    ensures multiset(r) == multiset{x} + multiset(xs)
  {
    if xs == [] then [x]
    else if le(x, xs[0]) then [x] + xs
    else
      assert xs == [xs[0]] + xs[1..];
      [xs[0]] + Insert(le, x, xs[1..])
  }

  function SortBy<T>(le: (T, T) -> bool, xs: seq<T>): (r: seq<T>)
    ensures multiset(r) == multiset(xs)
    ensures |r| == |xs|
    ensures (forall x :: x in r ==> x in xs) && (forall x :: x in xs ==> x in r)
  {
    if xs == [] then []
    else
      assert xs == [xs[0]] + xs[1..];
      var r := Insert(le, xs[0], SortBy(le, xs[1..]));
      SameElements(r, xs);
      r
  }

  lemma SameElements<T>(xs: seq<T>, ys: seq<T>)
    requires multiset(xs) == multiset(ys)
    ensures |xs| == |ys|
    ensures (forall x :: x in xs ==> x in ys) && (forall x :: x in ys ==> x in xs)
  {
    assert |multiset(xs)| == |multiset(ys)|;
    forall x ensures x in xs <==> x in ys {
      assert x in xs <==> x in multiset(xs);
      assert x in ys <==> x in multiset(ys);
    }
  }

  lemma {:induction false} InsertSorted<T(!new)>(le: (T, T) -> bool, x: T, xs: seq<T>)
    requires TotalPreorder(le) && Sorted(le, xs)
    ensures Sorted(le, Insert(le, x, xs))
  {
    if xs == [] {
    } else if le(x, xs[0]) {
      forall j | 0 <= j < |xs| ensures le(x, xs[j]) {
        assert j == 0 || le(xs[0], xs[j]);
      }
    } else {
      InsertSorted(le, x, xs[1..]);
      var r := Insert(le, x, xs[1..]);
      forall j | 0 <= j < |r| ensures le(xs[0], r[j]) {
        assert r[j] in multiset(r);
        if r[j] != x {
          assert r[j] in xs[1..];
        }
      }
    }
  }

  lemma {:induction false} SortBySorted<T(!new)>(le: (T, T) -> bool, xs: seq<T>)
    requires TotalPreorder(le)
    ensures Sorted(le, SortBy(le, xs))
  {
    if xs != [] {
      SortBySorted(le, xs[1..]);
      InsertSorted(le, xs[0], SortBy(le, xs[1..]));
    }
  }

  lemma {:induction false} InsertMap<T(!new)>(le: (T, T) -> bool, f: T -> T, x: T, xs: seq<T>)
    requires forall a, b :: le(f(a), f(b)) == le(a, b)
    ensures Insert(le, f(x), Map(f, xs)) == Map(f, Insert(le, x, xs))
  {
    if xs != [] {
      assert Map(f, xs)[1..] == Map(f, xs[1..]);
      if le(x, xs[0]) {
        MapAppend(f, [x], xs);
      } else {
        InsertMap(le, f, x, xs[1..]);
        MapAppend(f, [xs[0]], Insert(le, x, xs[1..]));
      }
    }
  }

  /** A change of the elements that the order does not see can be made before or after sorting. */
  lemma {:induction false} SortMap<T(!new)>(le: (T, T) -> bool, f: T -> T, xs: seq<T>)
    requires forall a, b :: le(f(a), f(b)) == le(a, b)
    ensures SortBy(le, Map(f, xs)) == Map(f, SortBy(le, xs))
  {
    if xs != [] {
      assert Map(f, xs)[1..] == Map(f, xs[1..]);
      SortMap(le, f, xs[1..]);
      InsertMap(le, f, xs[0], SortBy(le, xs[1..]));
    }
  }

  lemma MapHeadMultiset<T, U>(f: T -> U, xs: seq<T>)
    requires xs != []
    ensures multiset(Map(f, xs)) == multiset{f(xs[0])} + multiset(Map(f, xs[1..]))
  {
    assert Map(f, xs) == [f(xs[0])] + Map(f, xs[1..]);
  }

  lemma {:induction false} InsertMapMultiset<T, U>(le: (T, T) -> bool, f: T -> U, x: T, xs: seq<T>)
    ensures multiset(Map(f, Insert(le, x, xs))) == multiset{f(x)} + multiset(Map(f, xs))
  {
    var r := Insert(le, x, xs);
    MapHeadMultiset(f, r);
    if xs == [] || le(x, xs[0]) {
      assert r[1..] == xs;
    } else {
      InsertMapMultiset(le, f, x, xs[1..]);
      MapHeadMultiset(f, xs);
      assert r[1..] == Insert(le, x, xs[1..]);
    }
  }

  /** Sorting permutes any attribute of the elements as well. */
  lemma {:induction false} SortMapMultiset<T, U>(le: (T, T) -> bool, f: T -> U, xs: seq<T>)
    ensures multiset(Map(f, SortBy(le, xs))) == multiset(Map(f, xs))
  {
    if xs != [] {
      SortMapMultiset(le, f, xs[1..]);
      InsertMapMultiset(le, f, xs[0], SortBy(le, xs[1..]));
      MapHeadMultiset(f, xs);
    }
  }

  predicate StringLe(a: string, b: string) {
    if a == [] then true
    else if b == [] then false
    else if a[0] == b[0] then StringLe(a[1..], b[1..])
    else a[0] < b[0]
  }

  lemma {:induction false} StringLeTotal(a: string, b: string)
    ensures StringLe(a, b) || StringLe(b, a)
    ensures StringLe(a, b) && StringLe(b, a) ==> a == b
  {
    if a != [] && b != [] && a[0] == b[0] {
      StringLeTotal(a[1..], b[1..]);
      assert a == [a[0]] + a[1..] && b == [b[0]] + b[1..];
    }
  }

  lemma {:induction false} StringLeTransitive(a: string, b: string, c: string)
    requires StringLe(a, b) && StringLe(b, c)
    ensures StringLe(a, c)
  {
    if a != [] && b != [] && c != [] && a[0] == b[0] && b[0] == c[0] {
      StringLeTransitive(a[1..], b[1..], c[1..]);
    }
  }

  /** One string comes before another if it begins it, or has the smaller character where they first differ. */
  lemma {:induction false} StringLeIff(a: string, b: string)
    ensures StringLe(a, b) <==>
            || a <= b
            || exists i :: 0 <= i < |a| && i < |b| && a[..i] == b[..i] && a[i] < b[i]
  {
    if a != [] && b != [] && a[0] == b[0] {
      var x, y := a[1..], b[1..];
      StringLeIff(x, y);
      assert a <= b <==> x <= y;
      if i :| 0 <= i < |x| && i < |y| && x[..i] == y[..i] && x[i] < y[i] {
        assert a[..i + 1] == [a[0]] + x[..i] && b[..i + 1] == [b[0]] + y[..i] && a[i + 1] < b[i + 1];
      }
      if i :| 0 <= i < |a| && i < |b| && a[..i] == b[..i] && a[i] < b[i] {
        assert i > 0 && x[..i - 1] == a[..i][1..] && y[..i - 1] == b[..i][1..] && x[i - 1] < y[i - 1];
      }
    } else if a != [] && b != [] {
      assert a[..0] == b[..0];
      assert forall i :: 1 <= i <= |a| && i <= |b| ==> a[..i][0] == a[0] && b[..i][0] == b[0];
    }
  }

  /** Sorting keeps the order of elements that the order does not tell apart. */
  lemma {:induction false} SortStable<T(!new)>(le: (T, T) -> bool, xs: seq<T>, same: T -> bool)
    requires TotalPreorder(le) && forall x, y :: same(x) && same(y) ==> le(x, y)
    requires forall x, y :: same(x) && le(x, y) && le(y, x) ==> same(y)
    ensures Filter(same, SortBy(le, xs)) == Filter(same, xs)
  {
    if xs != [] {
      SortStable(le, xs[1..], same);
      SortBySorted(le, xs[1..]);
      InsertStable(le, xs[0], SortBy(le, xs[1..]), same);
    }
  }

  lemma {:induction false} InsertStable<T(!new)>(le: (T, T) -> bool, x: T, xs: seq<T>, same: T -> bool)
    requires TotalPreorder(le) && Sorted(le, xs) && forall a, b :: same(a) && same(b) ==> le(a, b)
    requires forall a, b :: same(a) && le(a, b) && le(b, a) ==> same(b)
    ensures Filter(same, Insert(le, x, xs)) == (if same(x) then [x] else []) + Filter(same, xs)
  {
    if xs != [] {
      if le(x, xs[0]) {
        assert ([x] + xs)[1..] == xs;
      } else {
        InsertStable(le, x, xs[1..], same);
        assert same(x) ==> !same(xs[0]);
        assert ([xs[0]] + Insert(le, x, xs[1..]))[1..] == Insert(le, x, xs[1..]);
      }
    } else {
      assert [x][1..] == [];
    }
  }

  lemma StringLeOrder()
    ensures TotalPreorder(StringLe) && Antisymmetric(StringLe)
  {
    forall a, b ensures (StringLe(a, b) || StringLe(b, a)) && (StringLe(a, b) && StringLe(b, a) ==> a == b) {
      StringLeTotal(a, b);
    }
    forall a, b, c | StringLe(a, b) && StringLe(b, c) ensures StringLe(a, c) {
      StringLeTransitive(a, b, c);
    }
  }
}
