/** Shared value types and the few sequence facts that every component uses. */
module Prelude {

  datatype Option<+T> = None | Some(value: T)

  datatype Result<+T, +E> = Ok(value: T) | Err(error: E)

  /** The elements of `xs` that satisfy `p`, in their order. */
  function Filter<T>(p: T -> bool, xs: seq<T>): (r: seq<T>)
    ensures |r| <= |xs|
    ensures forall x :: x in r ==> x in xs && p(x)
    ensures forall x :: x in xs && p(x) ==> x in r
  {
    if xs == [] then []
    else if p(xs[0]) then [xs[0]] + Filter(p, xs[1..])
    else Filter(p, xs[1..])
  }

  lemma {:induction false} FilterAppend<T>(p: T -> bool, xs: seq<T>, ys: seq<T>)
    ensures Filter(p, xs + ys) == Filter(p, xs) + Filter(p, ys)
  {
    if xs == [] {
      assert xs + ys == ys;
    } else {
      assert (xs + ys)[1..] == xs[1..] + ys;
      FilterAppend(p, xs[1..], ys);
    }
  }

  /** A loop that pushes the hits of `xs[..i]` extends them by at most `xs[i]`. */
  lemma FilterStep<T>(p: T -> bool, xs: seq<T>, i: nat)
    requires i < |xs|
    ensures Filter(p, xs[..i + 1]) == Filter(p, xs[..i]) + if p(xs[i]) then [xs[i]] else []
  {
    assert xs[..i + 1] == xs[..i] + [xs[i]];
    FilterAppend(p, xs[..i], [xs[i]]);
  }

  lemma {:induction false} FilterNone<T>(p: T -> bool, xs: seq<T>)
    requires forall x :: x in xs ==> !p(x)
    ensures Filter(p, xs) == []
  {
    if xs != [] {
      FilterNone(p, xs[1..]);
    }
  }

  /** An element that occurs once and is the only one to satisfy `p` is all that `p` selects. */
  lemma {:induction false} FilterOne<T>(p: T -> bool, xs: seq<T>, x: T)
    requires x in xs && p(x) && multiset(xs)[x] == 1
    requires forall y :: y in xs && p(y) ==> y == x
    ensures Filter(p, xs) == [x]
  {
    assert xs == [xs[0]] + xs[1..];
    if xs[0] == x {
      assert x !in xs[1..];
      FilterNone(p, xs[1..]);
    } else {
      FilterOne(p, xs[1..], x);
    }
  }

  /** Filtering twice is filtering once by the conjunction. */
  lemma {:induction false} FilterFilter<T>(p: T -> bool, q: T -> bool, both: T -> bool, xs: seq<T>)
    requires forall x :: x in xs ==> both(x) == (q(x) && p(x))
    ensures Filter(p, Filter(q, xs)) == Filter(both, xs)
  {
    if xs != [] {
      FilterFilter(p, q, both, xs[1..]);
      if q(xs[0]) {
        assert Filter(q, xs)[1..] == Filter(q, xs[1..]);
      }
    }
  }

  function Map<T, U>(f: T -> U, xs: seq<T>): (r: seq<U>)
    ensures |r| == |xs|
    ensures forall i :: 0 <= i < |xs| ==> r[i] == f(xs[i])
  {
    seq(|xs|, i requires 0 <= i < |xs| => f(xs[i]))
  }

  lemma MapAppend<T, U>(f: T -> U, xs: seq<T>, ys: seq<T>)
    ensures Map(f, xs + ys) == Map(f, xs) + Map(f, ys)
  {
  }

  /** A change of the elements that the test does not see can be made before or after filtering. */
  lemma {:induction false} FilterMap<T>(p: T -> bool, f: T -> T, xs: seq<T>)
    requires forall x :: x in xs ==> p(f(x)) == p(x)
    ensures Filter(p, Map(f, xs)) == Map(f, Filter(p, xs))
  {
    if xs != [] {
      var rest := xs[1..];
      assert Map(f, xs)[1..] == Map(f, rest);
      FilterMap(p, f, rest);
      MapAppend(f, [xs[0]], Filter(p, rest));
    }
  }

  /** The first position whose element has this attribute, or the length. */
  function FirstWith<T, K(==)>(f: T -> K, xs: seq<T>, key: K): (i: nat)
    ensures i <= |xs|
    ensures i < |xs| ==> f(xs[i]) == key
    ensures forall j :: 0 <= j < i ==> f(xs[j]) != key
  {
    if xs == [] || f(xs[0]) == key then 0 else 1 + FirstWith(f, xs[1..], key)
  }

  /** No value occurs at two positions. */
  ghost predicate Distinct<T>(xs: seq<T>) {
    forall i, j :: 0 <= i < j < |xs| ==> xs[i] != xs[j]
  }

  lemma {:induction false} DistinctMultiset<T>(xs: seq<T>)
    ensures Distinct(xs) <==> forall x :: x in xs ==> multiset(xs)[x] == 1
  {
    if xs != [] {
      var rest := xs[1..];
      assert xs == [xs[0]] + rest;
      DistinctMultiset(rest);
      if Distinct(xs) {
        assert Distinct(rest);
        assert xs[0] !in rest;
      } else {
        var i, j :| 0 <= i < j < |xs| && xs[i] == xs[j];
        if i == 0 {
          assert rest[j - 1] == xs[0] && xs[0] in rest;
          assert multiset(rest)[xs[0]] >= 1;
          assert xs[0] in xs && multiset(xs)[xs[0]] >= 2;
        } else {
          assert rest[i - 1] == rest[j - 1];
          assert !Distinct(rest);
          var x :| x in rest && multiset(rest)[x] != 1;
          assert x in xs && multiset(xs)[x] >= 2;
        }
      }
    }
  }

  /** Selecting keeps an attribute distinct. */
  lemma {:induction false} FilterDistinct<T, U>(p: T -> bool, f: T -> U, xs: seq<T>)
    requires Distinct(Map(f, xs))
    ensures Distinct(Map(f, Filter(p, xs)))
  {
    if xs != [] {
      var rest := xs[1..];
      assert Map(f, rest) == Map(f, xs)[1..];
      FilterDistinct(p, f, rest);
      var kept := Filter(p, rest);
      forall j | 0 <= j < |kept| ensures f(kept[j]) != f(xs[0]) {
        assert kept[j] in rest;
        var i :| 0 <= i < |rest| && rest[i] == kept[j];
        assert Map(f, xs)[0] != Map(f, xs)[i + 1];
      }
    }
  }

  /** Distinctness does not depend on the order. */
  lemma DistinctPermutation<T>(xs: seq<T>, ys: seq<T>)
    requires multiset(xs) == multiset(ys)
    ensures Distinct(xs) <==> Distinct(ys)
  {
    DistinctMultiset(xs);
    DistinctMultiset(ys);
    forall x ensures x in xs <==> x in ys {
      assert x in xs <==> x in multiset(xs);
      assert x in ys <==> x in multiset(ys);
    }
  }
}
