/** Optional values, finite-set facts and the batching helper shared by every module. */
module Prelude {

  datatype Option<+T> = None | Some(value: T)

  /** No element occurs twice. */
  ghost predicate Distinct<T>(xs: seq<T>) {
    forall i, j :: 0 <= i < j < |xs| ==> xs[i] != xs[j]
  }

  ghost function Elements<T>(xs: seq<T>): set<T> {
    set x | x in xs
  }

  /** One element more of a sequence. */
  lemma ElementsGrow<T>(xs: seq<T>, i: nat)
    requires i < |xs|
    ensures Elements(xs[..i + 1]) == Elements(xs[..i]) + {xs[i]}
    ensures Elements(xs[..i + 1]) <= Elements(xs) && xs[i] in Elements(xs)
  {
    assert xs[..i + 1] == xs[..i] + [xs[i]];
  }

  /** The rows of a result set in some order: SQL promises no particular one. */
  method Enumerate<T(==)>(s: set<T>) returns (xs: seq<T>)
    ensures Distinct(xs) && Elements(xs) == s && |xs| == |s|
  {
    xs := [];
    var rest := s;
    while rest != {}
      invariant Distinct(xs) && Elements(xs) + rest == s && Elements(xs) !! rest
      invariant |xs| + |rest| == |s|
      decreases |rest|
    {
      var x :| x in rest;
      assert x !in Elements(xs);
      xs := xs + [x];
      rest := rest - {x};
    }
  }

  lemma {:induction false} DistinctCardinality<T>(xs: seq<T>)
    requires Distinct(xs)
    ensures |Elements(xs)| == |xs|
  {
    if |xs| > 0 {
      var last := |xs| - 1;
      DistinctCardinality(xs[..last]);
      assert xs == xs[..last] + [xs[last]];
      assert Elements(xs) == Elements(xs[..last]) + {xs[last]};
    }
  }

  lemma {:induction false} SubsetCardinality<T>(part: set<T>, whole: set<T>)
    requires part <= whole
    ensures |part| <= |whole|
    decreases part
  {
    if part != {} {
      var x :| x in part;
      SubsetCardinality(part - {x}, whole - {x});
    }
  }

  /** The set is 1..m, where m is its size. */
  ghost predicate Prefix(s: set<nat>) {
    forall p: nat :: p in s <==> 1 <= p <= |s|
  }

  /** The set holds all of 1..n. */
  ghost predicate Covers(s: set<nat>, n: nat) {
    forall p: nat :: 1 <= p <= n ==> p in s
  }

  /** n different numbers among 1..n are all of them. */
  lemma {:induction false} Pigeonhole(s: set<nat>, n: nat)
    requires forall p :: p in s ==> 1 <= p <= n
    ensures |s| <= n
    ensures |s| == n ==> Covers(s, n)
  {
    if n == 0 {
      assert s == {};
    } else {
      Pigeonhole(s - {n}, n - 1);
    }
  }

  /** A subset of 1..n that holds all of them has n elements. */
  lemma {:induction false} CoversCounts(s: set<nat>, n: nat)
    requires (forall p :: p in s ==> 1 <= p <= n) && Covers(s, n)
    ensures |s| == n
  {
    if n == 0 {
      assert s == {};
    } else {
      CoversCounts(s - {n}, n - 1);
    }
  }
}
