/** Stable descending sort and pagination, shared by the search endpoints (src/services/search.rs). */
module Ranking {

  /** slice::sort_by with the two scores compared in reverse: a stable sort. */
  function SortDesc<T>(xs: seq<T>, score: T -> int): seq<T> {
    if xs == [] then [] else Insert(xs[0], SortDesc(xs[1..], score), score)
  }

  function Insert<T>(x: T, ys: seq<T>, score: T -> int): seq<T> {
    if ys == [] || score(x) >= score(ys[0]) then [x] + ys else [ys[0]] + Insert(x, ys[1..], score)
  }

  ghost predicate Descending<T>(xs: seq<T>, score: T -> int) {
    forall i, j :: 0 <= i < j < |xs| ==> score(xs[i]) >= score(xs[j])
  }

  /** The elements with one score, in their order. */
  function WithScore<T>(xs: seq<T>, score: T -> int, n: int): seq<T> {
    if xs == [] then [] else (if score(xs[0]) == n then [xs[0]] else []) + WithScore(xs[1..], score, n)
  }

  lemma {:induction false} InsertAdds<T>(x: T, ys: seq<T>, score: T -> int)
    ensures multiset(Insert(x, ys, score)) == multiset{x} + multiset(ys)
  {
    if ys != [] && score(x) < score(ys[0]) {
      InsertAdds(x, ys[1..], score);
      assert ys == [ys[0]] + ys[1..];
    }
  }

  lemma {:induction false} InsertKeeps<T>(x: T, ys: seq<T>, score: T -> int)
    requires Descending(ys, score)
    ensures Descending(Insert(x, ys, score), score)
    ensures forall y :: y in Insert(x, ys, score) ==> y == x || y in ys
  {
    if ys != [] && score(x) < score(ys[0]) {
      InsertKeeps(x, ys[1..], score);
      Prepended(ys[0], Insert(x, ys[1..], score), score);
    }
  }

  lemma Prepended<T>(y: T, rest: seq<T>, score: T -> int)
    requires Descending(rest, score) && forall z :: z in rest ==> score(y) >= score(z)
    ensures Descending([y] + rest, score)
  {}

  lemma {:induction false} InsertIsStable<T>(x: T, ys: seq<T>, score: T -> int, n: int)
    ensures WithScore(Insert(x, ys, score), score, n) == (if score(x) == n then [x] else []) + WithScore(ys, score, n)
    decreases |ys|
  {
    var r := Insert(x, ys, score);
    if ys == [] || score(x) >= score(ys[0]) {
      assert r[1..] == ys;
    } else {
      assert r[1..] == Insert(x, ys[1..], score);
      InsertIsStable(x, ys[1..], score, n);
    }
  }

  /** The sort permutes, orders by falling score, and keeps equal scores in their order. */
  lemma {:induction false} SortDescSorts<T>(xs: seq<T>, score: T -> int)
    ensures Descending(SortDesc(xs, score), score) && multiset(SortDesc(xs, score)) == multiset(xs)
    ensures forall n :: WithScore(SortDesc(xs, score), score, n) == WithScore(xs, score, n)
  {
    if xs != [] {
      SortDescSorts(xs[1..], score);
      var sorted := SortDesc(xs[1..], score);
      InsertKeeps(xs[0], sorted, score);
      InsertAdds(xs[0], sorted, score);
      assert xs == [xs[0]] + xs[1..];
      forall n ensures WithScore(SortDesc(xs, score), score, n) == WithScore(xs, score, n) {
        InsertIsStable(xs[0], sorted, score, n);
      }
    }
  }

  lemma {:induction false} WithScoreBelow<T>(xs: seq<T>, score: T -> int, n: int)
    requires forall i :: 0 <= i < |xs| ==> score(xs[i]) < n
    ensures WithScore(xs, score, n) == []
  {
    if xs != [] {
      WithScoreBelow(xs[1..], score, n);
    }
  }

  lemma HeadHasItsScore<T>(xs: seq<T>, score: T -> int)
    ensures xs != [] ==> WithScore(xs, score, score(xs[0])) != [] && WithScore(xs, score, score(xs[0]))[0] == xs[0]
  {}

  /** These three facts determine the result, whatever algorithm sorts. */
  lemma {:induction false} StableSortIsUnique<T>(xs: seq<T>, ys: seq<T>, score: T -> int)
    requires Descending(xs, score) && Descending(ys, score)
    requires forall n :: WithScore(xs, score, n) == WithScore(ys, score, n)
    ensures xs == ys
    decreases |xs|
  {
    if xs == [] || ys == [] {
      HeadHasItsScore(xs, score);
      HeadHasItsScore(ys, score);
    } else {
      var m, n := score(xs[0]), score(ys[0]);
      if m > n {
        WithScoreBelow(ys, score, m);
      }
      if n > m {
        WithScoreBelow(xs, score, n);
      }
      HeadHasItsScore(xs, score);
      HeadHasItsScore(ys, score);
      forall k ensures WithScore(xs[1..], score, k) == WithScore(ys[1..], score, k) {
        assert WithScore(xs, score, k) == WithScore(ys, score, k);
        var head := if m == k then [xs[0]] else [];
        assert WithScore(xs[1..], score, k) == WithScore(xs, score, k)[|head|..];
        assert WithScore(ys[1..], score, k) == WithScore(ys, score, k)[|head|..];
      }
      StableSortIsUnique(xs[1..], ys[1..], score);
      assert xs == [xs[0]] + xs[1..] && ys == [ys[0]] + ys[1..];
    }
  }

  // ------------------------------------------------------------------ pagination

  function PageOf<T>(xs: seq<T>, page: nat, limit: nat): seq<T>
    requires page >= 1
  {
    var start := (page - 1) * limit;
    if start >= |xs| then [] else xs[start..if start + limit <= |xs| then start + limit else |xs|]
  }

  function FirstPages<T>(xs: seq<T>, n: nat, limit: nat): seq<T> {
    if n == 0 then [] else FirstPages(xs, n - 1, limit) + PageOf(xs, n, limit)
  }

  /** The first n pages, one after the other, are the first n * limit elements. */
  lemma {:induction false} PagesConcatenate<T>(xs: seq<T>, n: nat, limit: nat)
    ensures n * limit >= 0
    ensures FirstPages(xs, n, limit) == xs[..if n * limit <= |xs| then n * limit else |xs|]
  {
    if n > 0 {
      PagesConcatenate(xs, n - 1, limit);
      assert n * limit == (n - 1) * limit + limit;
    }
  }
}
