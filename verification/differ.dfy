/**
  * The differ: `compare_routes`, a two-way membership difference between the
  * previous and the current route list.
  */
module Differ {
  import opened Seqs
  import opened Routes

  /** The three lists `compare_routes` returns; the script never fills `changed`. */
  datatype Diff = Diff(removed: seq<Route>, added: seq<Route>, changed: seq<Route>)

  /**
    * The elements of `xs` that do not occur in `ys`, in the order of `xs` and
    * with repetitions kept: the loop `for route in xs: if route not in ys`.
    */
  function Missing(xs: seq<Route>, ys: seq<Route>): (m: seq<Route>)
    ensures forall r :: r in m <==> r in xs && r !in ys
    ensures IsSubsequence(m, xs)
  {
    if xs == [] then []
    else
      var rest := Missing(xs[1..], ys);
      // When xs[0] is dropped, the subsequence ensures needs rest[0] != xs[0]:
      // rest[0], if it exists, is a member of rest and hence absent from ys.
      assert |rest| == 0 || rest[0] in rest;
      if xs[0] in ys then rest
      else
        assert ([xs[0]] + rest)[1..] == rest;
        [xs[0]] + rest
  }

  /** `Missing` keeps every occurrence of a route absent from `ys`, and no other. */
  lemma {:induction false} MissingCounts(xs: seq<Route>, ys: seq<Route>)
    ensures forall r :: multiset(Missing(xs, ys))[r] == if r in ys then 0 else multiset(xs)[r]
    decreases |xs|
  {
    if xs != [] {
      MissingCounts(xs[1..], ys);
      assert xs == [xs[0]] + xs[1..];
    }
  }

  /**
    * `compare_routes(last, current)`: nothing when the lists are equal as
    * lists; otherwise what `last` has that `current` lacks, and the reverse.
    */
  function CompareRoutes(last: seq<Route>, current: seq<Route>): (d: Diff)
    ensures d.changed == []
    ensures forall r :: r in d.removed <==> r in last && r !in current
    ensures forall r :: r in d.added <==> r in current && r !in last
  {
    if current == last then Diff([], [], [])
    else Diff(Missing(last, current), Missing(current, last), [])
  }

  /**
    * Membership, multiplicities and order pin down `Missing`: any subsequence
    * of `xs` that keeps exactly the occurrences of elements absent from `ys`
    * is `Missing(xs, ys)`.
    */
  lemma {:induction false} MissingUnique(m: seq<Route>, xs: seq<Route>, ys: seq<Route>)
    requires IsSubsequence(m, xs)
    requires forall r :: multiset(m)[r] == if r in ys then 0 else multiset(xs)[r]
    ensures m == Missing(xs, ys)
    decreases |xs|
  {
    var expected := Missing(xs, ys);
    MissingCounts(xs, ys);
    if |m| == 0 {
      assert |expected| == 0 || multiset(expected)[expected[0]] > 0;
    } else {
      assert xs == [xs[0]] + xs[1..];
      assert m == [m[0]] + m[1..];
      if m[0] == xs[0] {
        assert multiset(m)[m[0]] > 0;
        assert xs[0] !in ys;
        forall r ensures multiset(m[1..])[r] == if r in ys then 0 else multiset(xs[1..])[r] {
          assert multiset(m)[r] == multiset(m[1..])[r] + (if r == m[0] then 1 else 0);
          assert multiset(xs)[r] == multiset(xs[1..])[r] + (if r == xs[0] then 1 else 0);
        }
        MissingUnique(m[1..], xs[1..], ys);
      } else {
        assert IsSubsequence(m, xs[1..]);
        SubsequenceMultiset(m, xs[1..]);
        assert multiset(m)[xs[0]] <= multiset(xs[1..])[xs[0]] < multiset(xs)[xs[0]];
        assert xs[0] in ys;
        forall r ensures multiset(m)[r] == if r in ys then 0 else multiset(xs[1..])[r] {
          assert multiset(xs)[r] == multiset(xs[1..])[r] + (if r == xs[0] then 1 else 0);
        }
        MissingUnique(m, xs[1..], ys);
      }
    }
  }

  /** Nothing is missing from a list compared with itself. */
  lemma MissingSelf(xs: seq<Route>)
    ensures Missing(xs, xs) == []
  {
    MissingCounts(xs, xs);
    assert multiset(Missing(xs, xs)) == multiset{};
  }

  /**
    * The equality short-circuit is only a shortcut: in every case the result
    * is what the two membership loops compute.
    */
  lemma ShortCircuitAgrees(last: seq<Route>, current: seq<Route>)
    ensures CompareRoutes(last, current) == Diff(Missing(last, current), Missing(current, last), [])
  {
    if current == last {
      MissingSelf(last);
    }
  }

  /** Swapping the arguments swaps `added` and `removed`. */
  lemma CompareSymmetric(a: seq<Route>, b: seq<Route>)
    ensures CompareRoutes(a, b).added == CompareRoutes(b, a).removed
    ensures CompareRoutes(a, b).removed == CompareRoutes(b, a).added
  {
    ShortCircuitAgrees(a, b);
    ShortCircuitAgrees(b, a);
  }

  /**
    * No change is reported exactly when every route of each list occurs in
    * the other, whatever the order and the repetitions.
    */
  lemma NoChangeIffSameMembers(last: seq<Route>, current: seq<Route>)
    ensures CompareRoutes(last, current).removed == [] && CompareRoutes(last, current).added == []
      <==> (forall r :: r in last <==> r in current)
  {
    var d := CompareRoutes(last, current);
    assert |d.removed| == 0 || d.removed[0] in d.removed;
    assert |d.added| == 0 || d.added[0] in d.added;
  }

  /** A reordering of the same routes is no change. */
  lemma ReorderingIsNoChange(last: seq<Route>, current: seq<Route>)
    requires multiset(last) == multiset(current)
    ensures CompareRoutes(last, current).removed == [] && CompareRoutes(last, current).added == []
  {
    forall r ensures r in last <==> r in current {
      assert r in last <==> r in multiset(last);
      assert r in current <==> r in multiset(current);
    }
    NoChangeIffSameMembers(last, current);
  }
}
