/** Containment and order relations on sequences (and hence on strings). */
module Seqs {

  /** `p` is an initial segment of `s`. */
  predicate IsPrefix<T(==)>(p: seq<T>, s: seq<T>) {
    |p| <= |s| && s[..|p|] == p
  }

  lemma PrefixOfConcat<T>(p: seq<T>, t: seq<T>)
    ensures IsPrefix(p, p + t)
  {
    assert (p + t)[..|p|] == p;
  }

  /** Two sequences that differ at position `k` do not start one with the other. */
  lemma DifferAt<T>(p: seq<T>, s: seq<T>, k: nat)
    requires k < |p| && k < |s| && p[k] != s[k]
    ensures !IsPrefix(p, s)
  {
    if |p| <= |s| {
      assert s[..|p|][k] == s[k];
    }
  }

  /** `t` occurs as a contiguous segment of `s`, as Python's `t in s` on strings. */
  predicate Contains<T(==)>(s: seq<T>, t: seq<T>)
    decreases |s|
  {
    IsPrefix(t, s) || (|s| > 0 && Contains(s[1..], t))
  }

  lemma ContainsSelf<T>(t: seq<T>)
    ensures Contains(t, t)
  {
    assert t[..|t|] == t;
  }

  /** Text contained in `x` is contained in `x + y`. */
  lemma {:induction false} ContainsLeft<T>(x: seq<T>, y: seq<T>, t: seq<T>)
    requires Contains(x, t)
    ensures Contains(x + y, t)
    decreases |x|
  {
    if IsPrefix(t, x) {
      assert (x + y)[..|t|] == x[..|t|];
    } else {
      ContainsLeft(x[1..], y, t);
      assert (x + y)[1..] == x[1..] + y;
    }
  }

  /** Text contained in `y` is contained in `x + y`. */
  lemma {:induction false} ContainsRight<T>(x: seq<T>, y: seq<T>, t: seq<T>)
    requires Contains(y, t)
    ensures Contains(x + y, t)
    decreases |x|
  {
    if |x| == 0 {
      assert x + y == y;
    } else {
      ContainsRight(x[1..], y, t);
      assert (x + y)[1..] == x[1..] + y;
    }
  }

  /**
    * `a` is `b` with some elements deleted, order kept. Matching each element
    * of `a` against the leftmost remaining equal element of `b` is complete,
    * so the greedy definition below is the usual notion of subsequence.
    */
  predicate IsSubsequence<T(==)>(a: seq<T>, b: seq<T>)
    decreases |b|
  {
    |a| == 0 ||
    (|b| > 0 && if a[0] == b[0] then IsSubsequence(a[1..], b[1..]) else IsSubsequence(a, b[1..]))
  }

  /** A subsequence never holds an element more often than the sequence it was taken from. */
  lemma {:induction false} SubsequenceMultiset<T>(a: seq<T>, b: seq<T>)
    requires IsSubsequence(a, b)
    ensures multiset(a) <= multiset(b)
    decreases |b|
  {
    if |a| == 0 {
    } else if a[0] == b[0] {
      SubsequenceMultiset(a[1..], b[1..]);
      assert a == [a[0]] + a[1..];
      assert b == [b[0]] + b[1..];
    } else {
      SubsequenceMultiset(a, b[1..]);
      assert b == [b[0]] + b[1..];
    }
  }
}
