/** Exact sums of real sequences, accumulated left to right as Python's `sum` does. */
module Sums {

  function Sum(s: seq<real>): real
  {
    if s == [] then 0.0 else Sum(s[..|s| - 1]) + s[|s| - 1]
  }

  lemma {:induction false} SumAppend(a: seq<real>, b: seq<real>)
    ensures Sum(a + b) == Sum(a) + Sum(b)
    decreases |b|
  {
    if b == [] {
      assert a + b == a;
    } else {
      var b' := b[..|b| - 1];
      assert (a + b)[..|a + b| - 1] == a + b';
      SumAppend(a, b');
    }
  }

  /** A sequence holding one value everywhere sums to its length times that value. */
  lemma {:induction false} SumConstant(a: seq<real>, x: real)
    requires forall k :: 0 <= k < |a| ==> a[k] == x
    ensures Sum(a) == |a| as real * x
    decreases |a|
  {
    if a != [] {
      SumConstant(a[..|a| - 1], x);
    }
  }

  /** The sum does not depend on the order of the elements. */
  lemma {:induction false} SumPermutation(a: seq<real>, b: seq<real>)
    requires multiset(a) == multiset(b)
    ensures Sum(a) == Sum(b)
    decreases |a|
  {
    if a != [] {
      var m := |a| - 1;
      var x := a[m];
      assert a == a[..m] + [x];
      assert x in multiset(b);
      var k :| 0 <= k < |b| && b[k] == x;
      var rest := b[..k] + b[k + 1..];
      assert b == b[..k] + [x] + b[k + 1..];
      assert multiset(b) == multiset(b[..k]) + multiset{x} + multiset(b[k + 1..]);
      assert multiset(rest) == multiset(b[..k]) + multiset(b[k + 1..]);
      assert multiset(a) == multiset(a[..m]) + multiset{x};
      assert multiset(a[..m]) == multiset(a) - multiset{x};
      assert multiset(rest) == multiset(b) - multiset{x};
      SumPermutation(a[..m], rest);
      SumAppend(b[..k] + [x], b[k + 1..]);
      SumAppend(b[..k], [x]);
      SumAppend(b[..k], b[k + 1..]);
      assert Sum([x]) == x by { assert [x][..0] == []; }
    }
  }

  /** The sum of the first m elements, accumulated by position. */
  function PrefixSum(s: seq<real>, m: int): real
    requires 0 <= m <= |s|
    decreases m
  {
    if m == 0 then 0.0 else PrefixSum(s, m - 1) + s[m - 1]
  }

  /** Accumulating by position up to m is summing the prefix of length m. */
  lemma {:induction false} PrefixSumIsSum(s: seq<real>, m: int)
    requires 0 <= m <= |s|
    ensures PrefixSum(s, m) == Sum(s[..m])
    decreases m
  {
    if m > 0 {
      PrefixSumIsSum(s, m - 1);
      assert s[..m][..m - 1] == s[..m - 1];
    }
  }

  /** Accumulating by position over the whole sequence is its sum. */
  lemma {:induction false} PrefixSumWhole(s: seq<real>)
    ensures PrefixSum(s, |s|) == Sum(s)
  {
    PrefixSumIsSum(s, |s|);
    assert s[..|s|] == s;
  }

  /**
   * When every element of r is the element of a moved by x times the element of d, the
   * first m elements of r add up to those of a moved by x times those of d.
   */
  lemma {:induction false} PrefixShift(r: seq<real>, a: seq<real>, d: seq<real>, x: real, m: int)
    requires |r| == |a| == |d| && 0 <= m <= |a|
    requires forall i {:trigger r[i]} :: 0 <= i < |a| ==> r[i] == a[i] + x * d[i]
    ensures PrefixSum(r, m) == PrefixSum(a, m) + x * PrefixSum(d, m)
    decreases m
  {
    if m > 0 {
      PrefixShift(r, a, d, x, m - 1);
      AddMove(PrefixSum(r, m - 1), PrefixSum(a, m - 1), x, PrefixSum(d, m - 1), r[m - 1], a[m - 1], d[m - 1],
              PrefixSum(d, m));
    }
  }

  /** Every element of r is the element of a moved by x times the element of d. */
  predicate Shifted(r: seq<real>, a: seq<real>, d: seq<real>, x: real)
  {
    && |r| == |a| == |d|
    && forall i {:trigger r[i]} :: 0 <= i < |a| ==> r[i] == a[i] + x * d[i]
  }

  /** A sequence shifted pointwise by x times d sums to the original sum shifted by x times d's sum. */
  lemma {:induction false} SumShift(r: seq<real>, a: seq<real>, d: seq<real>, x: real)
    requires Shifted(r, a, d, x)
    ensures Sum(r) == Sum(a) + x * Sum(d)
  {
    PrefixShift(r, a, d, x, |a|);
    PrefixSumWhole(r);
    PrefixSumWhole(a);
    PrefixSumWhole(d);
    Rescale(PrefixSum(r, |r|), PrefixSum(a, |a|), x, PrefixSum(d, |d|), Sum(r), Sum(a), Sum(d));
  }

  /**
   * Replacing each of the three totals by an equal one. It only carries the totals past
   * a product congruence (x * a to x * b for a == b) the solver does not find by itself.
   */
  lemma Rescale(total: real, base: real, x: real, moves: real, total': real, base': real, moves': real)
    requires total == base + x * moves
    requires total == total' && base == base' && moves == moves'
    ensures total' == base' + x * moves'
  {
  }

  /**
   * One more moved element, added to the running totals. It only carries the totals past
   * a product congruence the solver does not find by itself.
   */
  lemma AddMove(total: real, base: real, x: real, moves: real, next: real, y: real, move: real, moves': real)
    requires total == base + x * moves
    requires next == y + x * move
    requires moves' == moves + move
    ensures total + next == base + y + x * moves'
  {
  }
}
