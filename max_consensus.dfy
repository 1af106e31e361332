/** The max-consensus update: an agent takes the largest of its own and its neighbours' values. */
module MaxConsensus {

  /** The larger of two values; on a tie both are the same value. */
  function Max(a: real, b: real): (m: real)
    ensures m >= a && m >= b
    ensures m == a || m == b
  {
    if b > a then b else a
  }

  /** The largest element of a non-empty sequence, scanned left to right. */
  function MaxOf(s: seq<real>): (m: real)
    requires |s| > 0
    ensures forall k :: 0 <= k < |s| ==> s[k] <= m
    ensures exists k :: 0 <= k < |s| && s[k] == m
  {
    if |s| == 1 then s[0]
    else
      var m' := MaxOf(s[..|s| - 1]);
      assert forall k :: 0 <= k < |s| - 1 ==> s[k] == s[..|s| - 1][k];
      Max(m', s[|s| - 1])
  }

  /** The next value of an agent holding x whose neighbours hold ns. */
  function NextValue(x: real, ns: seq<real>): (r: real)
    ensures |ns| == 0 ==> r == x
    ensures r >= x
    ensures forall k :: 0 <= k < |ns| ==> ns[k] <= r
    ensures r == x || exists k :: 0 <= k < |ns| && ns[k] == r
  {
    if |ns| == 0 then x else Max(x, MaxOf(ns))
  }

  /** The result is the least value at or above x and every neighbour value. */
  lemma LeastUpperBound(x: real, ns: seq<real>, y: real)
    requires x <= y
    requires forall k :: 0 <= k < |ns| ==> ns[k] <= y
    ensures NextValue(x, ns) <= y
  {
  }

  /** Applying the update again to the same neighbour values changes nothing. */
  lemma Idempotent(x: real, ns: seq<real>)
    ensures NextValue(NextValue(x, ns), ns) == NextValue(x, ns)
  {
  }

  /** The update does not depend on the order in which the neighbours are listed. */
  lemma OrderIndependent(x: real, a: seq<real>, b: seq<real>)
    requires multiset(a) == multiset(b)
    ensures NextValue(x, a) == NextValue(x, b)
  {
    forall k | 0 <= k < |a| ensures a[k] <= NextValue(x, b) {
      assert a[k] in multiset(b);
    }
    forall k | 0 <= k < |b| ensures b[k] <= NextValue(x, a) {
      assert b[k] in multiset(a);
    }
    var ra, rb := NextValue(x, a), NextValue(x, b);
    if ra != x {
      var k :| 0 <= k < |a| && a[k] == ra;
    }
    if rb != x {
      var k :| 0 <= k < |b| && b[k] == rb;
    }
  }
}
