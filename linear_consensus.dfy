/**
 * The linear consensus update: an agent moves towards its neighbours by a step of size
 * epsilon times the summed differences, plus measurement noise when a noise level is set.
 */
module LinearConsensus {
  import opened Sums

  /** The sum of the differences between each neighbour value and x, added up left to right. */
  function DiffSum(x: real, ns: seq<real>): real
  {
    if ns == [] then 0.0 else DiffSum(x, ns[..|ns| - 1]) + (ns[|ns| - 1] - x)
  }

  /**
   * The next value of an agent holding x whose neighbours hold ns. The parameter noise is the
   * Gaussian sample with standard deviation noiseLevel; it is drawn and added only when
   * noiseLevel is positive, and never for an agent without neighbours.
   */
  function NextValue(epsilon: real, noiseLevel: real, x: real, ns: seq<real>, noise: real): (r: real)
    ensures |ns| == 0 ==> r == x
  {
    if |ns| == 0 then x
    else
      var noiseTerm := if noiseLevel > 0.0 then noise else 0.0;
      x + epsilon * DiffSum(x, ns) + noiseTerm
  }

  /**
   * The update in closed form: with neighbours, the value moves by epsilon times the gap
   * between the neighbours' sum and |ns| copies of x, plus the noise sample when noise is on.
   */
  lemma ClosedForm(epsilon: real, noiseLevel: real, x: real, ns: seq<real>, noise: real)
    ensures |ns| > 0 && noiseLevel <= 0.0 ==>
      NextValue(epsilon, noiseLevel, x, ns, noise) == x + epsilon * (Sum(ns) - |ns| as real * x)
    ensures |ns| > 0 && noiseLevel > 0.0 ==>
      NextValue(epsilon, noiseLevel, x, ns, noise) == x + epsilon * (Sum(ns) - |ns| as real * x) + noise
  {
    SumOfDifferences(x, ns);
  }

  /** Without noise the value moves by exactly epsilon times the summed differences. */
  lemma NoiselessMove(epsilon: real, noiseLevel: real, x: real, ns: seq<real>, noise: real)
    requires noiseLevel <= 0.0
    ensures NextValue(epsilon, noiseLevel, x, ns, noise) == x + epsilon * DiffSum(x, ns)
  {
    if ns == [] {
      assert DiffSum(x, ns) == 0.0;
    }
  }

  /** Summing the differences is summing the neighbour values less |ns| copies of x. */
  lemma {:induction false} SumOfDifferences(x: real, ns: seq<real>)
    ensures DiffSum(x, ns) == Sum(ns) - |ns| as real * x
  {
    if ns != [] {
      SumOfDifferences(x, ns[..|ns| - 1]);
    }
  }

  /** The update does not depend on the order in which the neighbours are listed. */
  lemma OrderIndependent(epsilon: real, noiseLevel: real, x: real, a: seq<real>, b: seq<real>, noise: real)
    requires multiset(a) == multiset(b)
    ensures NextValue(epsilon, noiseLevel, x, a, noise) == NextValue(epsilon, noiseLevel, x, b, noise)
  {
    assert |a| == |multiset(a)| == |multiset(b)| == |b|;
    SumPermutation(a, b);
    ClosedForm(epsilon, noiseLevel, x, a, noise);
    ClosedForm(epsilon, noiseLevel, x, b, noise);
  }

  /** Without noise, an agent whose neighbours all hold its own value keeps that value. */
  lemma FixedPoint(epsilon: real, noiseLevel: real, x: real, ns: seq<real>, noise: real)
    requires noiseLevel <= 0.0
    requires forall k :: 0 <= k < |ns| ==> ns[k] == x
    ensures NextValue(epsilon, noiseLevel, x, ns, noise) == x
  {
    SumConstant(ns, x);
    ClosedForm(epsilon, noiseLevel, x, ns, noise);
  }
}
