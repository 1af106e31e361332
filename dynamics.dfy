/**
 * Laws of the synchronous step and of whole runs: sum conservation for noiseless linear
 * consensus on an undirected graph, one-step agreement of max-consensus on the complete
 * graph, isolation, monotonicity, fixed points, and what merging the two phases would change.
 */
module Dynamics {
  import opened Sums
  import opened Topology
  import opened Protocols
  import opened Engine
  import LinearConsensus
  import MaxConsensus

  /**
   * What node j pulls node i by in a linear step, before the factor epsilon: the gap from i's
   * value to j's when j is a neighbour of i, nothing otherwise.
   */
  function Flow(g: Graph, vals: seq<real>, i: int, j: int): real
    requires InRange(g, |vals|) && 0 <= i < |vals| && 0 <= j < |vals|
  {
    if j in g[i] then vals[j] - vals[i] else 0.0
  }

  /** The gaps vals[j] - x over the positions j < m listed in ids, added up in position order. */
  function Masked(ids: seq<int>, vals: seq<real>, x: real, m: int): real
    requires 0 <= m <= |vals|
    decreases m
  {
    if m == 0 then 0.0
    else Masked(ids, vals, x, m - 1) + (if m - 1 in ids then vals[m - 1] - x else 0.0)
  }

  /** Column j of the flow table over its first m rows: what j pulls nodes 0..m-1 by. */
  function Column(g: Graph, vals: seq<real>, j: int, m: int): real
    requires InRange(g, |vals|) && 0 <= j < |vals| && 0 <= m <= |vals|
    decreases m
  {
    if m == 0 then 0.0 else Column(g, vals, j, m - 1) + Flow(g, vals, m - 1, j)
  }

  /** The first h rows of the flow table, each over all its columns, added up. */
  function Rows(g: Graph, vals: seq<real>, h: int): real
    requires InRange(g, |vals|) && 0 <= h <= |vals|
    decreases h
  {
    if h == 0 then 0.0 else Rows(g, vals, h - 1) + Masked(g[h - 1], vals, vals[h - 1], |vals|)
  }

  /** The first w columns of the flow table, each over its first h rows, added up. */
  function Columns(g: Graph, vals: seq<real>, w: int, h: int): real
    requires InRange(g, |vals|) && 0 <= w <= |vals| && 0 <= h <= |vals|
    decreases w
  {
    if w == 0 then 0.0 else Columns(g, vals, w - 1, h) + Column(g, vals, w - 1, h)
  }

  /** Extending every column by row h adds row h's first w entries. */
  lemma {:induction false} ColumnsGrow(g: Graph, vals: seq<real>, w: int, h: int)
    requires InRange(g, |vals|) && 0 <= w <= |vals| && 0 <= h < |vals|
    ensures Columns(g, vals, w, h + 1) == Columns(g, vals, w, h) + Masked(g[h], vals, vals[h], w)
    decreases w
  {
    if w > 0 {
      ColumnsGrow(g, vals, w - 1, h);
    }
  }

  /** Adding up the flow table by rows or by columns gives the same total. */
  lemma {:induction false} RowsAreColumns(g: Graph, vals: seq<real>, h: int)
    requires InRange(g, |vals|) && 0 <= h <= |vals|
    ensures Rows(g, vals, h) == Columns(g, vals, |vals|, h)
    decreases h
  {
    if h == 0 {
      ColumnsEmpty(g, vals, |vals|);
    } else {
      RowsAreColumns(g, vals, h - 1);
      ColumnsGrow(g, vals, |vals|, h - 1);
    }
  }

  /** Columns over no rows add up to nothing. */
  lemma {:induction false} ColumnsEmpty(g: Graph, vals: seq<real>, w: int)
    requires InRange(g, |vals|) && 0 <= w <= |vals|
    ensures Columns(g, vals, w, 0) == 0.0
    decreases w
  {
    if w > 0 {
      ColumnsEmpty(g, vals, w - 1);
    }
  }

  /** On an undirected graph what j pulls i by is minus what i pulls j by. */
  lemma FlowsAntisymmetric(g: Graph, vals: seq<real>, i: int, j: int)
    requires InRange(g, |vals|) && Symmetric(g) && 0 <= i < |vals| && 0 <= j < |vals|
    ensures Flow(g, vals, j, i) == -Flow(g, vals, i, j)
  {
    assert j in g[i] ==> i in g[j];
    assert i in g[j] ==> j in g[i];
  }

  /** So on an undirected graph column j adds up to minus row j. */
  lemma {:induction false} ColumnIsMinusRow(g: Graph, vals: seq<real>, j: int, m: int)
    requires InRange(g, |vals|) && Symmetric(g) && 0 <= j < |vals| && 0 <= m <= |vals|
    ensures Column(g, vals, j, m) == -Masked(g[j], vals, vals[j], m)
    decreases m
  {
    if m > 0 {
      ColumnIsMinusRow(g, vals, j, m - 1);
      FlowsAntisymmetric(g, vals, j, m - 1);
    }
  }

  /** And the first w columns add up to minus the first w rows. */
  lemma {:induction false} ColumnsAreMinusRows(g: Graph, vals: seq<real>, w: int)
    requires InRange(g, |vals|) && Symmetric(g) && 0 <= w <= |vals|
    ensures Columns(g, vals, w, |vals|) == -Rows(g, vals, w)
    decreases w
  {
    if w > 0 {
      ColumnsAreMinusRows(g, vals, w - 1);
      ColumnIsMinusRow(g, vals, w - 1, |vals|);
    }
  }

  /** On an undirected graph the whole flow table adds up to zero: it equals minus itself. */
  lemma {:induction false} FlowsCancel(g: Graph, vals: seq<real>)
    requires InRange(g, |vals|) && Symmetric(g)
    ensures Rows(g, vals, |vals|) == 0.0
  {
    RowsAreColumns(g, vals, |vals|);
    ColumnsAreMinusRows(g, vals, |vals|);
  }

  /** Masking with one more position adds that position's gap. */
  lemma {:induction false} MaskedGrow(ids: seq<int>, front: seq<int>, last: int, vals: seq<real>, x: real,
                                      m: int)
    requires ids == front + [last] && last !in front
    requires 0 <= last < |vals| && 0 <= m <= |vals|
    ensures Masked(ids, vals, x, m) == Masked(front, vals, x, m) + (if last < m then vals[last] - x else 0.0)
    decreases m
  {
    if m > 0 {
      MaskedGrow(ids, front, last, vals, x, m - 1);
      assert m - 1 in ids <==> m - 1 in front || m - 1 == last;
    }
  }

  /**
   * The differences to the values listed by a repetition-free list of positions add up to
   * the masked gaps over all positions.
   */
  lemma {:induction false} DiffSumIsMasked(x: real, ns: seq<real>, ids: seq<int>, vals: seq<real>)
    requires |ns| == |ids| && NoRepeats(ids)
    requires forall k :: 0 <= k < |ids| ==> 0 <= ids[k] < |vals| && ns[k] == vals[ids[k]]
    ensures LinearConsensus.DiffSum(x, ns) == Masked(ids, vals, x, |vals|)
    decreases |ids|
  {
    if ids == [] {
      MaskedNone(ids, vals, x, |vals|);
    } else {
      var m := |ids| - 1;
      var front := ids[..m];
      assert ids == front + [ids[m]];
      assert forall k :: 0 <= k < m ==> front[k] != ids[m];
      DiffSumIsMasked(x, ns[..m], front, vals);
      MaskedGrow(ids, front, ids[m], vals, x, |vals|);
    }
  }

  /** Masking with no positions leaves nothing. */
  lemma {:induction false} MaskedNone(ids: seq<int>, vals: seq<real>, x: real, m: int)
    requires ids == [] && 0 <= m <= |vals|
    ensures Masked(ids, vals, x, m) == 0.0
    decreases m
  {
    if m > 0 {
      MaskedNone(ids, vals, x, m - 1);
    }
  }

  /** In a noiseless linear step node i moves by epsilon times its summed differences. */
  lemma {:induction false} StepMove(epsilon: real, noiseLevel: real, g: Graph, vals: seq<real>, noise: seq<real>, i: int)
    requires noiseLevel <= 0.0
    requires InRange(g, |vals|) && |noise| == |vals| && 0 <= i < |vals|
    ensures StepValues(Linear(epsilon, noiseLevel), g, vals, noise)[i]
      == vals[i] + epsilon * LinearConsensus.DiffSum(vals[i], NeighborValues(g, vals, i))
  {
    LinearConsensus.NoiselessMove(epsilon, noiseLevel, vals[i], NeighborValues(g, vals, i), noise[i]);
  }

  /** The summed differences every node sees in a linear step, node by node. */
  function Pulls(g: Graph, vals: seq<real>): (d: seq<real>)
    requires InRange(g, |vals|)
    ensures |d| == |vals|
    ensures forall i {:trigger d[i]} :: 0 <= i < |vals| ==>
      d[i] == LinearConsensus.DiffSum(vals[i], NeighborValues(g, vals, i))
  {
    seq(|vals|, i requires 0 <= i < |vals| => LinearConsensus.DiffSum(vals[i], NeighborValues(g, vals, i)))
  }

  /** With repetition-free neighbour lists the pulls of nodes 0..h-1 are the rows of the flow table. */
  lemma {:induction false} PullsAreRows(g: Graph, vals: seq<real>, h: int)
    requires InRange(g, |vals|) && 0 <= h <= |vals|
    requires forall i :: 0 <= i < |vals| ==> NoRepeats(g[i])
    ensures PrefixSum(Pulls(g, vals), h) == Rows(g, vals, h)
    decreases h
  {
    if h > 0 {
      PullsAreRows(g, vals, h - 1);
      DiffSumIsMasked(vals[h - 1], NeighborValues(g, vals, h - 1), g[h - 1], vals);
    }
  }

  /** With repetition-free neighbour lists all pulls together are the whole flow table. */
  lemma {:induction false} PullsSumToRows(g: Graph, vals: seq<real>)
    requires InRange(g, |vals|)
    requires forall i :: 0 <= i < |vals| ==> NoRepeats(g[i])
    ensures Sum(Pulls(g, vals)) == Rows(g, vals, |vals|)
  {
    PullsAreRows(g, vals, |vals|);
    PrefixSumWhole(Pulls(g, vals));
  }

  /** In a noiseless linear step every node moves by epsilon times its pull. */
  lemma {:induction false} StepMoves(epsilon: real, noiseLevel: real, g: Graph, vals: seq<real>, noise: seq<real>)
    requires noiseLevel <= 0.0
    requires InRange(g, |vals|) && |noise| == |vals|
    ensures Shifted(StepValues(Linear(epsilon, noiseLevel), g, vals, noise), vals, Pulls(g, vals), epsilon)
  {
    var r := StepValues(Linear(epsilon, noiseLevel), g, vals, noise);
    forall i | 0 <= i < |vals|
      ensures r[i] == vals[i] + epsilon * Pulls(g, vals)[i]
    {
      StepMove(epsilon, noiseLevel, g, vals, noise, i);
    }
  }

  /** A noiseless linear step adds epsilon times the total pull to the sum of the values. */
  lemma {:induction false} LinearStepShiftsSum(epsilon: real, noiseLevel: real, g: Graph, vals: seq<real>,
                                               noise: seq<real>)
    requires noiseLevel <= 0.0
    requires InRange(g, |vals|) && |noise| == |vals|
    ensures Sum(StepValues(Linear(epsilon, noiseLevel), g, vals, noise)) == Sum(vals) + epsilon * Sum(Pulls(g, vals))
  {
    StepMoves(epsilon, noiseLevel, g, vals, noise);
    SumShift(StepValues(Linear(epsilon, noiseLevel), g, vals, noise), vals, Pulls(g, vals), epsilon);
  }

  /**
   * Noiseless linear consensus on an undirected graph keeps the sum of all values: every
   * difference one agent moves by is matched by the opposite difference of its neighbour.
   */
  lemma {:induction false} LinearStepKeepsSum(epsilon: real, noiseLevel: real, g: Graph, vals: seq<real>,
                                              noise: seq<real>)
    requires noiseLevel <= 0.0
    requires WellFormed(g, |vals|) && |noise| == |vals|
    ensures Sum(StepValues(Linear(epsilon, noiseLevel), g, vals, noise)) == Sum(vals)
  {
    LinearStepShiftsSum(epsilon, noiseLevel, g, vals, noise);
    PullsSumToRows(g, vals);
    FlowsCancel(g, vals);
    NoShift(Sum(StepValues(Linear(epsilon, noiseLevel), g, vals, noise)), Sum(vals), epsilon, Sum(Pulls(g, vals)));
  }

  /**
   * A total moved by x times nothing stays where it was. It only carries the totals past
   * a product congruence the solver does not find by itself.
   */
  lemma NoShift(total: real, base: real, x: real, moves: real)
    requires total == base + x * moves && moves == 0.0
    ensures total == base
  {
  }

  /** Over a whole noiseless linear run the sum of all values never changes. */
  lemma {:induction false} LinearRunKeepsSum(epsilon: real, noiseLevel: real, g: Graph, vals: seq<real>,
                                             noises: seq<seq<real>>)
    requires noiseLevel <= 0.0
    requires WellFormed(g, |vals|) && NoiseFits(noises, |vals|)
    ensures Sum(Simulate(Linear(epsilon, noiseLevel), g, vals, noises)) == Sum(vals)
    decreases |noises|
  {
    if noises != [] {
      var last := |noises| - 1;
      var p := Linear(epsilon, noiseLevel);
      LinearRunKeepsSum(epsilon, noiseLevel, g, vals, noises[..last]);
      LinearStepKeepsSum(epsilon, noiseLevel, g, Simulate(p, g, vals, noises[..last]), noises[last]);
    }
  }

  /** On the complete graph one max-consensus step gives every agent the global maximum. */
  lemma MaxCompleteAgreesInOneStep(vals: seq<real>, noise: seq<real>)
    requires |vals| > 0 && |noise| == |vals|
    ensures InRange(Complete(|vals|), |vals|)
    ensures forall i :: 0 <= i < |vals| ==>
      StepValues(Max, Complete(|vals|), vals, noise)[i] == MaxConsensus.MaxOf(vals)
  {
    var n := |vals|;
    var g := Complete(n);
    CompleteWellFormed(n);
    var top := MaxConsensus.MaxOf(vals);
    var r := StepValues(Max, g, vals, noise);
    forall i | 0 <= i < n
      ensures r[i] == top
    {
      var ns := NeighborValues(g, vals, i);
      assert r[i] == MaxConsensus.NextValue(vals[i], ns);
      forall j | 0 <= j < n && j != i
        ensures vals[j] <= r[i]
      {
        CompleteAdjacency(n, i, j);
        var k :| 0 <= k < |g[i]| && g[i][k] == j;
        assert ns[k] == vals[j];
      }
      var m :| 0 <= m < n && vals[m] == top;
      assert top <= r[i];
      if r[i] != vals[i] {
        var k :| 0 <= k < |ns| && ns[k] == r[i];
        assert r[i] == vals[g[i][k]];
      }
    }
  }

  /** An agent without neighbours keeps its initial value for the whole run, under any protocol. */
  lemma {:induction false} IsolatedKeepsValue(p: Protocol, g: Graph, vals: seq<real>, noises: seq<seq<real>>,
                                              i: int)
    requires InRange(g, |vals|) && NoiseFits(noises, |vals|)
    requires 0 <= i < |vals| && g[i] == []
    ensures Simulate(p, g, vals, noises)[i] == vals[i]
    decreases |noises|
  {
    if noises != [] {
      var last := |noises| - 1;
      IsolatedKeepsValue(p, g, vals, noises[..last], i);
    }
  }

  /**
   * Under max-consensus no value ever decreases and none ever exceeds the initial maximum:
   * the run stays inside the initial values' range from each agent's own start upwards.
   */
  lemma {:induction false} MaxRunBounds(g: Graph, vals: seq<real>, noises: seq<seq<real>>)
    requires |vals| > 0
    requires InRange(g, |vals|) && NoiseFits(noises, |vals|)
    ensures forall i :: 0 <= i < |vals| ==>
      vals[i] <= Simulate(Max, g, vals, noises)[i] <= MaxConsensus.MaxOf(vals)
    decreases |noises|
  {
    if noises != [] {
      var last := |noises| - 1;
      MaxRunBounds(g, vals, noises[..last]);
      var prev := Simulate(Max, g, vals, noises[..last]);
      var r := StepValues(Max, g, prev, noises[last]);
      assert r == Simulate(Max, g, vals, noises);
      forall i | 0 <= i < |vals|
        ensures vals[i] <= r[i] <= MaxConsensus.MaxOf(vals)
      {
        var ns := NeighborValues(g, prev, i);
        assert r[i] == MaxConsensus.NextValue(prev[i], ns);
        if r[i] != prev[i] {
          var k :| 0 <= k < |ns| && ns[k] == r[i];
          assert r[i] == prev[g[i][k]];
        }
      }
    }
  }

  /** All agents hold the same value. */
  predicate Agreed(vals: seq<real>)
  {
    forall i, j :: 0 <= i < |vals| && 0 <= j < |vals| ==> vals[i] == vals[j]
  }

  /** A protocol that adds no noise: max-consensus, or linear consensus with noise level zero. */
  predicate Noiseless(p: Protocol)
  {
    p.Linear? ==> p.noiseLevel <= 0.0
  }

  /** Once every agent agrees, a noiseless step changes nothing, on any graph. */
  lemma AgreementIsFixed(p: Protocol, g: Graph, vals: seq<real>, noise: seq<real>)
    requires Noiseless(p) && Agreed(vals)
    requires InRange(g, |vals|) && |noise| == |vals|
    ensures StepValues(p, g, vals, noise) == vals
  {
    var r := StepValues(p, g, vals, noise);
    forall i | 0 <= i < |vals|
      ensures r[i] == vals[i]
    {
      var ns := NeighborValues(g, vals, i);
      assert forall k :: 0 <= k < |ns| ==> ns[k] == vals[i];
      match p
      case Linear(epsilon, noiseLevel) =>
        LinearConsensus.FixedPoint(epsilon, noiseLevel, vals[i], ns, noise[i]);
      case Max =>
    }
  }

  /** Once every agent agrees, a noiseless run keeps the agreed values for good. */
  lemma {:induction false} AgreementPersists(p: Protocol, g: Graph, vals: seq<real>, noises: seq<seq<real>>)
    requires Noiseless(p) && Agreed(vals)
    requires InRange(g, |vals|) && NoiseFits(noises, |vals|)
    ensures Simulate(p, g, vals, noises) == vals
    decreases |noises|
  {
    if noises != [] {
      var last := |noises| - 1;
      AgreementPersists(p, g, vals, noises[..last]);
      AgreementIsFixed(p, g, vals, noises[last]);
    }
  }

  /** A noiseless linear update of x between neighbours a and b. */
  lemma LinearOfTwo(epsilon: real, x: real, a: real, b: real)
    ensures LinearConsensus.NextValue(epsilon, 0.0, x, [a, b], 0.0) == x + epsilon * ((a - x) + (b - x))
  {
    assert [a, b][..1] == [a];
    assert [a][..0] == [];
    assert LinearConsensus.DiffSum(x, [a]) == a - x;
    assert LinearConsensus.DiffSum(x, [a, b]) == (a - x) + (b - x);
  }

  /** The 3-ring: node 0 between 2 and 1, node 1 between 0 and 2, node 2 between 1 and 0. */
  lemma RingOfThree()
    ensures Ring(3) == [[2, 1], [0, 2], [1, 0]]
    ensures WellFormed(Ring(3), 3)
  {
    RingWellFormed(3);
  }

  /** Linear consensus with step 0.5 and no noise on the 3-ring with values [0, 10, 20]. */
  lemma LinearRingExample()
    ensures InRange(Ring(3), 3)
    ensures StepValues(Linear(0.5, 0.0), Ring(3), [0.0, 10.0, 20.0], [0.0, 0.0, 0.0]) == [15.0, 10.0, 5.0]
  {
    RingOfThree();
    var vals := [0.0, 10.0, 20.0];
    var r := StepValues(Linear(0.5, 0.0), Ring(3), vals, [0.0, 0.0, 0.0]);
    assert NeighborValues(Ring(3), vals, 0) == [20.0, 10.0];
    assert NeighborValues(Ring(3), vals, 1) == [0.0, 20.0];
    assert NeighborValues(Ring(3), vals, 2) == [10.0, 0.0];
    LinearOfTwo(0.5, 0.0, 20.0, 10.0);
    LinearOfTwo(0.5, 10.0, 0.0, 20.0);
    LinearOfTwo(0.5, 20.0, 10.0, 0.0);
    assert r[0] == 15.0 && r[1] == 10.0 && r[2] == 5.0;
  }

  /** Max-consensus on the same ring and values: every agent reaches 20 in one step. */
  lemma MaxRingExample()
    ensures InRange(Ring(3), 3)
    ensures StepValues(Max, Ring(3), [0.0, 10.0, 20.0], [0.0, 0.0, 0.0]) == [20.0, 20.0, 20.0]
  {
    RingOfThree();
    var vals := [0.0, 10.0, 20.0];
    var r := StepValues(Max, Ring(3), vals, [0.0, 0.0, 0.0]);
    assert NeighborValues(Ring(3), vals, 0) == [20.0, 10.0];
    assert NeighborValues(Ring(3), vals, 1) == [0.0, 20.0];
    assert NeighborValues(Ring(3), vals, 2) == [10.0, 0.0];
    assert r[0] == 20.0 && r[1] == 20.0 && r[2] == 20.0;
  }

  /**
   * What a single merged loop would compute: agents 0, 1, ... update in place one after the
   * other, so agent i already sees the new values of agents before it (a Gauss–Seidel sweep).
   */
  function SweepFrom(p: Protocol, g: Graph, vals: seq<real>, noise: seq<real>, i: nat): (r: seq<real>)
    requires InRange(g, |vals|) && |noise| == |vals| && i <= |vals|
    ensures |r| == |vals|
    ensures forall k :: 0 <= k < i ==> r[k] == vals[k]
    decreases |vals| - i
  {
    if i == |vals| then vals
    else SweepFrom(p, g, vals[i := NextValue(p, vals[i], NeighborValues(g, vals, i), noise[i])], noise, i + 1)
  }

  /**
   * On the 3-ring with values [0, 10, 20] and step 0.5, the in-place sweep ends at
   * [15, 17.5, 16.25], not at the synchronous [15, 10, 5], and it does not keep the sum 30.
   */
  lemma SweepDiffersFromStep()
    ensures InRange(Ring(3), 3)
    ensures SweepFrom(Linear(0.5, 0.0), Ring(3), [0.0, 10.0, 20.0], [0.0, 0.0, 0.0], 0) == [15.0, 17.5, 16.25]
    ensures StepValues(Linear(0.5, 0.0), Ring(3), [0.0, 10.0, 20.0], [0.0, 0.0, 0.0]) != [15.0, 17.5, 16.25]
  {
    RingOfThree();
    LinearRingExample();
    var p, g, z := Linear(0.5, 0.0), Ring(3), [0.0, 0.0, 0.0];
    var v0 := [0.0, 10.0, 20.0];
    assert NeighborValues(g, v0, 0) == [20.0, 10.0];
    LinearOfTwo(0.5, 0.0, 20.0, 10.0);
    var v1 := [15.0, 10.0, 20.0];
    assert v0[0 := NextValue(p, v0[0], NeighborValues(g, v0, 0), z[0])] == v1;
    assert NeighborValues(g, v1, 1) == [15.0, 20.0];
    LinearOfTwo(0.5, 10.0, 15.0, 20.0);
    var v2 := [15.0, 17.5, 20.0];
    assert v1[1 := NextValue(p, v1[1], NeighborValues(g, v1, 1), z[1])] == v2;
    assert NeighborValues(g, v2, 2) == [17.5, 15.0];
    LinearOfTwo(0.5, 20.0, 17.5, 15.0);
    var v3 := [15.0, 17.5, 16.25];
    assert v2[2 := NextValue(p, v2[2], NeighborValues(g, v2, 2), z[2])] == v3;
    assert SweepFrom(p, g, v0, z, 0) == SweepFrom(p, g, v1, z, 1);
    assert SweepFrom(p, g, v1, z, 1) == SweepFrom(p, g, v2, z, 2);
    assert SweepFrom(p, g, v2, z, 2) == SweepFrom(p, g, v3, z, 3);
  }
}
