/**
 * The graphs the agents live on, as adjacency lists over node ids 0..n-1: the cycle,
 * the complete graph, and a caller-supplied Erdős–Rényi sample.
 */
module Topology {
  import Configuration

  /** g[i] lists the neighbours of node i. */
  type Graph = seq<seq<int>>

  /** One adjacency list per node 0..n-1, every entry naming a node. */
  predicate InRange(g: Graph, n: int)
  {
    && |g| == n
    && (forall i, k :: 0 <= i < n && 0 <= k < |g[i]| ==> 0 <= g[i][k] < n)
  }

  /** No id is listed twice. */
  predicate NoRepeats(s: seq<int>)
  {
    forall k, l :: 0 <= k < l < |s| ==> s[k] != s[l]
  }

  /** Every adjacency is mutual: j lists i whenever i lists j. */
  predicate Symmetric(g: Graph)
  {
    forall i, j :: 0 <= i < |g| && 0 <= j < |g| && j in g[i] ==> i in g[j]
  }

  /** An undirected simple graph on nodes 0..n-1: ids in range, no self-loops, no repeats, symmetric. */
  predicate WellFormed(g: Graph, n: int)
  {
    && InRange(g, n)
    && (forall i, k :: 0 <= i < n && 0 <= k < |g[i]| ==> g[i][k] != i)
    && (forall i :: 0 <= i < n ==> NoRepeats(g[i]))
    && Symmetric(g)
  }

  /** The next node round the cycle: i + 1, wrapping from the last node to node 0. */
  function Succ(n: nat, i: nat): (j: nat)
    requires i < n
    ensures j < n
  {
    if i + 1 == n then 0 else i + 1
  }

  /** Succ is the successor modulo n, as the edge (i, (i + 1) mod n) of a cycle graph. */
  lemma SuccIsMod(n: nat, i: nat)
    requires i < n
    ensures Succ(n, i) == (i + 1) % n
  {
    if i + 1 == n {
      assert (i + 1) % n == n % n == 0;
    } else {
      assert 0 <= i + 1 < n;
    }
  }

  /** The previous node round the cycle. */
  function Pred(n: nat, i: nat): (j: nat)
    requires i < n
    ensures j < n
    ensures Succ(n, j) == i
  {
    if i == 0 then n - 1 else i - 1
  }

  /**
   * The neighbours of node i on the cycle of n nodes. Two nodes share a single edge. A
   * single node has no neighbours; a valid configuration never asks for one.
   */
  function RingNeighbors(n: nat, i: nat): seq<int>
    requires i < n
  {
    if n == 1 then [] else if n == 2 then [1 - i] else [Pred(n, i), Succ(n, i)]
  }

  function Ring(n: nat): (g: Graph)
    ensures |g| == n
  {
    seq(n, i requires 0 <= i < n => RingNeighbors(n, i))
  }

  /** On the cycle, i and j are adjacent exactly when one follows the other. */
  lemma RingAdjacency(n: nat, i: nat, j: nat)
    requires i < n && j < n
    ensures j in Ring(n)[i] <==> i != j && (j == (i + 1) % n || i == (j + 1) % n)
    ensures n >= 3 ==> |Ring(n)[i]| == 2
    ensures n == 2 ==> Ring(n)[i] == [1 - i]
  {
    assert Ring(n)[i] == RingNeighbors(n, i);
    SuccIsMod(n, i);
    SuccIsMod(n, j);
    if n >= 3 {
      assert Pred(n, i) != Succ(n, i);
      if i == (j + 1) % n {
        assert Succ(n, j) == i;
        assert j == Pred(n, i);
      }
    }
  }

  lemma RingWellFormed(n: nat)
    ensures WellFormed(Ring(n), n)
  {
    var g := Ring(n);
    forall i, k | 0 <= i < n && 0 <= k < |g[i]|
      ensures 0 <= g[i][k] < n && g[i][k] != i
    {
      RingAdjacency(n, i, g[i][k]);
    }
    forall i, j | 0 <= i < n && 0 <= j < n && j in g[i]
      ensures i in g[j]
    {
      RingAdjacency(n, i, j);
      RingAdjacency(n, j, i);
    }
  }

  /** Node i of the complete graph is adjacent to every other node, in increasing order. */
  function CompleteNeighbors(n: nat, i: nat): seq<int>
    requires i < n
  {
    seq(n - 1, k requires 0 <= k < n - 1 => if k < i then k else k + 1)
  }

  function Complete(n: nat): (g: Graph)
    ensures |g| == n
  {
    seq(n, i requires 0 <= i < n => CompleteNeighbors(n, i))
  }

  /** In the complete graph, distinct nodes are adjacent and no node is adjacent to itself. */
  lemma CompleteAdjacency(n: nat, i: nat, j: nat)
    requires i < n && j < n
    ensures j in Complete(n)[i] <==> i != j
  {
    var ns := Complete(n)[i];
    if i != j {
      var k := if j < i then j else j - 1;
      assert ns[k] == j;
    }
  }

  lemma CompleteWellFormed(n: nat)
    ensures WellFormed(Complete(n), n)
  {
    var g := Complete(n);
    forall i, j | 0 <= i < n && 0 <= j < n && j in g[i]
      ensures i in g[j]
    {
      CompleteAdjacency(n, i, j);
      CompleteAdjacency(n, j, i);
    }
  }

  /** The edge probability used when topology construction falls back to a random graph. */
  const FallbackProbability: real := 0.3

  /**
   * The edge probability the random graph is drawn with: the configured one for the random
   * topology, the fallback for a name that is not a known topology.
   */
  function SampleProbability(topology: string, connectionProbability: real): (p: real)
    ensures topology == "random" ==> p == connectionProbability
    ensures topology !in Configuration.Topologies ==> p == FallbackProbability
  {
    if topology == "random" then connectionProbability else FallbackProbability
  }

  /**
   * Whether the random-graph generator `sample`, which maps an edge probability to an
   * Erdős–Rényi graph on n nodes, yields a well-formed graph wherever the topology uses it.
   */
  predicate SamplerFits(topology: string, connectionProbability: real, n: nat, sample: real -> Graph) {
    topology != "ring" && topology != "fully_connected" ==>
      WellFormed(sample(SampleProbability(topology, connectionProbability)), n)
  }

  /**
   * The graph for the configured topology on n nodes. `sample` stands for the random graph
   * generator: it is called with SampleProbability(topology, connectionProbability) for the
   * random topology and, after a warning, for any unknown topology name.
   */
  function InitializeNetwork(topology: string, connectionProbability: real, n: nat,
                             sample: real -> Graph): (g: Graph)
    requires SamplerFits(topology, connectionProbability, n, sample)
    ensures WellFormed(g, n)
    ensures topology == "ring" ==> g == Ring(n)
    ensures topology == "fully_connected" ==> g == Complete(n)
    ensures topology == "random" ==> g == sample(connectionProbability)
    ensures topology !in Configuration.Topologies ==> g == sample(FallbackProbability)
  {
    if topology == "ring" then
      RingWellFormed(n);
      Ring(n)
    else if topology == "fully_connected" then
      CompleteWellFormed(n);
      Complete(n)
    else
      sample(SampleProbability(topology, connectionProbability))
  }
}
