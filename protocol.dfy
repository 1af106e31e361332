/** The pluggable update rule: each variant computes an agent's next value from its neighbours'. */
module Protocols {
  import opened AgentStates
  import LinearConsensus
  import MaxConsensus

  datatype Protocol =
    /** Linear consensus with step size epsilon and noise standard deviation noiseLevel. */
    | Linear(epsilon: real, noiseLevel: real)
    /** Max-consensus; it has no parameters. */
    | Max

  /**
   * The next value of an agent holding x whose neighbours hold ns; noise is this agent's
   * noise sample for this step, used only by a noisy linear protocol.
   */
  function NextValue(p: Protocol, x: real, ns: seq<real>, noise: real): (r: real)
    ensures |ns| == 0 ==> r == x
  {
    match p
    case Linear(epsilon, noiseLevel) => LinearConsensus.NextValue(epsilon, noiseLevel, x, ns, noise)
    case Max => MaxConsensus.NextValue(x, ns)
  }

  /** The protocol applied to agent states: only the values of the states are read. */
  function CalculateNextValue(p: Protocol, current: AgentState, neighbors: seq<AgentState>, noise: real): (r: real)
    ensures |neighbors| == 0 ==> r == current.value
    ensures p.Max? ==> r >= current.value
  {
    NextValue(p, current.value, Values(neighbors), noise)
  }

  /** For every protocol, the order of the neighbours does not matter. */
  lemma OrderIndependent(p: Protocol, x: real, a: seq<real>, b: seq<real>, noise: real)
    requires multiset(a) == multiset(b)
    ensures NextValue(p, x, a, noise) == NextValue(p, x, b, noise)
  {
    match p
    case Linear(epsilon, noiseLevel) => LinearConsensus.OrderIndependent(epsilon, noiseLevel, x, a, b, noise);
    case Max => MaxConsensus.OrderIndependent(x, a, b);
  }
}
