/** The record one agent keeps: its id, its current value and the ids of its neighbours. */
module AgentStates {

  datatype AgentState = AgentState(agentId: int, value: real, neighbors: seq<int>)

  /** The values held by a list of agent states, in the same order. */
  function Values(states: seq<AgentState>): (vs: seq<real>)
    ensures |vs| == |states|
    ensures forall k :: 0 <= k < |states| ==> vs[k] == states[k].value
  {
    seq(|states|, k requires 0 <= k < |states| => states[k].value)
  }
}
