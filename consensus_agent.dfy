/**
 * One participant of the simulation. Its step computes a pending value from the current
 * values of its neighbours; its advance commits that pending value.
 */
module Agents {
  import opened AgentStates
  import opened Protocols

  class ConsensusAgent {
    const uniqueId: int
    const protocol: Protocol
    var state: AgentState
    /** The value computed by the last step, committed by the next advance. */
    var nextValue: real

    constructor (uniqueId: int, initialValue: real, protocol: Protocol)
      ensures this.uniqueId == uniqueId && this.protocol == protocol
      ensures state == AgentState(uniqueId, initialValue, [])
      ensures nextValue == initialValue
    {
      this.uniqueId := uniqueId;
      this.protocol := protocol;
      state := AgentState(uniqueId, initialValue, []);
      nextValue := initialValue;
    }

    /** The pending value is the committed one, as it is right after construction. */
    ghost predicate Settled()
      reads this
    {
      nextValue == state.value
    }

    /**
     * The compute phase: records the neighbours' ids and sets the pending value from the
     * values this agent and its neighbours hold now. The agent's own value is not touched.
     */
    method Step(neighbors: seq<ConsensusAgent>, noise: real)
      modifies this
      ensures state == old(state).(neighbors := Ids(neighbors))
      ensures nextValue == NextValue(protocol, old(state.value), old(Values(StatesOf(neighbors))), noise)
    {
      var neighborStates := StatesOf(neighbors);
      state := state.(neighbors := Ids(neighbors));
      nextValue := CalculateNextValue(protocol, state, neighborStates, noise);
    }

    /** The commit phase: the pending value becomes the current value; nothing else changes. */
    method Advance()
      modifies this
      ensures state == old(state).(value := old(nextValue))
      ensures nextValue == old(nextValue)
      ensures Settled()
      ensures old(Settled()) ==> state == old(state)
    {
      state := state.(value := nextValue);
    }
  }

  /** The ids of a list of agents, in the same order. */
  function Ids(agents: seq<ConsensusAgent>): (ids: seq<int>)
    ensures |ids| == |agents|
    ensures forall k :: 0 <= k < |agents| ==> ids[k] == agents[k].uniqueId
  {
    seq(|agents|, k requires 0 <= k < |agents| => agents[k].uniqueId)
  }

  /** The current states of a list of agents, in the same order. */
  function StatesOf(agents: seq<ConsensusAgent>): (states: seq<AgentState>)
    reads agents
    ensures |states| == |agents|
    ensures forall k :: 0 <= k < |agents| ==> states[k] == agents[k].state
  {
    seq(|agents|, k requires 0 <= k < |agents| reads agents => agents[k].state)
  }
}
