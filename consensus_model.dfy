/**
 * The synchronous simulation engine: it owns the graph and the agents, runs the two-phase
 * step (every agent computes, then every agent commits), counts steps against the budget,
 * and rebuilds everything on reset.
 */
module Engine {
  import opened Wrappers
  import opened Errors
  import opened Configuration
  import opened ConfigurationServices
  import opened AgentStates
  import opened Protocols
  import opened ProtocolFactories
  import opened Topology
  import opened Agents

  /** The values the neighbours of node i hold, in adjacency order. */
  function NeighborValues(g: Graph, vals: seq<real>, i: int): (ns: seq<real>)
    requires InRange(g, |vals|) && 0 <= i < |vals|
    ensures |ns| == |g[i]|
    ensures forall k {:trigger ns[k]} :: 0 <= k < |g[i]| ==> ns[k] == vals[g[i][k]]
  {
    seq(|g[i]|, k requires 0 <= k < |g[i]| => vals[g[i][k]])
  }

  /**
   * One synchronous (Jacobi) step: every node's next value is its protocol applied to the
   * values before the step, its own and its neighbours'; noise[i] is node i's noise sample.
   */
  function StepValues(p: Protocol, g: Graph, vals: seq<real>, noise: seq<real>): (r: seq<real>)
    requires InRange(g, |vals|) && |noise| == |vals|
    ensures |r| == |vals|
    ensures forall i {:trigger r[i]} :: 0 <= i < |vals| ==> r[i] == NextValue(p, vals[i], NeighborValues(g, vals, i), noise[i])
  {
    seq(|vals|, i requires 0 <= i < |vals| => NextValue(p, vals[i], NeighborValues(g, vals, i), noise[i]))
  }

  /** The noise samples of a run: one sequence per step, one sample per agent. */
  predicate NoiseFits(noises: seq<seq<real>>, n: int)
  {
    forall t :: 0 <= t < |noises| ==> |noises[t]| == n
  }

  /** The values after one synchronous step per element of noises, in order. */
  function Simulate(p: Protocol, g: Graph, vals: seq<real>, noises: seq<seq<real>>): (r: seq<real>)
    requires InRange(g, |vals|) && NoiseFits(noises, |vals|)
    ensures |r| == |vals|
    decreases |noises|
  {
    if noises == [] then vals
    else
      var last := |noises| - 1;
      StepValues(p, g, Simulate(p, g, vals, noises[..last]), noises[last])
  }

  /** The agents at the given positions, in the same order. */
  function Pick(all: seq<ConsensusAgent>, ids: seq<int>): (ns: seq<ConsensusAgent>)
    requires forall k :: 0 <= k < |ids| ==> 0 <= ids[k] < |all|
    ensures |ns| == |ids|
    ensures forall k :: 0 <= k < |ids| ==> ns[k] == all[ids[k]]
  {
    seq(|ids|, k requires 0 <= k < |ids| => all[ids[k]])
  }

  /** Agent i's neighbour list carries the ids g[i] and holds the values node i's neighbours hold. */
  lemma NeighborsOf(all: seq<ConsensusAgent>, g: Graph, before: seq<real>, i: int)
    requires InRange(g, |all|) && |before| == |all| && 0 <= i < |all|
    requires forall k :: 0 <= k < |all| ==> all[k].uniqueId == k && all[k].state.value == before[k]
    ensures Ids(Pick(all, g[i])) == g[i]
    ensures AgentStates.Values(StatesOf(Pick(all, g[i]))) == NeighborValues(g, before, i)
  {
  }

  /**
   * The loop of the compute phase over agents all[0..]: agent i records its neighbours g[i]
   * and computes its pending value from the values before the phase, `before`. No current
   * value changes, so every agent reads pre-step values whatever the order.
   */
  method ComputeAll(all: seq<ConsensusAgent>, g: Graph, ghost p: Protocol, ghost before: seq<real>,
                    noise: seq<real>)
    requires InRange(g, |all|) && |before| == |all| && |noise| == |all|
    requires forall k, l :: 0 <= k < l < |all| ==> all[k] != all[l]
    requires forall k :: 0 <= k < |all| ==> all[k].uniqueId == k && all[k].protocol == p
    requires forall k :: 0 <= k < |all| ==> all[k].state.agentId == k && all[k].state.value == before[k]
    modifies all
    ensures forall k :: 0 <= k < |all| ==> all[k].state == AgentState(k, before[k], g[k])
    ensures forall k :: 0 <= k < |all| ==> all[k].nextValue == StepValues(p, g, before, noise)[k]
  {
    ghost var after := StepValues(p, g, before, noise);
    var i := 0;
    while i < |all|
      invariant 0 <= i <= |all|
      invariant forall k :: 0 <= k < i ==> all[k].state == AgentState(k, before[k], g[k])
      invariant forall k :: i <= k < |all| ==> all[k].state == old(all[k].state)
      invariant forall k :: 0 <= k < i ==> all[k].nextValue == after[k]
    {
      var neighbors := Pick(all, g[i]);
      NeighborsOf(all, g, before, i);
      ghost var pending := NextValue(p, before[i], NeighborValues(g, before, i), noise[i]);
      label before_step:
      all[i].Step(neighbors, noise[i]);
      assert all[i].nextValue == pending;
      assert all[i].state == AgentState(i, before[i], g[i]);
      assert forall k :: 0 <= k < |all| && k != i ==>
        all[k].state == old@before_step(all[k].state) && all[k].nextValue == old@before_step(all[k].nextValue);
      i := i + 1;
    }
  }

  class ConsensusModel {
    /** The one configuration holder of the program. */
    const svc: ConfigurationService
    const factory: ProtocolFactory
    /** The configuration read from the holder when the model was made. */
    const config: ValidConfig
    var running: bool
    var stepCount: nat
    var graph: Graph
    var agents: seq<ConsensusAgent>
    /** The protocol every current agent was given. */
    ghost var protocol: Protocol

    /** The object invariant: the agent part, and a running model still has budget left. */
    ghost predicate Valid()
      reads this, agents
    {
      && Population()
      && factory.config.protocolType in ProtocolTypes
      && (running ==> stepCount < config.maxSteps)
    }

    /**
     * One distinct agent per node of a well-formed graph, agent i with id i, all holding
     * the same protocol.
     */
    ghost predicate Population()
      reads this`agents, this`graph, this`protocol, agents
    {
      && |agents| == config.numberOfAgents
      && WellFormed(graph, |agents|)
      && (forall i, j :: 0 <= i < j < |agents| ==> agents[i] != agents[j])
      && (forall i :: 0 <= i < |agents| ==>
            agents[i].uniqueId == i && agents[i].state.agentId == i && agents[i].protocol == protocol)
    }

    /** The agents' current values, ordered by id. */
    function Values(): (vs: seq<real>)
      reads this`agents, agents
      ensures |vs| == |agents|
    {
      AgentStates.Values(StatesOf(agents))
    }

    constructor Init(svc: ConfigurationService, factory: ProtocolFactory, config: ValidConfig)
      ensures this.svc == svc && this.factory == factory && this.config == config
      ensures running && stepCount == 0 && agents == [] && graph == []
    {
      this.svc := svc;
      this.factory := factory;
      this.config := config;
      running := true;
      stepCount := 0;
      graph := [];
      agents := [];
    }

    /**
     * Makes a model: reads the configuration from the holder, builds the graph and one agent
     * per node with its initial value and the factory's protocol. It fails when the holder is
     * empty or the factory rejects its protocol kind.
     */
    static method Create(svc: ConfigurationService, factory: ProtocolFactory,
                         initialValues: seq<real>, sample: real -> Graph)
      returns (r: Result<ConsensusModel, Error>)
      requires svc.config.Some? ==>
        |initialValues| == svc.config.value.numberOfAgents
        && SamplerFits(svc.config.value.topology, svc.config.value.connectionProbability,
                       svc.config.value.numberOfAgents, sample)
      ensures svc.config.None? ==> r == Failure(NotConfigured)
      ensures svc.config.Some? && CreateProtocol(factory, svc).Failure? ==>
        r == Failure(CreateProtocol(factory, svc).error)
      ensures r.Success? <==> svc.config.Some? && CreateProtocol(factory, svc).Success?
      ensures r.Success? ==>
        var m := r.value;
        && fresh(m) && m.Valid()
        && m.svc == svc && m.factory == factory && m.config == svc.config.value
        && m.running && m.stepCount == 0
        && |m.agents| == m.config.numberOfAgents
        && (forall i :: 0 <= i < |m.agents| ==> m.agents[i].uniqueId == i && m.agents[i].state.agentId == i)
        && (forall i :: 0 <= i < |m.agents| ==> fresh(m.agents[i]))
        && m.graph == Topology.InitializeNetwork(m.config.topology, m.config.connectionProbability,
                                                 m.config.numberOfAgents, sample)
        && m.protocol == CreateProtocol(factory, svc).value
        && m.Values() == initialValues
        && (forall i :: 0 <= i < |m.agents| ==> m.agents[i].state.neighbors == [] && m.agents[i].Settled())
    {
      var got := svc.GetConfiguration();
      if got.Failure? {
        return Failure(got.error);
      }
      var m := new ConsensusModel.Init(svc, factory, got.value);
      m.InitializeNetwork(sample);
      var created := CreateProtocol(factory, svc);
      if created.Failure? {
        return Failure(created.error);
      }
      m.CreateAgents(initialValues, created.value);
      r := Success(m);
    }

    /** Builds the graph for the configured topology; `sample` draws the random graph, if one is drawn. */
    method InitializeNetwork(sample: real -> Graph)
      requires SamplerFits(config.topology, config.connectionProbability, config.numberOfAgents, sample)
      modifies this
      ensures graph == Topology.InitializeNetwork(config.topology, config.connectionProbability,
                                                  config.numberOfAgents, sample)
      ensures agents == old(agents) && running == old(running) && stepCount == old(stepCount)
      ensures protocol == old(protocol)
    {
      graph := Topology.InitializeNetwork(config.topology, config.connectionProbability,
                                          config.numberOfAgents, sample);
    }

    /** Creates agent i on node i with initial value initialValues[i] and protocol p. */
    method CreateAgents(initialValues: seq<real>, p: Protocol)
      requires |initialValues| == config.numberOfAgents
      requires WellFormed(graph, config.numberOfAgents)
      requires factory.config.protocolType in ProtocolTypes
      requires running ==> stepCount < config.maxSteps
      modifies this
      ensures Valid() && protocol == p
      ensures graph == old(graph) && running == old(running) && stepCount == old(stepCount)
      ensures forall i :: 0 <= i < |agents| ==> fresh(agents[i])
      ensures Values() == initialValues
      ensures forall i :: 0 <= i < |agents| ==> agents[i].state.neighbors == [] && agents[i].Settled()
    {
      var created: seq<ConsensusAgent> := [];
      var i := 0;
      while i < |initialValues|
        invariant 0 <= i <= |initialValues| && |created| == i
        invariant forall k, l :: 0 <= k < l < i ==> created[k] != created[l]
        invariant forall k :: 0 <= k < i ==>
          && fresh(created[k]) && created[k].uniqueId == k && created[k].protocol == p
          && created[k].state == AgentState(k, initialValues[k], []) && created[k].nextValue == initialValues[k]
        invariant graph == old(graph) && running == old(running) && stepCount == old(stepCount)
      {
        var a := new ConsensusAgent(i, initialValues[i], p);
        created := created + [a];
        i := i + 1;
      }
      agents := created;
      protocol := p;
    }

    /** The agents' pending values, ordered by id. */
    ghost function PendingValues(): (vs: seq<real>)
      reads this, agents
      ensures |vs| == |agents|
      ensures forall i :: 0 <= i < |agents| ==> vs[i] == agents[i].nextValue
    {
      seq(|agents|, i requires 0 <= i < |agents| reads this, agents => agents[i].nextValue)
    }

    /**
     * Phase one of a step: every agent, in id order, records its neighbours and computes its
     * pending value. No agent's current value changes, so each reads only pre-step values.
     */
    method ComputePhase(noise: seq<real>)
      requires Valid()
      requires |noise| == |agents|
      modifies agents
      ensures Valid()
      ensures Values() == old(Values())
      ensures PendingValues() == StepValues(protocol, graph, old(Values()), noise)
      ensures forall i :: 0 <= i < |agents| ==> agents[i].state.neighbors == graph[i]
    {
      ghost var before := Values();
      ComputeAll(agents, graph, protocol, before, noise);
      assert Values() == before;
    }

    /** Phase two of a step: every agent commits its pending value; nothing else changes. */
    method CommitPhase()
      requires Valid()
      modifies agents
      ensures Valid()
      ensures Values() == old(PendingValues())
      ensures PendingValues() == old(PendingValues())
      ensures forall i :: 0 <= i < |agents| ==> agents[i].state.neighbors == old(agents[i].state.neighbors)
    {
      var all := agents;
      var i := 0;
      while i < |all|
        invariant 0 <= i <= |all|
        invariant forall k :: 0 <= k < |all| ==>
          && all[k].nextValue == old(all[k].nextValue)
          && all[k].state.neighbors == old(all[k].state.neighbors)
          && all[k].state.agentId == k
        invariant forall k :: 0 <= k < i ==> all[k].state.value == old(all[k].nextValue)
      {
        all[i].Advance();
        i := i + 1;
      }
      assert Values() == old(PendingValues());
    }

    /** Counts one step and stops the model once its step budget is used up. */
    method CountStep()
      requires Valid()
      modifies this`stepCount, this`running
      ensures Valid()
      ensures stepCount == old(stepCount) + 1
      ensures running == (old(running) && stepCount < config.maxSteps)
    {
      stepCount := stepCount + 1;
      if stepCount >= config.maxSteps {
        running := false;
      }
    }

    /**
     * One synchronous step: all agents compute, then all agents commit, so every new value
     * is the protocol applied to the values before the step. Then the step is counted and the
     * model stops once the budget is used up. noise[i] is agent i's noise sample. The agent
     * list, the graph and the protocol are left alone.
     */
    method Step(noise: seq<real>)
      requires Valid()
      requires |noise| == |agents|
      modifies this`stepCount, this`running, agents
      ensures Valid()
      ensures Values() == StepValues(protocol, graph, old(Values()), noise)
      ensures forall i :: 0 <= i < |agents| ==> agents[i].state.neighbors == graph[i]
      ensures stepCount == old(stepCount) + 1
      ensures running == (old(running) && stepCount < config.maxSteps)
    {
      ComputePhase(noise);
      CommitPhase();
      CountStep();
    }

    /**
     * Steps until the model stops. Step t of the run uses noises[t]. A running model takes
     * exactly the steps left in its budget; a stopped one takes none.
     */
    method Run(noises: seq<seq<real>>)
      requires Valid()
      requires NoiseFits(noises, |agents|)
      requires running ==> |noises| >= config.maxSteps - stepCount
      modifies this, agents
      ensures Valid() && !running
      ensures agents == old(agents) && graph == old(graph) && protocol == old(protocol)
      ensures stepCount == if old(running) then config.maxSteps else old(stepCount)
      ensures Values() == Simulate(protocol, graph, old(Values()), noises[..stepCount - old(stepCount)])
    {
      ghost var start := Values();
      var s0 := stepCount;
      while running
        invariant Valid()
        invariant agents == old(agents) && graph == old(graph) && protocol == old(protocol)
        invariant s0 <= stepCount
        invariant !old(running) ==> stepCount == s0 && !running
        invariant old(running) ==> stepCount <= config.maxSteps
        invariant old(running) && !running ==> stepCount == config.maxSteps
        invariant Values() == Simulate(protocol, graph, start, noises[..stepCount - s0])
        decreases config.maxSteps - stepCount
      {
        var t := stepCount - s0;
        assert noises[..t + 1][..t] == noises[..t];
        Step(noises[t]);
      }
    }

    /**
     * Discards every agent and the graph, resets the counter and the running flag, and builds
     * both again as at construction, with fresh initial values and, for a random topology, a
     * freshly drawn graph.
     */
    method Reset(initialValues: seq<real>, sample: real -> Graph)
      requires Valid()
      requires svc.config.Some?
      requires |initialValues| == config.numberOfAgents
      requires SamplerFits(config.topology, config.connectionProbability, config.numberOfAgents, sample)
      modifies this
      ensures Valid() && running && stepCount == 0
      ensures |agents| == config.numberOfAgents
      ensures forall i :: 0 <= i < |agents| ==> agents[i].uniqueId == i && agents[i].state.agentId == i
      ensures graph == Topology.InitializeNetwork(config.topology, config.connectionProbability,
                                                  config.numberOfAgents, sample)
      ensures CreateProtocol(factory, svc).Success? && protocol == CreateProtocol(factory, svc).value
      ensures forall i :: 0 <= i < |agents| ==> fresh(agents[i])
      ensures Values() == initialValues
      ensures forall i :: 0 <= i < |agents| ==> agents[i].state.neighbors == [] && agents[i].Settled()
    {
      stepCount := 0;
      running := true;
      agents := [];
      InitializeNetwork(sample);
      var created := CreateProtocol(factory, svc);
      CreateAgents(initialValues, created.value);
    }
  }
}
