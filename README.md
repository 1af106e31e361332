# Consensus simulation core, modelled and verified in Dafny

This project models the core of PTI, a simulation of distributed consensus. A fixed set of
agents sits on the nodes of a graph: a ring, a complete graph or an Erdős–Rényi random graph.
Each agent holds a real value. In every step each agent computes a new value from its own value
and its neighbours' values. The update rule is either *linear consensus*,
`x + ε·Σ(xj − x)` plus optional Gaussian noise, or *max-consensus*, `max(x, max xj)`. The
step is synchronous and has two phases: every agent first computes its pending value from the
pre-step values (`step`), and only then does every agent commit it (`advance`). The engine
counts steps and stops once the configured budget `max_steps` is used up. A validated
configuration is kept in one process-wide holder, and a factory turns the configured protocol
kind into an update rule.

Module layout, one module per source file, plus shared helpers:

- `Configuration` (configuration.dfy) is the configuration record and its validation: the field constraints, the defaults, and the failure that reports which fields are invalid.
- `ConfigurationServices` (configuration_service.dfy) is the holder, a class with one `Option` field.
- `Protocols`, `LinearConsensus`, `MaxConsensus` (protocol.dfy, linear_consensus.dfy, max_consensus.dfy) are the update rules, as pure functions over `real`. The datatype `Protocol = Linear(epsilon, noiseLevel) | Max` stands for the abstract protocol interface.
- `ProtocolFactories` (protocol_factory.dfy) is the factory. It returns a `Result`, and an unknown kind is an error.
- `AgentStates` (agent_state.dfy) is the per-agent record (id, value, neighbour ids).
- `Agents` (consensus_agent.dfy) is the agent, a class whose `Step` writes the pending value and the neighbour ids, and whose `Advance` commits the pending value.
- `Topology` (topology.dfy) holds adjacency lists on nodes 0..n-1: the ring and complete-graph generators, and the well-formedness a graph must have (ids in range, no self-loops, no repeated neighbour, symmetric).
- `Engine` (consensus_model.dfy) holds:
  - the class `ConsensusModel`, with `Create`, `Step` (a compute loop, then a commit loop), `Run` and `Reset`;
  - the function `StepValues`, which specifies one synchronous step on plain values;
  - `Simulate`, which iterates `StepValues`.
- `Dynamics` (dynamics.dfy) holds the laws of steps and runs:
  - a noiseless linear step keeps the sum on an undirected graph;
  - max-consensus agrees in one step on the complete graph, and stays within bounds over a run;
  - isolated agents keep their values, and agreement is a fixed point;
  - concrete examples;
  - what a single merged loop (a Gauss–Seidel sweep) would compute instead.
- `Sums`, `Wrappers` and `Errors` are shared helpers: exact sums of `real` sequences, `Option`/`Result`, and the error kinds.

Randomness is an input everywhere:
- the initial values are a `seq<real>`;
- the Erdős–Rényi generator is a parameter `sample: real -> Graph`, from edge probability to graph, required to give a well-formed graph wherever the topology uses it;
- the Gaussian noise of step t for agent i is `noises[t][i]`.

Two behaviours of the program the model keeps:
- An agent's recorded neighbour list is empty until its first step, and is only then set to its graph neighbours (src/simulation/consensus_agent.py:16 and :30). It is not always equal to the adjacency.
- `step` does not check `running`. Stepping a stopped model still computes, commits and counts (src/simulation/consensus_model.py:60-66). `Step` therefore has no `running` precondition, and it never sets `running` back to true.

On rings of one and two nodes:
- A configuration needs more than one agent (src/models/configuration.py:10-12), so a valid model never builds a 1-node ring. `RingNeighbors(1, 0) == []` is the model's own choice for that case.
- A 2-node ring has a single edge, so each node has the other as its only neighbour.

## Model

| member | source | states |
|---|---|---|
| Configuration.Validate | src/models/configuration.py:10-28 | a configuration is accepted unchanged exactly when every field constraint holds; otherwise it is rejected with the non-empty set of fields that break a constraint |
| Configuration.ViolationsEmptyIffValid | src/models/configuration.py:10-28 | no field breaks its constraint exactly when the configuration is valid (both directions) |
| Configuration.WithDefaults | src/models/configuration.py:13-28 | the defaults (random, 0.3, linear, 0.0, 100, 0.1) satisfy every constraint: a configuration built from the agent count alone is valid exactly when that count is above 1, and the count is the only field that can be invalid |
| ConfigurationServices.ConfigurationService.constructor | src/services/configuration_service.py:11-17 | a new holder is empty, and reading it fails with NotConfigured |
| ConfigurationServices.ConfigurationService.SetConfiguration | src/services/configuration_service.py:19-20 | the stored configuration is replaced by c, and reading it back gives exactly c |
| ConfigurationServices.ConfigurationService.GetConfiguration | src/services/configuration_service.py:23-26 | reading succeeds exactly when a configuration is stored and returns it; before any set it fails with NotConfigured |
| ProtocolFactories.NewProtocolFactory | src/protocols/protocol_factory.py:13-14 | making a factory fails exactly when the holder is empty; otherwise the factory remembers the configuration stored at that moment |
| ProtocolFactories.CreateProtocol | src/protocols/protocol_factory.py:16-25 | kind "linear" gives a linear protocol with the step size and noise level held at creation time; "max_consensus" gives max-consensus; any other kind fails with UnknownProtocol(kind), never a fallback |
| ProtocolFactories.ValidNeverFails | src/protocols/protocol_factory.py:19-25 | for a valid configuration, creating a protocol never fails, and it is linear exactly when the kind is "linear" |
| ProtocolFactories.FactoryFromHolderNeverFails | src/protocols/protocol_factory.py:13-25 | a factory made from a set holder is made successfully and never rejects its kind |
| LinearConsensus.NextValue | src/protocols/linear_consensus.py:19-20 | an agent without neighbours keeps its value, with no noise added |
| LinearConsensus.ClosedForm | src/protocols/linear_consensus.py:23-33 | with neighbours, the next value is x + ε·(Σ xj − n·x), plus the noise sample exactly when the noise level is positive |
| LinearConsensus.NoiselessMove | src/protocols/linear_consensus.py:28-33 | with noise level 0 the next value is x + ε·Σ(xj − x), with no noise, whatever the sample |
| LinearConsensus.SumOfDifferences | src/protocols/linear_consensus.py:23-25 | the summed differences Σ(xj − x) equal the neighbours' sum less n copies of x |
| LinearConsensus.OrderIndependent | src/protocols/linear_consensus.py:23-25 | two neighbour lists holding the same values in any order give the same next value |
| LinearConsensus.FixedPoint | src/protocols/linear_consensus.py:23-33 | without noise, an agent whose neighbours all hold its value keeps that value |
| MaxConsensus.Max | src/protocols/max_consensus.py:17 | the larger of two values is at least each of them and is one of them |
| MaxConsensus.MaxOf | src/protocols/max_consensus.py:14 | the maximum of a non-empty list bounds every element and is attained by one |
| MaxConsensus.NextValue | src/protocols/max_consensus.py:9-17 | no neighbours keeps the value; otherwise the result is at least the agent's value and every neighbour's value, and it is the agent's value or some neighbour's value |
| MaxConsensus.LeastUpperBound | src/protocols/max_consensus.py:14-17 | the result is below every common upper bound of the agent's and the neighbours' values |
| MaxConsensus.Idempotent | src/protocols/max_consensus.py:14-17 | applying the rule again with the same neighbour values changes nothing |
| MaxConsensus.OrderIndependent | src/protocols/max_consensus.py:14-17 | the result does not depend on the order of the neighbours |
| Protocols.NextValue | src/domain/abstract_protocol.py:10-22 | for every protocol, an agent without neighbours keeps its value |
| Protocols.CalculateNextValue | src/domain/abstract_protocol.py:10-22 | the rule reads only the values of the states; no neighbours keeps the value, and max-consensus never lowers it |
| Protocols.OrderIndependent | src/domain/abstract_protocol.py:10-22 | for every protocol the next value does not depend on the order of the neighbours |
| Agents.ConsensusAgent.constructor | src/simulation/consensus_agent.py:10-19 | a new agent has state (id, initial value, no neighbours) and pending value equal to its initial value |
| Agents.ConsensusAgent.Step | src/simulation/consensus_agent.py:21-33 | the compute phase records exactly the neighbours' ids, sets the pending value to the protocol applied to the pre-call values, and leaves the agent's own value and id alone |
| Agents.ConsensusAgent.Advance | src/simulation/consensus_agent.py:35-39 | the commit phase sets the value to the pending value and changes nothing else; with no step before it, the value is unchanged |
| Topology.RingAdjacency | src/simulation/consensus_model.py:33-34 | on the ring, j is a neighbour of i exactly when i ≠ j and one follows the other mod n; from 3 nodes on, each node has two neighbours, and 2 nodes share a single edge |
| Topology.RingWellFormed | src/simulation/consensus_model.py:33-34 | the ring has ids in range, no self-loops, no repeated neighbours, and symmetric adjacency |
| Topology.CompleteAdjacency | src/simulation/consensus_model.py:35-36 | in the complete graph j is a neighbour of i exactly when i ≠ j |
| Topology.CompleteWellFormed | src/simulation/consensus_model.py:35-36 | the complete graph has ids in range, no self-loops, no repeated neighbours, and symmetric adjacency |
| Topology.SampleProbability | src/simulation/consensus_model.py:29-42 | the edge probability is the configured one for "random", and 0.3 for an unknown topology name |
| Topology.InitializeNetwork | src/simulation/consensus_model.py:28-42 | "ring" gives the ring; "fully_connected" gives the complete graph; "random" gives the generator's graph for the configured probability; an unknown name gives the generator's graph for 0.3, never a failure; the result is always well formed |
| Engine.NeighborsOf | src/simulation/consensus_agent.py:26-30 | the agents picked for node i carry exactly the ids g[i] and hold the values of node i's neighbours |
| Engine.ComputeAll | src/simulation/consensus_model.py:61 | after the compute loop every agent's state still holds its pre-step value, its neighbour ids are its adjacency, and its pending value is the synchronous step's value for it |
| Engine.ConsensusModel.Init | src/simulation/consensus_model.py:17-23 | a new model is running with step count 0 and keeps the holder, the factory and the configuration |
| Engine.ConsensusModel.Create | src/simulation/consensus_model.py:17-26 | construction fails with NotConfigured on an empty holder, and with the factory's error on an unknown kind; otherwise it yields a running model with count 0, the configured graph, and n fresh agents with ids 0..n-1 holding the initial values, the factory's protocol and no neighbours |
| Engine.ConsensusModel.InitializeNetwork | src/simulation/consensus_model.py:28-44 | the graph becomes the one for the configured topology, drawn from the generator at the probability that topology uses; agents, counter and flag are untouched |
| Engine.ConsensusModel.CreateAgents | src/simulation/consensus_model.py:46-56 | one fresh agent per node with id i, its initial value, the given protocol and no neighbours; graph, counter and flag untouched |
| Engine.ConsensusModel.ComputePhase | src/simulation/consensus_model.py:61 | no current value changes, every pending value is the protocol applied to pre-step values only, and each agent's neighbour ids are its adjacency |
| Engine.ConsensusModel.CommitPhase | src/simulation/consensus_model.py:62 | every value becomes its pending value, and nothing else changes |
| Engine.ConsensusModel.CountStep | src/simulation/consensus_model.py:64-66 | the count grows by exactly one, and running becomes false once the count reaches the budget; it is never set back to true |
| Engine.ConsensusModel.Step | src/simulation/consensus_model.py:60-66 | the new values are the synchronous step of the pre-step values; the count grows by one; running is the old flag and count < max_steps; the agent list, graph and protocol are unchanged |
| Engine.ConsensusModel.Run | src/simulation/consensus_model.py:68-70 | the loop ends stopped; a running model ends with count == max_steps, having taken exactly the steps left in its budget, with its values equal to that many synchronous steps; a stopped model takes none |
| Engine.ConsensusModel.Reset | src/simulation/consensus_model.py:72-79 | count 0, running, the configured graph rebuilt, and exactly n fresh agents with ids 0..n-1 holding the new initial values and no neighbours |
| Dynamics.StepMoves | src/protocols/linear_consensus.py:28-33 | in a noiseless linear step every node moves by ε times its summed differences |
| Dynamics.LinearStepShiftsSum | src/protocols/linear_consensus.py:23-33 | a noiseless linear step adds ε times the total of the summed differences to the sum of the values |
| Dynamics.PullsAreRows | src/protocols/linear_consensus.py:23-25 | with repetition-free neighbour lists, the total of the summed differences is the total of the edge-by-edge differences |
| Dynamics.DiffSumIsMasked | src/protocols/linear_consensus.py:23-25 | one agent's summed differences over a repetition-free neighbour list are its differences to the listed nodes, taken in node order |
| Dynamics.FlowsCancel | src/protocols/linear_consensus.py:23-25 | on a symmetric graph the edge-by-edge differences cancel out: each edge contributes xj − xi once and xi − xj once |
| Dynamics.LinearStepKeepsSum | src/protocols/linear_consensus.py:23-33 | with no noise, on a well-formed (undirected) graph, one synchronous linear step keeps the sum of all values |
| Dynamics.LinearRunKeepsSum | src/simulation/consensus_model.py:68-70 | with no noise, on a well-formed graph, a whole linear run keeps the sum of all values |
| Dynamics.MaxCompleteAgreesInOneStep | src/protocols/max_consensus.py:14-17 | on the complete graph one max-consensus step gives every agent the global maximum |
| Dynamics.MaxRunBounds | src/protocols/max_consensus.py:14-17 | over a max-consensus run no value decreases, and none exceeds the initial maximum |
| Dynamics.IsolatedKeepsValue | src/simulation/consensus_model.py:68-70 | an agent without neighbours keeps its initial value for the whole run, under either protocol |
| Dynamics.AgreementIsFixed | src/simulation/consensus_model.py:60-62 | once all agents agree, a noiseless step of either protocol changes nothing, on any graph |
| Dynamics.AgreementPersists | src/simulation/consensus_model.py:68-70 | once all agents agree, a noiseless run keeps the agreed values for good |
| Dynamics.RingOfThree | src/simulation/consensus_model.py:33-34 | the 3-ring's adjacency lists, and that it is well formed |
| Dynamics.LinearRingExample | src/protocols/linear_consensus.py:33 | on the 3-ring with values [0, 10, 20], ε = 0.5 and no noise, one step gives [15, 10, 5] |
| Dynamics.MaxRingExample | src/protocols/max_consensus.py:17 | max-consensus on the same ring and values gives [20, 20, 20] in one step |
| Dynamics.SweepDiffersFromStep | src/simulation/consensus_model.py:61-62 | merging the two phases into one in-place loop would give [15, 17.5, 16.25] on that example instead of [15, 10, 5], and would not keep the sum 30; the two-phase order matters |

## Left out

- The graphical interface (src/ui/gui.py), the plotting driver (src/verification.py) and the launcher (src/main.py) are presentation and I/O. They are not part of this model.
- Logging (src/services/logger_service.py) is output only. The warning for an unknown topology and the error log of the factory are not modelled; only the behaviour around them is.
- Randomness is replaced by inputs. The uniform initial values, the Erdős–Rényi sample (which must be a well-formed graph) and the Gaussian noise samples are all parameters; their distributions are not modelled.
- Values are exact reals, not IEEE-754 doubles. The sum-conservation and fixed-point laws hold exactly here, and only up to rounding in the program.
- Neighbour order: the ring lists node i's neighbours as [i−1, i+1], and the complete graph lists them in increasing order. The order networkx and Mesa produce is not modelled. Both update rules are proved independent of neighbour order (`Protocols.OrderIndependent`), so agent values and update results do not depend on it. The neighbour list each agent records does carry the model's order, for example [n−1, 1] for ring node 0.
- Mesa's agent set and grid are replaced by a sequence of agent objects indexed by id and by adjacency lists. `reset`'s removal of the old agents is modelled as discarding them all.
- The holder is one shared singleton: every `ConfigurationService()` call returns the same object. The model passes one holder object explicitly to everything that reads it, and does not model the `__new__` mechanics.
- Validation is modelled as a predicate and a `Validate` function over a raw configuration record. Pydantic's type coercion and its error messages are not modelled.
- Engine.ConsensusModel.Reset: requires a configuration to be stored. In the program the holder can never be emptied again once a model exists, and the linear protocol re-reads it.
- Engine.ConsensusModel.Run: requires enough noise samples for the remaining budget, one sequence per step. This does not restrict the program, where noise is drawn on demand.
- A bound on how many steps max-consensus needs to agree on a ring is not proved; only the one-step agreement on the complete graph is.
