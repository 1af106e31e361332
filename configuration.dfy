/**
 * The parameters of one simulation run, with the field constraints and defaults that
 * validation enforces when a configuration is built.
 */
module Configuration {
  import opened Wrappers
  import opened Errors

  datatype Config = Config(
    numberOfAgents: int,
    topology: string,
    connectionProbability: real,
    protocolType: string,
    noiseLevel: real,
    maxSteps: int,
    epsilon: real)

  const Topologies: set<string> := {"random", "ring", "fully_connected"}
  const ProtocolTypes: set<string> := {"linear", "max_consensus"}

  const DefaultTopology: string := "random"
  const DefaultConnectionProbability: real := 0.3
  const DefaultProtocolType: string := "linear"
  const DefaultNoiseLevel: real := 0.0
  const DefaultMaxSteps: int := 100
  const DefaultEpsilon: real := 0.1

  /** Every field constraint of a simulation configuration. */
  predicate Valid(c: Config)
  {
    && c.numberOfAgents > 1
    && c.topology in Topologies
    && 0.0 <= c.connectionProbability <= 1.0
    && c.protocolType in ProtocolTypes
    && c.noiseLevel >= 0.0
    && c.maxSteps > 0
    && 0.0 < c.epsilon <= 1.0
  }

  /** A configuration that passed validation. */
  type ValidConfig = c: Config | Valid(c)
    witness Config(2, "random", 0.3, "linear", 0.0, 100, 0.1)

  /** The fields of c that break their constraint. */
  function Violations(c: Config): set<Field>
  {
    (if c.numberOfAgents > 1 then {} else {NumberOfAgents})
    + (if c.topology in Topologies then {} else {Topology})
    + (if 0.0 <= c.connectionProbability <= 1.0 then {} else {ConnectionProbability})
    + (if c.protocolType in ProtocolTypes then {} else {ProtocolType})
    + (if c.noiseLevel >= 0.0 then {} else {NoiseLevel})
    + (if c.maxSteps > 0 then {} else {MaxSteps})
    + (if 0.0 < c.epsilon <= 1.0 then {} else {Epsilon})
  }

  /** The configuration built from the number of agents alone, every other field at its default. */
  function WithDefaults(numberOfAgents: int): (c: Config)
    ensures c.numberOfAgents == numberOfAgents
    ensures Valid(c) <==> numberOfAgents > 1
    ensures Violations(c) == if numberOfAgents > 1 then {} else {NumberOfAgents}
  {
    Config(numberOfAgents, DefaultTopology, DefaultConnectionProbability, DefaultProtocolType,
           DefaultNoiseLevel, DefaultMaxSteps, DefaultEpsilon)
  }

  /**
   * Validation at construction: the configuration is accepted unchanged exactly when it
   * meets every constraint, and otherwise rejected with the set of fields that break one.
   */
  function Validate(c: Config): (r: Result<ValidConfig, Error>)
    ensures r.Success? <==> Valid(c)
    ensures r.Success? ==> r.value == c
    ensures r.Failure? ==> Violations(c) != {} && r.error == InvalidConfiguration(Violations(c))
  {
    if Violations(c) == {} then
      assert Valid(c) by { ViolationsEmptyIffValid(c); }
      Success(c)
    else
      ViolationsEmptyIffValid(c);
      Failure(InvalidConfiguration(Violations(c)))
  }

  /** A configuration breaks no constraint exactly when it is valid. */
  lemma ViolationsEmptyIffValid(c: Config)
    ensures Violations(c) == {} <==> Valid(c)
  {
    if !Valid(c) {
      if c.numberOfAgents <= 1 { assert NumberOfAgents in Violations(c); }
      else if c.topology !in Topologies { assert Topology in Violations(c); }
      else if !(0.0 <= c.connectionProbability <= 1.0) { assert ConnectionProbability in Violations(c); }
      else if c.protocolType !in ProtocolTypes { assert ProtocolType in Violations(c); }
      else if c.noiseLevel < 0.0 { assert NoiseLevel in Violations(c); }
      else if c.maxSteps <= 0 { assert MaxSteps in Violations(c); }
      else { assert Epsilon in Violations(c); }
    }
  }
}
