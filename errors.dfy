/** The errors the simulation core raises, one constructor per kind. */
module Errors {

  /** The fields of a simulation configuration, used to report which ones are invalid. */
  datatype Field =
    | NumberOfAgents
    | Topology
    | ConnectionProbability
    | ProtocolType
    | NoiseLevel
    | MaxSteps
    | Epsilon

  datatype Error =
    /** Validation of a configuration failed on these fields. */
    | InvalidConfiguration(fields: set<Field>)
    /** The configuration holder was read before any configuration was set. */
    | NotConfigured
    /** The protocol factory was asked for a protocol kind it does not know. */
    | UnknownProtocol(kind: string)
}
