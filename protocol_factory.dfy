/**
 * The factory that turns the configured protocol kind into a protocol. It reads the
 * configuration holder once when it is made; an unknown kind is an error, never a fallback.
 */
module ProtocolFactories {
  import opened Wrappers
  import opened Errors
  import opened Configuration
  import opened ConfigurationServices
  import opened Protocols

  /** A factory remembers the configuration that was stored when it was made. */
  datatype ProtocolFactory = ProtocolFactory(config: Config)

  /** Making a factory reads the holder, and fails while nothing has been stored in it. */
  function NewProtocolFactory(svc: ConfigurationService): (r: Result<ProtocolFactory, Error>)
    reads svc
    ensures r.Failure? <==> svc.config.None?
    ensures r.Failure? ==> r.error == NotConfigured
    ensures r.Success? ==> svc.config.Some? && r.value.config == svc.config.value
  {
    match svc.GetConfiguration()
    case Failure(e) => Failure(e)
    case Success(c) => Success(ProtocolFactory(c))
  }

  /**
   * The protocol for the kind the factory remembers. A linear protocol takes its step size
   * and noise level from the configuration held at the moment it is created.
   */
  function CreateProtocol(f: ProtocolFactory, svc: ConfigurationService): (r: Result<Protocol, Error>)
    reads svc
    ensures f.config.protocolType == "linear" && svc.config.Some? ==>
      r == Success(Linear(svc.config.value.epsilon, svc.config.value.noiseLevel))
    ensures f.config.protocolType == "linear" && svc.config.None? ==> r == Failure(NotConfigured)
    ensures f.config.protocolType == "max_consensus" ==> r == Success(Max)
    ensures f.config.protocolType !in ProtocolTypes ==> r == Failure(UnknownProtocol(f.config.protocolType))
  {
    var kind := f.config.protocolType;
    if kind == "linear" then
      match svc.GetConfiguration()
      case Failure(e) => Failure(e)
      case Success(live) => Success(Linear(live.epsilon, live.noiseLevel))
    else if kind == "max_consensus" then
      Success(Max)
    else
      Failure(UnknownProtocol(kind))
  }

  /** A factory made from a valid configuration never rejects, while the holder is set. */
  lemma ValidNeverFails(f: ProtocolFactory, svc: ConfigurationService)
    requires Valid(f.config)
    requires svc.config.Some?
    ensures CreateProtocol(f, svc).Success?
    ensures CreateProtocol(f, svc).value.Linear? <==> f.config.protocolType == "linear"
  {
  }

  /** Every factory made from the holder succeeds and then never rejects. */
  lemma FactoryFromHolderNeverFails(svc: ConfigurationService)
    requires svc.config.Some?
    ensures NewProtocolFactory(svc).Success?
    ensures CreateProtocol(NewProtocolFactory(svc).value, svc).Success?
  {
    ValidNeverFails(NewProtocolFactory(svc).value, svc);
  }
}
