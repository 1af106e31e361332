/**
 * The process-wide holder of the active configuration. The program keeps exactly one
 * instance; every caller that asks for the service is handed that same object.
 */
module ConfigurationServices {
  import opened Wrappers
  import opened Errors
  import opened Configuration

  class ConfigurationService {
    /** The stored configuration; None until the first SetConfiguration. */
    var config: Option<ValidConfig>

    /** The first request for the service creates it empty. */
    constructor ()
      ensures config == None
      ensures GetConfiguration() == Failure(NotConfigured)
    {
      config := None;
    }

    /** Replaces the stored configuration; reading it back gives exactly c. */
    method SetConfiguration(c: ValidConfig)
      modifies this
      ensures config == Some(c)
      ensures GetConfiguration() == Success(c)
    {
      config := Some(c);
    }

    /** The stored configuration, or NotConfigured before any configuration was set. */
    function GetConfiguration(): (r: Result<ValidConfig, Error>)
      reads this
      ensures r.Success? <==> config.Some?
      ensures r.Success? ==> config == Some(r.value)
      ensures r.Failure? ==> r.error == NotConfigured
    {
      match config
      case None => Failure(NotConfigured)
      case Some(c) => Success(c)
    }
  }
}
