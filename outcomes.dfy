/**
 * The failures the external collaborators (the HomeKit pairing library, the device connection and
 * the controller) can raise, and the way an entry point of the integration ends: it returns a value
 * or raises an exception.
 */
module Outcomes {
  import opened Const

  datatype Option<T> = None | Some(value: T)

  /** The exception kinds an awaited collaborator call can raise. */
  datatype Failure =
    | Timeout                  // asyncio.TimeoutError
    | AccessoryNotFound        // aiohomekit AccessoryNotFoundError
    | Encryption               // aiohomekit EncryptionError
    | AccessoryDisconnected    // aiohomekit AccessoryDisconnectedError
    | Unclassified(name: string)  // any other exception class

  /** The result of one awaited collaborator call. */
  datatype Outcome = Ok | Fail(failure: Failure)

  /** The four kinds that setup turns into "not ready, retry later". */
  predicate IsRetryable(f: Failure)
  {
    match f
    case Timeout => true
    case AccessoryNotFound => true
    case Encryption => true
    case AccessoryDisconnected => true
    case Unclassified(_) => false
  }

  /** An exception leaving an entry point. */
  datatype Exc =
    | Failed(failure: Failure)          // a collaborator's exception, propagated unchanged
    | ConfigEntryNotReady(cause: Failure)  // raise ConfigEntryNotReady from <cause>
    | KeyError(key: string)             // a dictionary lookup of a missing key
    | Invalid(attrs: set<Attr>)         // the service schema refused these keys

  /** How an entry point ends. */
  datatype Exit<T> = Return(value: T) | Raise(exc: Exc)
}
