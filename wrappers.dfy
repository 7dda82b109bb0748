/**
 * Shared result types. `Option` stands for a Python `None` / JavaScript
 * `null`; `Result` carries the exception a Python or JavaScript operation
 * raises instead of returning.
 */
module Wrappers {

  datatype Option<T> = None | Some(value: T)

  /** The exceptions the modelled code raises (or that reach its caller). */
  datatype Failure =
    | TypeError      // wrong argument type, calling a non-callable, null dereference
    | IndexError     // sequence index out of range
    | KeyError       // missing dictionary key
    | ValueError     // `int()` of text that is not a number
    | AttributeError // attribute access on None
    | NameError      // a name the module never binds
    | NotFound       // an HTTP 404 abort
    | DomNotFound    // a DOMException NotFoundError (insertBefore with a foreign reference node)

  datatype Result<T> = Ok(value: T) | Err(error: Failure)

  /** What an event handler did: returned early, changed the page, or threw
   *  (what it changed before the exception stays changed; each handler's
   *  contract says what that is). */
  datatype Outcome = Ignored | Applied | Threw(error: Failure)
}
