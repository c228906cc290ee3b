/** Outcomes of the modelled Python calls: a value, or the exception the call raises. */
module Wrappers {

  /** The Python exceptions that the modelled code raises or lets propagate. */
  datatype Error =
    | KeyError            // missing key, expired entry, empty store
    | IndexError          // deque.popleft() or random.choice() on an empty sequence
    | TypeError           // bad argument count, subscripting a released (None) field
    | AttributeError      // calling a method on a released (None) field, missing sync hook
    | RuntimeError        // dictionary changed size during iteration
    | ImportError         // unknown URI scheme
    | UnboundLocalError   // reading a loop variable the loop never bound

  /** Python's `None`-or-value, as used by `dict.get` and `kw.get`. */
  datatype Option<T> = None | Some(value: T) {
    function GetOr(default: T): T {
      match this
      case Some(v) => v
      case None => default
    }
  }

  /** A call that returns a value or raises. */
  datatype Result<T> = Ok(value: T) | Err(error: Error)

  /** A call that returns nothing or raises. */
  datatype Outcome = Pass | Fail(error: Error)
}
