/** Go `error` values as the core produces and inspects them. */
module Errors {

  datatype Error =
    | AlreadyUpToDate                          // go-git's sentinel `NoErrAlreadyUpToDate`
    | Failed(message: string)                  // an error from a collaborator that is not modelled
    | Wrapped(context: string, cause: Error)   // `fmt.Errorf("<context>: %w", cause)`
  {
    /** `err.Error()`. */
    function Message(): string
    {
      match this
      case AlreadyUpToDate => "already up-to-date"
      case Failed(m) => m
      case Wrapped(c, e) => c + ": " + e.Message()
    }
  }

  /** `fmt.Errorf("<context>: %w", e)`. */
  function Wrap(context: string, e: Error): (w: Error)
    ensures w != AlreadyUpToDate
    ensures w.Message() == context + ": " + e.Message()
  {
    Wrapped(context, e)
  }

  /** `upToDate(err)`: is this go-git's "already up-to-date" result rather than a failure? */
  predicate UpToDate(e: Error)
    ensures UpToDate(e) ==> e.Message() == "already up-to-date"
  {
    e == AlreadyUpToDate
  }
}
