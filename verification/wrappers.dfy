/** Failure-carrying values shared by the model: an absent value, and the outcome
    of a call into a collaborator (the language model, storage) that may fail. */
module Wrappers {

  datatype Option<+T> = None | Some(value: T) {

    /** The wrapped value, or `default` when there is none. */
    function GetOr(default: T): T {
      match this
      case Some(v) => v
      case None => default
    }
  }

  /** The outcome of an asynchronous call that either resolves or rejects. */
  datatype Result<+T> = Success(value: T) | Failure(message: string)
}
