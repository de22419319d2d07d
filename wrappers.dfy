/** Optional values (the nullable sqlite columns) and results with an error (the
    refusal messages the bot sends back instead of raising). */
module Wrappers {

  datatype Option<+T> = None | Some(value: T)

  datatype Result<+R, +E> = Success(value: R) | Failure(error: E)
}
