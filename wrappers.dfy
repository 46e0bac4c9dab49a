/** Optional values and success-or-error results, used wherever the source
    has an optional field, a thrown error or a failed validation. */
module Wrappers {

  datatype Option<+T> = None | Some(value: T)

  datatype Result<+R, +E> = Success(value: R) | Failure(error: E)
}
