/** Failure-carrying result type shared by the itinerary and digest models.
    Every exception the source raises and catches becomes a `Failure` value. */
module Wrappers {

  datatype Result<+T, +E> = Success(value: T) | Failure(error: E)

  datatype Option<+T> = None | Some(value: T)
}
