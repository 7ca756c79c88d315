/** The generic response envelope every service operation returns
    (GenericResponseDto<T>: IsSuccess, Message, Data), together with the
    outcome of a call that may raise an exception instead of returning. */
module Envelopes {

  datatype Option<+T> = None | Some(value: T)

  /** GenericResponseDto<T>; a `Data` left at null is `None`. */
  datatype Response<+T> = Response(isSuccess: bool, message: string, data: Option<T>)

  /** The exceptions that can leave a store call. */
  datatype Error =
    | StoreFailure          // the database raised (unreachable, constraint violation, ...)
    | OfferNotFound(id: int) // JobOfferRepository.UpdateJobOfferAsync on a missing id

  /** The message of every envelope built for an unexpected server error. */
  const InternalServerError := "Ocurrió un error interno en el servidor. Por favor, inténtelo de nuevo más tarde."

  /** What a call produces: a returned value, or an exception that propagates. */
  datatype Outcome<+T> = Returned(value: T) | Thrown(error: Error)

  /** A failure envelope with a null payload: the "not found" shape the controllers test for. */
  predicate IsFailureWithoutData<T>(r: Response<T>) {
    !r.isSuccess && r.data.None?
  }
}
