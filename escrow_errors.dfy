/** The typed failures of the escrow operations (`EscrowError`). */
module EscrowErrors {
  import opened Base

  /** Every variant of the error enum. `DisputeAlreadyResolved` is declared by the
      system but no operation returns it; a repeated vote is a `ValidationError`. */
  datatype EscrowError =
    | NotFound(id: Uuid)
    | InvalidStateTransition(from: string, to: string)
    | InsufficientFunds(required: real, provided: real)
    | Unauthorized(user: Uuid)
    | InvalidPin
    | Expired
    | DisputeAlreadyResolved
    | NotArbitrator
    | StorageError(detail: string)
    | ValidationError(detail: string)

  /** `Result<T, EscrowError>`. */
  datatype Result<T> = Ok(value: T) | Err(error: EscrowError)
}
