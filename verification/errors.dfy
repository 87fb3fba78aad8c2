/** The contract's error kinds (contracts/cw1-whitelist/src/error.rs) and the
    failure-compatible wrappers the operations return. */
module ContractErrors {

  /** The storage layer's own failure, reached through `?` on a `load` of a
      missing key. No other storage failure is modelled. */
  datatype StdError = KeyNotFound

  datatype ContractError =
    | Std(std: StdError)
    | Unauthorized
    | InsufficientResources(requested: nat, available: nat)
    | OverRelease(requested: nat, usedAmount: nat)
    | ResourceTypeNotFound
    | OtherError
    | ResourceOverflow
    | NotFound
    | AlreadyExists

  /** `Result<T, ContractError>`; usable with `:-` like Rust's `?`. */
  datatype Result<+T> = Ok(value: T) | Err(error: ContractError) {
    predicate IsFailure() {
      Err?
    }

    function PropagateFailure<U>(): Result<U>
      requires Err?
    {
      Err(error)
    }

    function Extract(): T
      requires Ok?
    {
      value
    }
  }

  datatype Option<+T> = None | Some(value: T)
}
