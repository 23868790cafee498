/** Failure-carrying results shared by the whole model: `Option` stands for Rust's
    `Option` (chrono's checked date arithmetic) and `Result` for the `Result` that
    bond construction and schedule building return. */
module Outcome {

  datatype Option<T> = None | Some(value: T)

  datatype Result<T, E> = Ok(value: T) | Err(error: E)

  /** The error kinds of `BondCalculatorError`: an unknown day-count tag, and a
      calendar date that could not be built, carrying its year, month and day. */
  datatype BondError =
    | DaycountError(daycount: string)
    | DateError(year: int, month: nat, day: nat)
}
