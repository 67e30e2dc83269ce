/** How an operation of the views fails. */
module Errors {

  /** `NotFound`: the record is absent or belongs to another owner (the two
      are not told apart). `InsufficientStock`: an outbound asks for more than
      the product's stock total, which it reports. */
  datatype Error = NotFound | InsufficientStock(available: nat)

  /** The outcome of an operation that returns nothing. */
  datatype Outcome = Done | Failed(error: Error)

  /** The outcome of an operation that returns a value. */
  datatype Result<T> = Ok(value: T) | Err(error: Error)
}
