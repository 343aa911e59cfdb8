/** Failure kinds and result wrappers shared by the inventory model. */
module Outcomes {

  /** Why a tagged record could not be turned into a product. */
  datatype Invalid =
    | MissingFields(variant: string)   // a required key of that variant is absent
    | WrongFieldType(variant: string)  // a required key holds the wrong kind of value
    | UnknownType                      // "type" is absent or names no variant

  /** The exception classes of the inventory, plus the "not found" report of a lookup. */
  datatype Error =
    | DuplicateProduct(id: string)
    | InsufficientStock(available: int)
    | InvalidProductData(reason: Invalid)
    | NotFound(id: string)

  datatype Result<+T> = Ok(value: T) | Err(error: Error)

  /** The outcome of an operation that only changes state. */
  datatype Status = Done | Failed(error: Error)

  datatype Option<+T> = None | Some(value: T)
}
