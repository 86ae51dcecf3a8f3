/** Result and Option types shared by the modules of this model. */
module Outcome {

  /** A value or an error, standing for a returned absl::Status, a
      StatusOr, a failed OP_REQUIRES or a raised Python exception. */
  datatype Result<+T, +E> = Ok(value: T) | Err(error: E)

  datatype Option<+T> = None | Some(value: T)
}
