/** Result and option types shared by every component. */
module Outcomes {

  datatype Option<+T> = None | Some(value: T)

  /** A Python call: a returned value or a raised error. */
  datatype Result<+T> = Ok(value: T) | Err(error: string)
}
