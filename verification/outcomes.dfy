/** Failure-carrying values used by the persona pipeline.

  The Python code signals failure by returning a dictionary that holds an
  `"error"` key; here that becomes the `Err` variant of `Result`.
 */
module Outcomes {

  /** A value that may be missing (the report's "N/A"). */
  datatype Option<+T> = None | Some(value: T)

  /** Either a report or the error message that replaced it. */
  datatype Result<+T> = Ok(value: T) | Err(message: string)
}
