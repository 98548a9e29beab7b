/** Failure-compatible wrappers shared by the model: an optional value, a value
    or an error, and a pass/fail outcome. An `Err`/`Fail` stands for a thrown
    JavaScript exception carrying its message. */
module Common {

  datatype Option<+T> = None | Some(value: T)

  datatype Result<+T> = Ok(value: T) | Err(error: string)

  datatype Outcome = Pass | Fail(error: string)
}
