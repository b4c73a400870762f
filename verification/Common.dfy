/** Small datatypes shared by every other module. */
module Common {

  datatype Option<+T> = None | Some(value: T)

  datatype Result<+T> = Ok(value: T) | Err(message: string)

  /** Truth as a count. */
  function One(b: bool): nat { if b then 1 else 0 }
}
