/** Optional values and results with an error, for absent inputs and failed calls. */
module Optional {

  datatype Option<T> = None | Some(value: T)

  datatype Result<T> = Ok(value: T) | Err(error: string)
}
