/** Optional values and error results shared by the similarity model. */
module Outcomes {

  /** A value that may be absent (Python's `None`). */
  datatype Option<+T> = None | Some(value: T)

  /** The exceptions the core can raise. */
  datatype Error =
    | KeyError(key: string)   // a dictionary lookup on a missing key
    | StatisticsError         // `statistics.mean` of an empty list

  /** Either a value or the exception raised instead. */
  datatype Result<+T> = Ok(value: T) | Err(error: Error)

  /** A string argument that may be `None`, read as the empty string when absent. */
  function OrEmpty(s: Option<string>): string
  {
    match s
    case None => ""
    case Some(v) => v
  }
}
