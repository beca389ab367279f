/**
 * Error outcomes of the converters. Python raises exceptions where the
 * model returns `Err`: a failed dictionary lookup (KeyError), indexing the
 * first element of an empty list (IndexError) and `max` of an empty list
 * (ValueError).
 */
module Outcomes {

  datatype Option<+T> = None | Some(value: T)

  datatype Error =
    | IndexError
    | KeyError
    | ValueError

  datatype Result<+T> = Ok(value: T) | Err(error: Error)
}
