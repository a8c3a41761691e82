/** Failure-carrying values shared by the whole model. */
module Outcomes {

  datatype Option<+T> = None | Some(value: T)

  /** The value an operation returned, or the exception it raised. */
  datatype Result<+T, +E> = Ok(value: T) | Err(error: E)

  /**
   * What one call into the S3 client does: it returns a value, raises botocore's
   * ClientError (the only exception the storage services catch), or raises any
   * other exception, which the services let propagate with its own message.
   */
  datatype Call<+T> = Returned(value: T) | ClientError(detail: string) | OtherError(detail: string)
}
