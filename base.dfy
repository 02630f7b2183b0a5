/** Failure-compatible wrappers and the exceptions the antenna switch raises. */
module Base {

  datatype Option<+T> = None | Some(value: T)

  /** The .NET exceptions that cross the core's boundaries, as values. */
  datatype Error =
    | Timeout                          // TimeoutException("Response timed out")
    | SocketFailure                    // SocketException from send or receive
    | Cancelled                        // OperationCanceledException of the caller's token
    | InvalidOperation(message: string)
    | KeyNotFound                      // Dictionary indexer on an absent key
    | Format                           // int.Parse on text that is not an integer
    | Overflow                         // int.Parse on an integer outside 32 bits
    | ArgumentOutOfRange

  datatype Result<+T> = Ok(value: T) | Err(error: Error)
}
