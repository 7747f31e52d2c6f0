/**
 * Small value types shared by every module of the model: an optional value
 * (Java's nullable reference), a result with an error, and the exceptions the
 * FSM designer throws, each carrying the message Java's getMessage() returns.
 */
module Base {

  datatype Option<+T> = None | Some(value: T)

  datatype Result<+T, +E> = Ok(value: T) | Err(error: E)

  /** The checked exceptions of the program, the one runtime exception (an
      out-of-range index) that a caller catches as `Exception`, and the
      `StackOverflowError` of a command file that loads itself, which no
      `catch (Exception e)` stops. */
  datatype Error =
    | InvalidSymbol(msg: string)
    | InvalidState(msg: string)
    | TransitionError(msg: string)
    | InvalidInput(msg: string)
    | InvalidCommand(msg: string)
    | FileOperation(msg: string)
    | InvalidFileName(msg: string)
    | InvalidFilePath(msg: string)
    | InvalidFileFormat(msg: string)
    | IndexOutOfBounds(msg: string)
    | StackOverflow(msg: string)
}
