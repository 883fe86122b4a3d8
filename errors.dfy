/** Failure values shared by the model: what the Python code raises, as data. */
module Errors {

  datatype Option<+T> = None | Some(value: T)

  datatype Result<+T> = Success(value: T) | Failure(error: Error)

  /** The exceptions the configuration session can raise or report. */
  datatype Error =
    | MissingSetting(path: seq<string>)  // KeyError / TypeError on a nested lookup
    | EndOfInput                         // EOFError: input() found no line to read
    | FileNotFound(file: string)         // open() or shutil.copy on a missing file
    | Malformed(file: string)            // the YAML loader rejected the file
}
