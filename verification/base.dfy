/**
 * Values shared by every module of the model: an optional value, the
 * Python exceptions the modelled code raises or catches, and a result that
 * is either a value or such an exception.
 */
module Base {

  datatype Option<+T> = None | Some(value: T)

  /** The exceptions that matter to the modelled code, each with what `str(e)` prints. */
  datatype PyError =
    | KeyError(key: string)          // a dictionary lookup of a missing key
    | ValueError(message: string)    // a failed `float(...)` conversion
    | ZeroDivisionError              // `x / 0` on Python numbers
    | FileNotFoundError(message: string)
    | Raised(message: string)        // any other exception, known only by its text
  {
    /** The text `str(e)` gives: a KeyError prints the quoted key. */
    function Text(): string
    {
      match this
      case KeyError(k) => "'" + k + "'"
      case ValueError(m) => m
      case ZeroDivisionError => "division by zero"
      case FileNotFoundError(m) => m
      case Raised(m) => m
    }
  }

  datatype Result<+T> = Ok(value: T) | Err(error: PyError)

  /** What an external text-producing service (an LLM provider) answers: a text or a failure message. */
  datatype Reply = Answer(text: string) | Failure(message: string)
}
