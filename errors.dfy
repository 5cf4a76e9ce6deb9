/** Error taxonomy of the tool (src/error.rs) and the failure-compatible
    wrappers the model uses for Rust's `Result` and `Option`. */
module Errors {

  /** The variants of the tool's error enum. Only the variants raised by
      the modelled core carry behaviour; the rest mirror the enum. */
  datatype Error =
    | WrongFile
    | WrongJSONFile
    | ConversionError
    | HashMapError
    | ReadingJSONError
    | MetricsError
    | LanguageError
    | WritingError
    | ConcurrentError
    | TypeError
    | PathConversionError
    | MutexError
    | ThresholdsError

  datatype Option<+T> = None | Some(value: T)

  /** `Option::ok_or`. */
  function OkOr<T>(o: Option<T>, e: Error): (r: Result<T>)
    ensures r.Ok? <==> o.Some?
    ensures r.Ok? ==> r.value == o.value
    ensures r.Err? ==> r.error == e
  {
    if o.Some? then Ok(o.value) else Err(e)
  }

  datatype Result<+T> = Ok(value: T) | Err(error: Error) {
    predicate IsFailure() { Err? }

    function PropagateFailure<U>(): Result<U>
      requires Err?
    {
      Err(error)
    }

    function Extract(): T
      requires Ok?
    {
      value
    }
  }
}
