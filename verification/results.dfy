/** Failure-carrying wrappers shared by every module of the model, and the
    errors the modelled Python code can raise. */
module Results {

  datatype Option<+T> = None | Some(value: T)

  /** Either a computed value or the error the Python code raises instead. */
  datatype Result<+T, +E> = Ok(value: T) | Err(error: E) {
    predicate IsFailure() {
      Err?
    }

    function PropagateFailure<U>(): Result<U, E>
      requires Err?
    {
      Err(error)
    }

    function Extract(): T
      requires Ok?
    {
      value
    }
  }

  /** Exceptions that escape the modelled functions.  `Http` is FastAPI's
      HTTPException (a status code); the others are the built-in Python
      exceptions named in each comment. */
  datatype Error =
    | Http(status: int)
    | MissingKey(key: string)       // KeyError on a dict key or DataFrame column
    | MarkerNotFound(marker: string) // StopIteration from `next` over the headers
    | NotText                       // TypeError/AttributeError: a string operation on a non-string
    | NotInteger                    // ValueError from an integer conversion
    | NoRows                        // IndexError from `iloc[0]` on an empty frame
    | UnknownStrategy               // NotImplementedError from the chunker factory
    | FetchFailed                   // any other exception while fetching a sheet
    | ServiceFailed                 // an exception raised by a remote service client
    | MissingAttribute(name: string) // AttributeError on a class attribute that is not defined
}
