/** Option and Result: the two failure-carrying shapes the model uses in place
    of Python's None returns and raised exceptions. */
module Wrappers {

  datatype Option<+T> = None | Some(value: T)

  /** The exceptions the mapping layer and the styling pass can raise. */
  datatype Error =
    | UnknownTag(tag: string)            // KeyError from both registries
    | AmbiguousChild(role: string)       // the string raised by __getattribute__
    | MissingAttribute(name: string)     // AttributeError
    | MissingKey(key: string)            // KeyError on a dict lookup (layout or palette)
    | MalformedValue(what: string)       // AssertionError / TypeError on a value of the wrong shape
    | IndexOutOfRange(index: int)        // IndexError from a list

  datatype Result<+T> = Ok(value: T) | Err(error: Error) {
    predicate IsFailure() { Err? }
    function PropagateFailure<U>(): Result<U>
      requires Err?
    {
      Err(error)
    }
    function Extract(): T
      requires Ok?
    {
      value
    }
  }
}
