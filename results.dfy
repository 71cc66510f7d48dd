/** Option, Result and the exceptions the generator can raise. */
module Results {

  datatype Option<+T> = None | Some(value: T)

  /** The Python exceptions the modelled code raises, named after their cause. */
  datatype Error =
    | NotASchema          // ValueError: an element of the group list is not a Schema
    | NotAFlaskApp        // TypeError: init_app received a missing or non-Flask app
    | NoneAttribute       // AttributeError: rule or method of an unbound endpoint is None
    | MissingAttribute    // AttributeError: an attribute the object never received
    | MissingMethods      // TypeError/IndexError: options["methods"] is absent or empty
    | QueryIsList         // AttributeError: a list of query models has no __name__
    | QueryTitleMismatch  // KeyError: no generated schema carries the query model's name
    | TagsNone            // TypeError: unpacking a tags list that is None
    | InvalidDeferred     // ValueError: a blueprint without a list of deferred functions
    | NoMatchingMeta      // ValueError: a route binding with no registered endpoint

  datatype Result<+T> = Ok(value: T) | Err(error: Error) {
    predicate IsFailure() { Err? }
    function PropagateFailure<U>(): Result<U>
      requires Err?
    {
      Err(error)
    }
    function Extract(): T
      requires Ok?
    {
      value
    }
  }
}
