/** What the document store throws or reports as a failure. */
module Errors {
  import opened Json

  /** The engine's own `TypeError`s that the modelled code can run into. */
  datatype TypeErrorCause =
    | NoDollarInKey        // `key.split("$")` gave no right-hand part to trim
    | PropertyOfNullish    // `$elemMatch` read from null or undefined
    | NotIterable          // `for ... of` over a value that is not an array

  datatype DbError =
    | DuplicateDocument(id: string)
    | DocumentNotFound(criteria: Fields)
    | PullUpdateArray(document: string, key: string)
    | NotArray                       // `new Error("NOT ARRAY")`
    | TypeError(cause: TypeErrorCause)
    | OperatorFailed(operator: string)   // thrown by an operator body outside the model
}
