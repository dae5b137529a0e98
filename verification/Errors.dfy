/** The errors the backend services throw. */
module Errors {

  /** One failed schema path of a Mongoose validation error and its validator's message. */
  datatype PathError = PathError(path: string, message: string)

  datatype ServiceError =
    | ProductNotFound
    | NotAuthorizedToUpdate
    | NotAuthorizedToDelete
    | NoLongerAvailable
    | TransactionNotFound
    | NotAuthorizedForTransaction
    | UserNotFound
      /** A Mongoose validation failure. `model` is the model name for a document
          validated by `create` or `save`, and empty for the update validators of a
          query, which carry no model. */
    | Validation(model: string, failures: seq<PathError>)
      /** Only raised by the guarded listing edit (see the product service). */
    | StatusLocked

  /** Mongoose's default message of a failed `required` validator. */
  function RequiredMessage(path: string): string
  {
    "Path `" + path + "` is required."
  }

  /** Mongoose's default message of a failed `enum` validator. */
  function EnumMessage(value: string, path: string): string
  {
    "`" + value + "` is not a valid enum value for path `" + path + "`."
  }

  /** The `path: message` entries of a validation error, joined by ", ". */
  function JoinFailures(failures: seq<PathError>): string
  {
    if failures == [] then ""
    else
      var head := failures[0].path + ": " + failures[0].message;
      if |failures| == 1 then head else head + ", " + JoinFailures(failures[1..])
  }

  /** The heading of a validation error: "<Model> validation failed", or just
      "Validation failed" without a model. */
  function ValidationHeading(model: string): string
  {
    if model == "" then "Validation failed" else model + " validation failed"
  }

  /** The `message` of the thrown `Error`. */
  function Message(e: ServiceError): string
  {
    match e
    case ProductNotFound => "Product not found"
    case NotAuthorizedToUpdate => "Not authorized to update this product"
    case NotAuthorizedToDelete => "Not authorized to delete this product"
    case NoLongerAvailable => "This product is no longer available"
    case TransactionNotFound => "Transaction not found"
    case NotAuthorizedForTransaction => "Not authorized to update this transaction"
    case UserNotFound => "User not found"
    case Validation(model, failures) =>
      if failures == [] then ValidationHeading(model)
      else ValidationHeading(model) + ": " + JoinFailures(failures)
    case StatusLocked => "A sold or removed product cannot change status"
  }

  /** A single failed path reads "<heading>: <path>: <message>". */
  lemma SingleFailureMessage(model: string, f: PathError)
    ensures Message(Validation(model, [f])) == ValidationHeading(model) + ": " + f.path + ": " + f.message
  {
    assert JoinFailures([f]) == f.path + ": " + f.message;
  }
}
