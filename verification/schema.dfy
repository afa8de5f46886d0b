/**
 * What a Mongoose model does when a document is validated and saved:
 * `required` string paths reject a missing or empty value, enum paths reject
 * values outside their list, and a unique index rejects a second document
 * with the same key (MongoDB error code 11000).
 */
module Schema {
  import opened Wrappers
  import Text

  /** A document identifier (an ObjectId in the database). */
  type Id = nat

  datatype FieldError = FieldError(path: string, message: string)

  /** A Mongoose ValidationError: the model's name and one entry per failing path. */
  datatype ValidationError = ValidationError(model: string, errors: seq<FieldError>)

  /** Why a save did not happen. */
  datatype SaveError =
    | Invalid(validation: ValidationError)
    | DuplicateKey(keys: seq<string>)       // MongoDB error 11000, with the keys of the index
    | HookFailed(message: string)           // an exception thrown by a pre-save hook

  function RequiredError(path: string): FieldError {
    FieldError(path, "Path `" + path + "` is required.")
  }

  /** The `required` check of a string path: absent and empty values fail. */
  function RequireString(value: Option<string>, path: string): (errs: seq<FieldError>)
    ensures errs == [] <==> value.Some? && value.value != ""
    ensures errs != [] ==> errs == [RequiredError(path)]
  {
    if value.Some? && value.value != "" then [] else [RequiredError(path)]
  }

  /** The `required` check of a path of any other type. */
  function RequirePresent<T>(value: Option<T>, path: string): (errs: seq<FieldError>)
    ensures errs == [] <==> value.Some?
  {
    if value.Some? then [] else [RequiredError(path)]
  }

  /** The text of `ValidationError.message`: "<Model> validation failed: <path>: <message>, ...". */
  function ValidationMessage(e: ValidationError): string {
    e.model + " validation failed: " + Text.Join(seq(|e.errors|, i requires 0 <= i < |e.errors| => e.errors[i].path + ": " + e.errors[i].message), ", ")
  }
}
