/** Values, records, error details and responses shared by the serializer and the
    view mixins of the bulk extension. */
module BulkTypes {

  datatype Option<+T> = None | Some(value: T)

  datatype Result<+T> = Ok(value: T) | Err(exc: Exception)

  /** A field value as the framework sees it. `Class` stands for a Python class object;
      the framework's `empty` sentinel (what a field reads when its key is absent) is one. */
  datatype Value = Null | Bool(b: bool) | Int(n: int) | Str(s: string) | Class(name: string)

  /** The sentinel `empty` returned by a field's get_value when the key is missing. */
  const EmptySentinel: Value := Class("empty")

  /** Python truthiness of a value. */
  predicate Truthy(v: Value) {
    match v
    case Null => false
    case Bool(b) => b
    case Int(n) => n != 0
    case Str(s) => s != ""
    case Class(_) => true
  }

  /** An input record, a validated record, a stored object or a representation:
      a mapping from field name to value. */
  type Record = map<string, Value>

  /** One structured error: message and code (an ErrorDetail of the framework). */
  datatype ErrorMsg = ErrorMsg(message: string, code: string)

  /** A mapping from field name (or the non-field key) to its error messages. */
  type ErrorDetail = map<string, seq<ErrorMsg>>

  /** The error detail of a record that failed validation is never empty. */
  type FieldErrors = d: ErrorDetail | |d| > 0 witness map["non_field_errors" := []]

  const NonFieldErrorsKey: string := "non_field_errors"
  const DefaultCode: string := "invalid"
  const RequiredMessage: string := "This field is required."
  const EmptyListMessage: string := "This list may not be empty."
  const NotAllFoundMessage: string := "Could not find all objects to update."
  const InvalidIdsMessage: string := "Invalid ids"

  function NotAListMessage(typeName: string): string {
    "Expected a list of items but got type \"" + typeName + "\"."
  }

  /** The parsed request body: a JSON array of records, or anything else (named by its type). */
  datatype Body = ListBody(items: seq<Record>) | NonList(typeName: string)

  /** What `serializer._errors` holds: the index-aligned per-item list, a field dict,
      or a flat list of messages. */
  datatype Errors = PerItem(entries: seq<ErrorDetail>) | Fields(detail: ErrorDetail) | Messages(msgs: seq<ErrorMsg>)

  /** Python truthiness of `_errors`. */
  predicate ErrorsTruthy(e: Errors) {
    match e
    case PerItem(entries) => |entries| > 0
    case Fields(detail) => detail != map[]
    case Messages(msgs) => |msgs| > 0
  }

  /** `any(errors)`: some per-item entry is non-empty. */
  predicate AnyError(entries: seq<ErrorDetail>) {
    exists i :: 0 <= i < |entries| && entries[i] != map[]
  }

  /** Exceptions that leave a handler. */
  datatype Exception =
    | ValidationError(errors: Errors)
    | SkipField
    | ParseError(message: string)
    | KeyError
    | AssertionFailed

  /** One element of a multi-status payload. */
  datatype StatusRecord = Succeeded(resource: Option<Record>) | Failed(errors: ErrorDetail)

  datatype Payload = NoBody | Records(items: seq<Record>) | MultiStatus(records: seq<StatusRecord>)

  datatype Response = Response(status: int, payload: Payload)

  const HTTP_200_OK: int := 200
  const HTTP_201_CREATED: int := 201
  const HTTP_204_NO_CONTENT: int := 204
  const HTTP_207_MULTI_STATUS: int := 207
  const HTTP_400_BAD_REQUEST: int := 400

  /** What a view handler does with a request: answers it, raises, or hands it to the
      framework's single-record handler. */
  datatype Outcome = Returned(response: Response) | Raise(exc: Exception) | Delegated
}
