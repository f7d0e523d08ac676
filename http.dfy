/** Request bodies and JSON replies as the server handles them. */
module Http {
  import opened Wrappers

  /** A field of a parsed JSON body. `NonString` is any other JSON value,
      carried with the text express-validator's `toString` makes of it;
      `Date` is what the `toDate()` sanitizer leaves, with the text it parsed. */
  datatype Value = Missing | Str(s: string) | NonString(text: string) | Date(source: string)

  /** The text a string validator sees: `undefined` reads as "". */
  function Text(v: Value): string {
    match v
    case Missing => ""
    case Str(s) => s
    case NonString(t) => t
    case Date(src) => src
  }

  /** `req.body` */
  type Body = map<string, Value>

  /** `req.body[name]`, `undefined` when absent. */
  function Field(b: Body, name: string): Value {
    if name in b then b[name] else Missing
  }

  /** One entry of express-validator's `errors.array()`. */
  datatype FieldError = FieldError(path: string, msg: string)

  /** The JSON bodies the server sends. */
  datatype Payload =
    | Errors(errors: seq<FieldError>)                              // { success: false, errors }
    | Message(success: bool, message: string, stack: Option<string>) // { success, message[, stack] }
    | AdminView(id: nat, firstName: Value, lastName: Value, email: string, token: Option<string>)
                                                                   // { success: true, _id, firstName, lastName, email[, token] }

  datatype Response = Response(status: int, payload: Payload)

  /** `res.status(status).json({ success: false, message })` */
  function Fail(status: int, message: string): Response {
    Response(status, Message(false, message, None))
  }
}
