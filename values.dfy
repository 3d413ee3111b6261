/** Values shared by every part of the model: optional values, the JSON values that
    request bodies, session entries and remote-store records carry, the outcome of a
    remote read, and the replies the HTTP handlers produce. */
module Values {

  datatype Option<+T> = None | Some(value: T)

  /** A JSON value as Flask's request parser and the remote store's API produce it
      (numbers are integers here; floating point is not modelled). */
  datatype Json =
    | JNull
    | JBool(b: bool)
    | JInt(i: int)
    | JStr(s: string)
    | JArr(items: seq<Json>)
    | JObj(members: map<string, Json>)

  /** Python truthiness of a JSON value: `None`, `False`, `0`, `''`, `[]` and `{}` are false. */
  predicate Truthy(j: Json)
  {
    match j
    case JNull => false
    case JBool(b) => b
    case JInt(i) => i != 0
    case JStr(s) => s != ""
    case JArr(items) => |items| > 0
    case JObj(m) => |m| > 0
  }

  /** `d.get(key, default)` on a Python dict. */
  function GetOr(d: map<string, Json>, key: string, default: Json): (r: Json)
    ensures key in d ==> r == d[key]
    ensures key !in d ==> r == default
  {
    if key in d then d[key] else default
  }

  /** A record of the remote record store: its id and its fields. */
  datatype Record = Record(id: string, fields: map<string, Json>)

  /** What one HTTP read of the remote store gave: the records of a 2xx reply, or a failure
      (network error, non-2xx status, malformed body) that `raise_for_status` or `.json()`
      turns into an exception. */
  datatype Fetch<+T> = Fetched(value: T) | Failed

  /** What a route or a decorator answers: a JSON reply with its status code, or a redirect
      to a named endpoint (the browser variant of the same refusal). */
  datatype Reply =
    | JsonReply(status: int, body: map<string, Json>)
    | Redirect(endpoint: string)

  /** A gate either lets the request through to the handler or answers it itself. */
  datatype Gate = Proceed | Deny(reply: Reply)

  /** The body `{'success': ok, 'message': msg}` shared by most replies. */
  function Message(ok: bool, msg: string): (body: map<string, Json>)
    ensures body.Keys == {"success", "message"}
    ensures body["success"] == JBool(ok) && body["message"] == JStr(msg)
  {
    map["success" := JBool(ok), "message" := JStr(msg)]
  }

  /** The reply of a handler's catch-all `except Exception as e`: 500 with the exception's
      text after a fixed prefix. */
  function InternalError(detail: string): (reply: Reply)
    ensures reply.JsonReply? && reply.status == 500
  {
    JsonReply(500, Message(false, "Errore interno del server: " + detail))
  }

  /** `type(x).__name__` of the Python value a JSON value parses to. */
  function TypeName(j: Json): string
  {
    match j
    case JNull => "NoneType"
    case JBool(_) => "bool"
    case JInt(_) => "int"
    case JStr(_) => "str"
    case JArr(_) => "list"
    case JObj(_) => "dict"
  }

  /** A request body as `request.get_json()` gives it: a JSON object, or `None` when there
      is none. */
  type Body = Option<map<string, Json>>

  /** `not data` on a body: missing, or an empty object. */
  predicate EmptyBody(body: Body)
  {
    body == None || body.value == map[]
  }
}
