/** JSON-RPC requests, responses and errors: one hop from a client to a server and back. */
module JsonRpc {
  import opened Values
  import opened Executor

  const PARSE_ERROR := -32700
  const INVALID_REQUEST := -32600
  const METHOD_NOT_FOUND := -32601
  const INVALID_PARAMS := -32602
  const SERVER_ERROR := -32000
  const CAPABILITY_ERROR := -32005

  const INTERNAL: string := "Internal error: "

  /** A request without an id is a notification. */
  datatype Request = Request(methodName: string, params: Params, id: Option<string>)

  datatype Response = Response(id: string, result: Option<Json>, error: Option<WireError>)

  // ---------------------------------------------------------------- errors

  function FromError(thrown: Thrown): WireError {
    match thrown
    case RpcError(e) => e
    case MethodUnknownError(name) => WireError(METHOD_NOT_FOUND, "Method not found: \"" + name + "\"", NoData)
    case ParamRequiredError(param) => WireError(INVALID_PARAMS, "Invalid params: \"" + param + "\" is missing", NoData)
    case CapabilityError(message) => WireError(CAPABILITY_ERROR, message, NoData)
    case PlainObject(e) => WireError(SERVER_ERROR, INTERNAL + e.message, Trace(None))
    case OtherError(message, stack) => WireError(SERVER_ERROR, INTERNAL + message, Trace(stack))
  }

  /** `stringified`: the error object came as JSON text, so it is no longer a JsonRpcError. */
  function ToError(e: WireError, stringified: bool): Thrown {
    if e.code == CAPABILITY_ERROR then CapabilityError(e.message)
    else if stringified then PlainObject(e)
    else RpcError(e)
  }

  // ---------------------------------------------------------------- requests

  /** What a server is handed: JSON text, or a JavaScript value. `parsed` is what JSON.parse gives. */
  datatype Source = Text(parsed: Option<Json>, complaint: string) | Object(value: Json)

  datatype Created = Ok(request: Request) | Bad(thrown: Thrown)

  function TypeOf(j: Json): string {
    match j
    case Bool(_) => "boolean"
    case Num(_) => "number"
    case Str(_) => "string"
    case _ => "object"
  }

  function Invalid(message: string): Created { Bad(RpcError(WireError(INVALID_REQUEST, message, NoData))) }

  function Hydrate(fields: Params): Created {
    if "method" !in fields then Invalid("Invalid request: missing property: \"method\"")
    else
      match fields["method"]
      case Str(name) =>
        var params := if "params" in fields then Spread(fields["params"]) else map[];
        var id := if "id" in fields && fields["id"].Str? then Some(fields["id"].s) else None;
        Ok(Request(name, params, id))
      case other => Invalid("Invalid request: incorrect type for \"method\": " + TypeOf(other))
  }

  /** Text is hydrated whatever it holds, a value only if it is an object that is not an array. */
  function Create(source: Source): Created {
    match source
    case Text(None, complaint) => Bad(RpcError(WireError(PARSE_ERROR, "Parse error: " + complaint, NoData)))
    case Text(Some(Null), _) => Bad(OtherError("Cannot destructure property 'method' of 'obj' as it is null.", None))
    case Text(Some(Obj(entries)), _) => Hydrate(Fields(entries))
    case Text(Some(_), _) => Hydrate(map[])
    case Object(Obj(entries)) => Hydrate(Fields(entries))
    case Object(other) => Invalid("Invalid request type: " + TypeOf(other))
  }

  // ---------------------------------------------------------------- one hop

  /** The response to a method call, or None for a notification. `dispatch` is the executor's. */
  function Respond(dispatch: (string, Params) -> Outcome, created: Created, claims: Json): Option<Response> {
    match created
    case Bad(thrown) => Some(Response("", None, Some(FromError(thrown))))
    case Ok(Request(_, _, None)) => None
    case Ok(Request(name, params, Some(id))) =>
      match dispatch(name, params["claims" := claims])
      case Returned(value) => Some(Response(id, value, None))
      case Threw(thrown) => Some(Response(id, None, Some(FromError(thrown))))
  }

  /** How the promise of a request settles when its response arrives. */
  function Accept(response: Response, stringified: bool): Outcome {
    match response.error
    case Some(e) => Threw(ToError(e, stringified))
    case None => Returned(response.result)
  }
}
