/** What a server makes of what it is handed: JSON text or objects, requests or not. */
module Requests {
  import opened Values
  import opened Executor
  import opened JsonRpc

  /** The object has this value for the key; of several entries the last one counts. */
  predicate Has(entries: seq<Entry>, key: string, value: Json) {
    exists i :: 0 <= i < |entries| && entries[i] == Entry(key, value) &&
      forall j :: i < j < |entries| ==> entries[j].key != key
  }

  predicate Lacks(entries: seq<Entry>, key: string) { forall i :: 0 <= i < |entries| ==> entries[i].key != key }

  lemma FieldHas(entries: seq<Entry>, key: string, value: Json)
    requires Has(entries, key, value)
    ensures Lookup(Fields(entries), key) == Some(value)
  {
    var i :| 0 <= i < |entries| && entries[i] == Entry(key, value) && forall j :: i < j < |entries| ==> entries[j].key != key;
    HasField(entries, i);
    var k := FieldAt(entries, key);
    assert k == i;
  }

  lemma FieldLacks(entries: seq<Entry>, key: string)
    requires Lacks(entries, key)
    ensures Lookup(Fields(entries), key) == None
  {
    if key in Fields(entries) { var k := FieldAt(entries, key); assert false; }
  }

  /** An object, or the JSON text of one. */
  predicate Holds(source: Source, entries: seq<Entry>) {
    source == Object(Obj(entries)) || (source.Text? && source.parsed == Some(Obj(entries)))
  }

  predicate OptionallyHas(entries: seq<Entry>, key: string, value: Option<Json>) {
    match value
    case Some(v) => Has(entries, key, v)
    case None => Lacks(entries, key)
  }

  lemma FieldIs(entries: seq<Entry>, key: string, value: Option<Json>)
    requires OptionallyHas(entries, key, value)
    ensures Lookup(Fields(entries), key) == value
  {
    if value.Some? { FieldHas(entries, key, value.value); } else { FieldLacks(entries, key); }
  }

  /** A request is read the same from an object and from its text; without an id it is a notification. */
  lemma RequestIsRead(source: Source, entries: seq<Entry>, name: string, id: Option<string>, params: Option<Json>)
    requires Holds(source, entries) && Has(entries, "method", Str(name))
    requires OptionallyHas(entries, "id", if id.Some? then Some(Str(id.value)) else None)
    requires OptionallyHas(entries, "params", params)
    ensures Create(source) == Ok(Request(name, if params.Some? then Spread(params.value) else map[], id))
  {
    FieldHas(entries, "method", Str(name));
    FieldIs(entries, "id", if id.Some? then Some(Str(id.value)) else None);
    FieldIs(entries, "params", params);
  }

  /** Parameters in an array are given by position. */
  lemma PositionsAreRead(source: Source, entries: seq<Entry>, name: string, id: string, items: seq<Json>, i: nat)
    requires Holds(source, entries) && Has(entries, "method", Str(name)) && Has(entries, "id", Str(id))
    requires Has(entries, "params", Arr(items)) && i < |items|
    ensures Create(source).Ok? && Lookup(Create(source).request.params, Decimal(i)) == Some(items[i])
  {
    RequestIsRead(source, entries, name, Some(id), Some(Arr(items)));
    IndexedAt(items, i);
  }

  /** Text in their place is spread to its characters; numbers, booleans and null give none. */
  lemma OddParametersAreRead(source: Source, entries: seq<Entry>, name: string, id: string, value: Json)
    requires Holds(source, entries) && Has(entries, "method", Str(name)) && Has(entries, "id", Str(id))
    requires Has(entries, "params", value) && !value.Arr? && !value.Obj?
    ensures Create(source).Ok?
    ensures var params := Create(source).request.params;
      match value
      case Str(s) => forall i :: 0 <= i < |s| ==> Lookup(params, Decimal(i)) == Some(Str([s[i]]))
      case _ => params == map[]
  {
    RequestIsRead(source, entries, name, Some(id), Some(value));
    if value.Str? {
      var items := seq(|value.s|, i requires 0 <= i < |value.s| => Str([value.s[i]]));
      forall i | 0 <= i < |value.s| ensures Lookup(Indexed(items), Decimal(i)) == Some(Str([value.s[i]])) {
        IndexedAt(items, i);
      }
    }
  }

  // ---------------------------------------------------------------- what is no request

  /** What `typeof` says of a value that is not text. */
  predicate HasTypeName(v: Json, name: string) {
    (v.Bool? && name == "boolean") || (v.Num? && name == "number") || ((v.Null? || v.Arr? || v.Obj?) && name == "object")
  }

  /** The answer to something that is no request: without an id, and with this error. */
  function Refusal(code: int, message: string): Response {
    Response("", None, Some(WireError(code, message, NoData)))
  }

  /** Without the name of a method, or with a method that is not text, nothing is dispatched. */
  lemma MethodIsRequired(dispatch: (string, Params) -> Outcome, source: Source, entries: seq<Entry>, claims: Json)
    requires Holds(source, entries)
    ensures Lacks(entries, "method") ==>
      Respond(dispatch, Create(source), claims) == Some(Refusal(-32600, "Invalid request: missing property: \"method\""))
    ensures forall v: Json, name: string :: Has(entries, "method", v) && HasTypeName(v, name) ==>
      Respond(dispatch, Create(source), claims) ==
        Some(Refusal(-32600, "Invalid request: incorrect type for \"method\": " + name))
  {
    if Lacks(entries, "method") { FieldLacks(entries, "method"); }
    forall v: Json, name: string | Has(entries, "method", v) && HasTypeName(v, name)
      ensures Respond(dispatch, Create(source), claims) ==
        Some(Refusal(-32600, "Invalid request: incorrect type for \"method\": " + name))
    {
      FieldHas(entries, "method", v);
    }
  }

  /** Text that is no JSON, and values that are no objects, are answered with an error as well. */
  lemma OthersAreRefused(dispatch: (string, Params) -> Outcome, complaint: string, value: Json, name: string, claims: Json)
    requires !value.Obj?
    ensures Respond(dispatch, Create(Text(None, complaint)), claims) == Some(Refusal(-32700, "Parse error: " + complaint))
    ensures HasTypeName(value, name) ==>
      Respond(dispatch, Create(Object(value)), claims) == Some(Refusal(-32600, "Invalid request type: " + name))
    ensures value != Null ==>
      Respond(dispatch, Create(Text(Some(value), complaint)), claims) ==
        Some(Refusal(-32600, "Invalid request: missing property: \"method\""))
  {}

  /** The text `null` is not taken for a request either: reading its method fails inside the server. */
  lemma NullIsRefused(dispatch: (string, Params) -> Outcome, complaint: string, claims: Json)
    ensures var answer := Respond(dispatch, Create(Text(Some(Null), complaint)), claims);
      answer.Some? && answer.value.id == "" && answer.value.error.Some? && answer.value.error.value.code == -32000
  {}

  // ---------------------------------------------------------------- what a response carries

  /** The response to a request: the executor's result, or its error, under the id of the request. */
  predicate Carries(response: Response, id: string, outcome: Outcome) {
    response.id == id &&
    match outcome
    case Returned(value) => response.result == value && response.error == None
    case Threw(thrown) => response.result == None && response.error == Some(FromError(thrown))
  }

  /** A request is answered with what dispatching it gives, with the claims of the server; a notification is not. */
  lemma RequestIsAnswered(dispatch: (string, Params) -> Outcome, request: Request, claims: Json)
    ensures var answer := Respond(dispatch, Ok(request), claims);
      match request.id
      case None => answer == None
      case Some(id) => answer.Some? && Carries(answer.value, id, dispatch(request.methodName, request.params["claims" := claims]))
  {}

  /** On the wire a capability error has a code of its own, by which the client knows it again. */
  lemma CapabilityErrorsAreMarked(dispatch: (string, Params) -> Outcome, request: Request, claims: Json, message: string, stringified: bool)
    requires request.id.Some?
    requires dispatch(request.methodName, request.params["claims" := claims]) == Threw(CapabilityError(message))
    ensures var answer := Respond(dispatch, Ok(request), claims);
      && answer == Some(Response(request.id.value, None, Some(WireError(-32005, message, NoData))))
      && Accept(answer.value, stringified) == Threw(CapabilityError(message))
  {}

  // ---------------------------------------------------------------- the request of a direct client

  function RequestObject(methodName: string, entries: seq<Entry>, id: string): Json {
    Obj([Entry("jsonrpc", Str("2.0")), Entry("id", Str(id)), Entry("method", Str(methodName)),
         Entry("params", Obj(entries))])
  }

  /** Such an object, or its text, is hydrated to the method, parameters and id it was made from. */
  lemma CreateRestores(methodName: string, entries: seq<Entry>, id: string, complaint: string)
    ensures Create(Object(RequestObject(methodName, entries, id))) == Ok(Request(methodName, Fields(entries), Some(id)))
    ensures Create(Text(Some(RequestObject(methodName, entries, id)), complaint)) ==
      Ok(Request(methodName, Fields(entries), Some(id)))
  {
    var source := RequestObject(methodName, entries, id);
    var es := source.entries;
    assert |"jsonrpc"| == 7 && |"id"| == 2 && |"method"| == 6 && |"params"| == 6 && "method"[0] != "params"[0];
    assert es[1] == Entry("id", Str(id)) && es[2] == Entry("method", Str(methodName)) && es[3] == Entry("params", Obj(entries));
    assert Has(es, "id", Str(id)) && Has(es, "method", Str(methodName)) && Has(es, "params", Obj(entries));
    RequestIsRead(Object(source), es, methodName, Some(id), Some(Obj(entries)));
    RequestIsRead(Text(Some(source), complaint), es, methodName, Some(id), Some(Obj(entries)));
  }
}
