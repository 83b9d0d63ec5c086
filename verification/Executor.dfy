/** Run-time dispatching of src/base/Executor.ts, and the errors of src/base/errors.ts. */
module Executor {
  import opened Values

  /** What a call throws. `WireError` and its two forms are those of a JSON-RPC error object. */
  datatype Thrown =
    | CapabilityError(message: string)
    | MethodUnknownError(methodName: string)
    | ParamRequiredError(param: string)
    | RpcError(error: WireError)      // an instance of JsonRpcError
    | PlainObject(error: WireError)   // what is left of one after a trip through JSON text
    | OtherError(message: string, stack: Option<string>)

  datatype WireError = WireError(code: int, message: string, data: Data)

  datatype Data = NoData | Trace(stack: Option<string>)

  /** `Returned(None)` is a call that returns `undefined`. */
  datatype Outcome = Returned(value: Option<Json>) | Threw(thrown: Thrown)

  /** A call of one of the typed methods of an executor. */
  datatype Invocation =
    | Manifest
    | Decode(source: Json, format: Option<Json>)
    | Encode(node: Json, dest: Option<Json>, format: Option<Json>)
    | Query(node: Json, query: Json, lang: Option<Json>)
    | Compile(node: Json)
    | Build(node: Json)
    | Execute(node: Json, session: Option<Json>, claims: Option<Json>, jobId: Option<Json>)
    | Begin(node: Json, claims: Option<Json>)
    | End(node: Json, claims: Option<Json>)
    | Pipe(node: Json, calls: Json)
    | Cancel(job: Json)

  datatype Dispatched = Invoke(invocation: Invocation) | Refuse(thrown: Thrown)

  /** A parameter is looked up by name, then by position. */
  function Param(params: Params, index: string, name: string): Option<Json> {
    if name in params then Some(params[name]) else Lookup(params, index)
  }

  function NodeParam(params: Params): Option<Json> { Param(params, "0", "node") }

  function Missing(name: string): Dispatched { Refuse(ParamRequiredError(name)) }

  /** The arguments are looked up from left to right; the first required one that is missing throws. */
  function Dispatch(methodName: string, params: Params): Dispatched {
    var node := NodeParam(params);
    match methodName
    case "manifest" => Invoke(Manifest)
    case "decode" =>
      var source := Param(params, "0", "source");
      if source.None? then Missing("source")
      else Invoke(Decode(source.value, Param(params, "1", "format")))
    case "encode" =>
      if node.None? then Missing("node")
      else Invoke(Encode(node.value, Param(params, "1", "dest"), Param(params, "2", "format")))
    case "query" =>
      var query := Param(params, "1", "query");
      if node.None? then Missing("node")
      else if query.None? then Missing("query")
      else Invoke(Query(node.value, query.value, Param(params, "1", "lang")))
    case "compile" => if node.None? then Missing("node") else Invoke(Compile(node.value))
    case "build" => if node.None? then Missing("node") else Invoke(Build(node.value))
    case "execute" =>
      if node.None? then Missing("node")
      else Invoke(Execute(node.value, Param(params, "1", "session"), Param(params, "2", "claims"),
                          Param(params, "3", "job")))
    case "begin" =>
      if node.None? then Missing("node") else Invoke(Begin(node.value, Param(params, "1", "claims")))
    case "end" =>
      if node.None? then Missing("node") else Invoke(End(node.value, Param(params, "1", "claims")))
    case "pipe" =>
      var calls := Param(params, "1", "calls");
      if node.None? then Missing("node")
      else if calls.None? then Missing("calls")
      else Invoke(Pipe(node.value, calls.value))
    case "cancel" =>
      var job := Param(params, "0", "job");
      if job.None? then Missing("job") else Invoke(Cancel(job.value))
    case _ => Refuse(MethodUnknownError(methodName))
  }

  // ---------------------------------------------------------------- refusals

  /** The methods, and the parameters that each requires, by position and by name. */
  function Required(methodName: string): Option<seq<(string, string)>> {
    match methodName
    case "manifest" => Some([])
    case "decode" => Some([("0", "source")])
    case "query" => Some([("0", "node"), ("1", "query")])
    case "pipe" => Some([("0", "node"), ("1", "calls")])
    case "cancel" => Some([("0", "job")])
    case "encode" => Some([("0", "node")])
    case "compile" => Some([("0", "node")])
    case "build" => Some([("0", "node")])
    case "execute" => Some([("0", "node")])
    case "begin" => Some([("0", "node")])
    case "end" => Some([("0", "node")])
    case _ => None
  }

  function FirstMissing(params: Params, required: seq<(string, string)>): Option<string> {
    if required == [] then None
    else if required[0].0 !in params && required[0].1 !in params then Some(required[0].1)
    else FirstMissing(params, required[1..])
  }

  lemma MissingOf(params: Params, a: (string, string), b: (string, string))
    ensures FirstMissing(params, []) == None
    ensures FirstMissing(params, [a]) == if a.0 !in params && a.1 !in params then Some(a.1) else None
    ensures FirstMissing(params, [a, b]) ==
      if a.0 !in params && a.1 !in params then Some(a.1)
      else if b.0 !in params && b.1 !in params then Some(b.1)
      else None
  {
    assert [a][1..] == [] && [a, b][1..] == [b] && [b][1..] == [];
  }

  /**
   * A call is refused exactly if its method is unknown, or if a required parameter is given neither
   * by name nor by position; the refusal names the first such parameter.
   */
  lemma RefusedExactly(methodName: string, params: Params)
    ensures match Required(methodName)
      case None => Dispatch(methodName, params) == Refuse(MethodUnknownError(methodName))
      case Some(required) =>
        match FirstMissing(params, required)
        case Some(name) => Dispatch(methodName, params) == Refuse(ParamRequiredError(name))
        case None => Dispatch(methodName, params).Invoke?
  {
    MissingOf(params, ("0", "node"), ("1", "query"));
    MissingOf(params, ("0", "node"), ("1", "calls"));
    MissingOf(params, ("0", "source"), ("", ""));
    MissingOf(params, ("0", "job"), ("", ""));
  }

  /** The name and the named parameters with which the typed methods of a proxy call `call`. */
  function MethodOf(i: Invocation): string {
    match i
    case Manifest => "manifest"
    case Decode(_, _) => "decode"
    case Encode(_, _, _) => "encode"
    case Query(_, _, _) => "query"
    case Compile(_) => "compile"
    case Build(_) => "build"
    case Execute(_, _, _, _) => "execute"
    case Begin(_, _) => "begin"
    case End(_, _) => "end"
    case Pipe(_, _) => "pipe"
    case Cancel(_) => "cancel"
  }

  function ParamsOf(i: Invocation): Params {
    match i
    case Manifest => map[]
    case Decode(source, format) => Put(map["source" := source], "format", format)
    case Encode(node, dest, format) => Put(Put(map["node" := node], "dest", dest), "format", format)
    case Query(node, query, lang) => Put(map["node" := node, "query" := query], "lang", lang)
    case Compile(node) => map["node" := node]
    case Build(node) => map["node" := node]
    case Execute(node, session, claims, job) =>
      Put(Put(Put(map["node" := node], "session", session), "claims", claims), "job", job)
    case Begin(node, claims) => Put(map["node" := node], "claims", claims)
    case End(node, claims) => Put(map["node" := node], "claims", claims)
    case Pipe(node, calls) => map["node" := node, "calls" := calls]
    case Cancel(job) => map["job" := job]
  }

  predicate TakesOptions(i: Invocation) { i.Encode? || i.Query? || i.Execute? }

  lemma OptionsByName(i: Invocation)
    requires i.Encode? || i.Query?
    ensures Dispatch(MethodOf(i), ParamsOf(i)) == Invoke(i)
  {}

  lemma ExecuteByName(i: Invocation)
    requires i.Execute?
    ensures Dispatch(MethodOf(i), ParamsOf(i)) == Invoke(i)
  {
    var p := ParamsOf(i);
    assert |"1"| == 1 && |"node"| == 4 && |"session"| == 7 && |"claims"| == 6 && |"job"| == 3;
    assert NodeParam(p) == Some(i.node);
    assert Param(p, "1", "session") == i.session;
    assert Param(p, "2", "claims") == i.claims;
    assert Param(p, "3", "job") == i.jobId;
  }

  lemma OthersByName(i: Invocation)
    requires !TakesOptions(i)
    ensures Dispatch(MethodOf(i), ParamsOf(i)) == Invoke(i)
  {}

  /** Dispatching by name undoes the call of a typed method. */
  lemma DispatchByName(i: Invocation)
    ensures Dispatch(MethodOf(i), ParamsOf(i)) == Invoke(i)
  {
    if i.Execute? {
      ExecuteByName(i);
    } else if TakesOptions(i) {
      OptionsByName(i);
    } else {
      OthersByName(i);
    }
  }

  /** What dispatching takes from the parameters as its claims is what the call has. */
  function Claims(i: Invocation, claims: Json): Invocation {
    match i
    case Execute(node, session, _, job) => Execute(node, session, Some(claims), job)
    case Begin(node, _) => Begin(node, Some(claims))
    case End(node, _) => End(node, Some(claims))
    case _ => i
  }

  lemma OptionsWithClaims(i: Invocation, claims: Json)
    requires i.Encode? || i.Query?
    ensures Dispatch(MethodOf(i), ParamsOf(i)["claims" := claims]) == Invoke(i)
  {}

  lemma ExecuteWithClaims(i: Invocation, claims: Json)
    requires i.Execute?
    ensures Dispatch(MethodOf(i), ParamsOf(i)["claims" := claims]) == Invoke(Claims(i, claims))
  {
    var p := ParamsOf(i)["claims" := claims];
    assert |"1"| == 1 && |"node"| == 4 && |"session"| == 7 && |"claims"| == 6 && |"job"| == 3;
    assert NodeParam(p) == Some(i.node);
    assert Param(p, "1", "session") == i.session;
    assert Param(p, "2", "claims") == Some(claims);
    assert Param(p, "3", "job") == i.jobId;
  }

  lemma OthersWithClaims(i: Invocation, claims: Json)
    requires !TakesOptions(i)
    ensures Dispatch(MethodOf(i), ParamsOf(i)["claims" := claims]) == Invoke(Claims(i, claims))
  {}

  /** A call that was dispatched with claims already has them. */
  lemma ClaimsStay(methodName: string, params: Params, claims: Json)
    requires Dispatch(methodName, params["claims" := claims]).Invoke?
    ensures var i := Dispatch(methodName, params["claims" := claims]).invocation; Claims(i, claims) == i
  {}

  /** What a proxy passes on is dispatched to the same call, but for the claims. */
  lemma DispatchWithClaims(i: Invocation, claims: Json)
    ensures Dispatch(MethodOf(i), ParamsOf(i)["claims" := claims]) == Invoke(Claims(i, claims))
  {
    if i.Execute? {
      ExecuteWithClaims(i, claims);
    } else if TakesOptions(i) {
      OptionsWithClaims(i, claims);
    } else {
      OthersWithClaims(i, claims);
    }
  }

  /** Normalising parameters is idempotent: a proxy's own call, with the same claims, is dispatched alike. */
  lemma DispatchIsIdempotent(methodName: string, params: Params, claims: Json)
    requires Dispatch(methodName, params["claims" := claims]).Invoke?
    ensures var i := Dispatch(methodName, params["claims" := claims]).invocation;
      Dispatch(MethodOf(i), ParamsOf(i)["claims" := claims]) == Invoke(i)
  {
    ClaimsStay(methodName, params, claims);
    DispatchWithClaims(Dispatch(methodName, params["claims" := claims]).invocation, claims);
  }

  /** Nothing but the claims of the call depends on the claims among the parameters. */
  lemma OnlyClaimsDiffer(methodName: string, params: Params, claims: Json, others: Json)
    ensures Dispatch(methodName, params["claims" := others]) ==
      match Dispatch(methodName, params["claims" := claims])
      case Invoke(i) => Invoke(Claims(i, others))
      case Refuse(thrown) => Refuse(thrown)
  {}

  /** The arguments by position, as far as they are given. */
  function PositionsOf(i: Invocation): Params {
    match i
    case Manifest => map[]
    case Decode(source, format) => Put(map["0" := source], "1", format)
    case Encode(node, dest, format) => Put(Put(map["0" := node], "1", dest), "2", format)
    case Query(node, query, _) => map["0" := node, "1" := query]
    case Compile(node) => map["0" := node]
    case Build(node) => map["0" := node]
    case Execute(node, session, claims, job) =>
      Put(Put(Put(map["0" := node], "1", session), "2", claims), "3", job)
    case Begin(node, claims) => Put(map["0" := node], "1", claims)
    case End(node, claims) => Put(map["0" := node], "1", claims)
    case Pipe(node, calls) => map["0" := node, "1" := calls]
    case Cancel(job) => map["0" := job]
  }

  lemma OptionsByPosition(i: Invocation)
    requires i.Encode? || i.Query?
    ensures Dispatch(MethodOf(i), PositionsOf(i)) == Invoke(if i.Query? then i.(lang := Some(i.query)) else i)
  {}

  lemma ExecuteByPosition(i: Invocation)
    requires i.Execute?
    ensures Dispatch(MethodOf(i), PositionsOf(i)) == Invoke(i)
  {
    var p := PositionsOf(i);
    assert |"0"| == 1 && |"node"| == 4 && |"session"| == 7 && |"claims"| == 6 && |"job"| == 3;
    assert NodeParam(p) == Some(i.node);
    assert Param(p, "1", "session") == i.session;
    assert Param(p, "2", "claims") == i.claims;
    assert Param(p, "3", "job") == i.jobId;
  }

  lemma OthersByPosition(i: Invocation)
    requires !TakesOptions(i)
    ensures Dispatch(MethodOf(i), PositionsOf(i)) == Invoke(i)
  {}

  /**
   * So does dispatching by position, except for `query`: it reads its language from the position of
   * the query itself, so a query by position is always its own language.
   */
  lemma DispatchByPosition(i: Invocation)
    ensures Dispatch(MethodOf(i), PositionsOf(i)) == Invoke(if i.Query? then i.(lang := Some(i.query)) else i)
    ensures Dispatch(MethodOf(i), PositionsOf(i)) == Invoke(i) <==> !(i.Query? && i.lang != Some(i.query))
  {
    if i.Execute? {
      ExecuteByPosition(i);
    } else if TakesOptions(i) {
      OptionsByPosition(i);
    } else {
      OthersByPosition(i);
    }
  }
}
