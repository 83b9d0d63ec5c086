/** A peer with the manifest of a worker: which calls are delegated to it. */
module WorkerPeer {
  import opened Values
  import opened Schema
  import opened Capabilities
  import opened Peers

  // ---------------------------------------------------------------- what the declared schemas accept

  predicate IsText(fields: Params, key: string) { key in fields && fields[key].Str? }

  predicate Is(fields: Params, key: string, value: string) { key in fields && fields[key] == Str(value) }

  predicate JsonDecodable(params: Params) { IsText(params, "source") && Is(params, "format", "json") }

  predicate JsonEncodable(params: Params) { "node" in params && Is(params, "format", "json") }

  predicate Queryable(params: Params) {
    && "node" in params && IsText(params, "query")
    && (Is(params, "lang", "jmp") || Is(params, "lang", "jmes-path")
        || Is(params, "lang", "jpo") || Is(params, "lang", "json-pointer"))
  }

  predicate ScriptExpression(fields: Params) {
    && Is(fields, "type", "CodeExpression")
    && (Is(fields, "programmingLanguage", "js") || Is(fields, "programmingLanguage", "javascript"))
    && IsText(fields, "text")
  }

  /** A node and nothing else. Only of an object is more asked. */
  predicate MaybeScript(params: Params) {
    params.Keys == {"node"} && (params["node"].Obj? ==> ScriptExpression(Fields(params["node"].entries)))
  }

  lemma ConstAccepts(value: string, v: Json)
    ensures Accepts(Const(value), v) <==> v == Str(value)
  {}

  lemma TextAccepts(v: Json)
    ensures Accepts(STRING, v) <==> v.Str?
  {}

  lemma OneOfAccepts(values: seq<Json>, v: Json)
    requires forall w <- values :: w.Str?
    ensures Accepts(OneOf(values), v) <==> v in values
  {}

  /** An object schema without further entries excluded: its required entries, and the schemas of its properties. */
  lemma ObjectAccepts(schema: Schema, fields: Params)
    requires schema.Keywords? && schema.additional == None
    ensures AcceptsFields(schema, fields) <==>
      && (forall name <- schema.required :: name in fields)
      && forall i :: 0 <= i < |schema.properties| ==>
           schema.properties[i].name in fields ==> Accepts(schema.properties[i].schema, fields[schema.properties[i].name])
  {
    assert forall i :: 0 <= i < |schema.properties| ==> schema.properties[i] in schema.properties;
  }

  lemma DecodeAccepts(params: Params)
    ensures AcceptsParams(DECODE, params) <==> JsonDecodable(params)
  {
    ObjectAccepts(DECODE, params);
    assert DECODE.properties[0].name == "source" && DECODE.properties[1].name == "format";
    assert DECODE.required[0] == "source" && DECODE.required[1] == "format";
    if "source" in params { TextAccepts(params["source"]); }
    if "format" in params { ConstAccepts("json", params["format"]); }
  }

  lemma EncodeAccepts(params: Params)
    ensures AcceptsParams(ENCODE, params) <==> JsonEncodable(params)
  {
    ObjectAccepts(ENCODE, params);
    assert ENCODE.properties[0].name == "node" && ENCODE.properties[1].name == "format";
    assert ENCODE.required[0] == "node" && ENCODE.required[1] == "format";
    if "format" in params { ConstAccepts("json", params["format"]); }
  }

  lemma QueryAccepts(params: Params)
    ensures AcceptsParams(QUERY, params) <==> Queryable(params)
  {
    var languages := [Str("jmp"), Str("jmes-path"), Str("jpo"), Str("json-pointer")];
    ObjectAccepts(QUERY, params);
    assert QUERY.properties[0].name == "node" && QUERY.properties[1].name == "query" && QUERY.properties[2].name == "lang";
    assert QUERY.required[0] == "node" && QUERY.required[1] == "query" && QUERY.required[2] == "lang";
    if "query" in params { TextAccepts(params["query"]); }
    if "lang" in params { OneOfAccepts(languages, params["lang"]); }
  }

  lemma ExpressionAccepts(fields: Params)
    ensures AcceptsFields(CODE_EXPRESSION, fields) <==> ScriptExpression(fields)
  {
    var schema, languages := CODE_EXPRESSION, [Str("js"), Str("javascript")];
    ObjectAccepts(schema, fields);
    assert schema.properties[0].name == "type" && schema.properties[1].name == "programmingLanguage";
    assert schema.properties[2].name == "text";
    assert schema.required[0] == "type" && schema.required[1] == "programmingLanguage" && schema.required[2] == "text";
    if "type" in fields { ConstAccepts("CodeExpression", fields["type"]); }
    if "programmingLanguage" in fields { OneOfAccepts(languages, fields["programmingLanguage"]); }
    if "text" in fields { TextAccepts(fields["text"]); }
  }

  lemma NodeAccepts(node: Json)
    ensures Accepts(CODE_EXPRESSION, node) <==> (node.Obj? ==> ScriptExpression(Fields(node.entries)))
  {
    if node.Obj? { ExpressionAccepts(Fields(node.entries)); }
  }

  lemma ExecuteAccepts(params: Params)
    ensures AcceptsParams(EXECUTE, params) <==> MaybeScript(params)
  {
    var node := Property("node", CODE_EXPRESSION);
    assert EXECUTE.properties == [node] && EXECUTE.required[0] == "node";
    assert node in EXECUTE.properties;
    if "node" in params { NodeAccepts(params["node"]); }
    if AcceptsParams(EXECUTE, params) {
      Requires(EXECUTE, params, "node");
      forall name <- params ensures name == "node" {
        if name != "node" { NoOthers(EXECUTE, params, name); }
      }
      assert params.Keys == {"node"};
    }
    if MaybeScript(params) {
      assert forall name <- params :: name == "node";
      assert AcceptsFields(EXECUTE, params);
    }
  }

  // ---------------------------------------------------------------- the peer

  const WORKER := Manifest(Some(map[
    "manifest" := One(ANY), "decode" := One(DECODE), "encode" := One(ENCODE), "query" := One(QUERY),
    "execute" := One(EXECUTE), "pipe" := One(ANY)]))

  /** The calls that a worker says it is capable of. */
  predicate WorkerTakes(methodName: string, params: Params) {
    match methodName
    case "manifest" => true
    case "decode" => JsonDecodable(params)
    case "encode" => JsonEncodable(params)
    case "query" => Queryable(params)
    case "execute" => MaybeScript(params)
    case "pipe" => true
    case _ => false
  }

  /** The declaration, method by method. */
  lemma WorkerDeclares(methodName: string, params: Params)
    ensures Accepted(methodName, params) <==> WorkerTakes(methodName, params)
  {
    match methodName
    case "decode" => DecodeAccepts(params);
    case "encode" => EncodeAccepts(params);
    case "query" => QueryAccepts(params);
    case "execute" => ExecuteAccepts(params);
    case _ =>
  }

  lemma WorkerManifest(methodName: string)
    ensures Declared(methodName).Some? <==> methodName in WORKER.capabilities.value
    ensures Declared(methodName).Some? ==> WORKER.capabilities.value[methodName] == One(Declared(methodName).value)
  {}

  lemma WorkerLists(methodName: string, params: Params)
    ensures Lists(WORKER, methodName, params) <==> WorkerTakes(methodName, params)
  {
    WorkerDeclares(methodName, params);
    WorkerManifest(methodName);
    if Declared(methodName).Some? { ListsOne(WORKER, methodName, Declared(methodName).value, params); }
  }

  /** A peer with the manifest of a worker is capable of exactly these calls. */
  lemma WorkerIsCapable(methodName: string, params: Params, fetched: Manifest)
    ensures var s := Complete(System(PeerState(Some(WORKER), map[]), []), Capable(methodName, params, fetched));
      |s.asks| == 1 && s.asks[0].phase == Answered(WorkerTakes(methodName, params))
  {
    var s := System(PeerState(Some(WORKER), map[]), []);
    CacheAgreement(s, [], methodName, params, fetched);
    CompleteIsHarmless(s, Capable(methodName, params, fetched));
    WorkerLists(methodName, params);
  }

  // ---------------------------------------------------------------- what a worker can do

  predicate ByName(params: Params) { "0" !in params && "1" !in params && "2" !in params }

  /**
   * What the worker's methods refuse, of calls by name with text where text is due: for `decode`
   * exactly what the worker does not declare; for `encode` also what has a destination; for `query`
   * only a language that is not declared, although it declares no call without one.
   */
  lemma WorkerRefuses(params: Params)
    requires ByName(params)
    ensures IsText(params, "source") ==> (LeadsToCapabilityError("decode", params) <==> !WorkerTakes("decode", params))
    ensures "node" in params ==>
      (LeadsToCapabilityError("encode", params) <==> !WorkerTakes("encode", params) || "dest" in params)
    ensures "node" in params && IsText(params, "query") ==>
      (LeadsToCapabilityError("query", params) <==> "lang" in params && !WorkerTakes("query", params))
  {}

  /** It executes an expression outside of any session, in JavaScript by any capitals; it does not compile, build, begin or end. */
  lemma WorkerExecutes(params: Params)
    requires ByName(params) && "node" in params
    ensures LeadsToCapabilityError("compile", params) && LeadsToCapabilityError("build", params)
    ensures LeadsToCapabilityError("begin", params) && LeadsToCapabilityError("end", params)
    ensures var node := params["node"];
      !LeadsToCapabilityError("execute", params) <==>
        && node.Obj? && Is(Fields(node.entries), "type", "CodeExpression") && "programmingLanguage" in Fields(node.entries)
        && match Fields(node.entries)["programmingLanguage"]
           case Str(s) => (LowerCase(s) == "js" || LowerCase(s) == "javascript") && "session" !in params
           case _ => true
  {}
}
