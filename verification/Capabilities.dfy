/** The capabilities that src/base/Worker.ts declares, against what its methods do. */
module Capabilities {
  import opened Values
  import opened Executor
  import opened Schema

  const ANY := Boolean(true)
  const STRING := Keywords(Some("string"), None, None, [], [], None)

  function Const(value: string): Schema { Keywords(None, Some(Str(value)), None, [], [], None) }

  function OneOf(values: seq<Json>): Schema { Keywords(None, None, Some(values), [], [], None) }

  function Object(required: seq<string>, properties: seq<Property>, additional: Option<Schema>): Schema {
    Keywords(None, None, None, required, properties, additional)
  }

  const CODE_EXPRESSION := Object(["type", "programmingLanguage", "text"],
    [Property("type", Const("CodeExpression")),
     Property("programmingLanguage", OneOf([Str("js"), Str("javascript")])),
     Property("text", STRING)],
    None)

  const DECODE := Object(["source", "format"],
    [Property("source", STRING), Property("format", Const("json"))], None)

  const ENCODE := Object(["node", "format"],
    [Property("node", ANY), Property("format", Const("json"))], None)

  const QUERY := Object(["node", "query", "lang"],
    [Property("node", ANY), Property("query", STRING),
     Property("lang", OneOf([Str("jmp"), Str("jmes-path"), Str("jpo"), Str("json-pointer")]))], None)

  const EXECUTE := Object(["node"], [Property("node", CODE_EXPRESSION)], Some(Boolean(false)))

  /** The schema declared for a method; None if the worker declares nothing for it. */
  function Declared(methodName: string): Option<Schema> {
    match methodName
    case "manifest" => Some(ANY)
    case "decode" => Some(DECODE)
    case "encode" => Some(ENCODE)
    case "query" => Some(QUERY)
    case "execute" => Some(EXECUTE)
    case "pipe" => Some(ANY)
    case _ => None
  }

  // ---------------------------------------------------------------- what the methods do

  function LowerCase(s: string): string {
    if s == "" then ""
    else [if 'A' <= s[0] <= 'Z' then ((s[0] as int) + 32) as char else s[0]] + LowerCase(s[1..])
  }

  /** A JavaScript code expression outside of any session. */
  predicate Executable(node: Json, session: Option<Json>) {
    node.Obj? &&
    var fields := Fields(node.entries);
    && Lookup(fields, "type") == Some(Str("CodeExpression"))
    && "programmingLanguage" in fields && fields["programmingLanguage"].Str?
    && LowerCase(fields["programmingLanguage"].s) in {"js", "javascript"}
    && session == None
  }

  /** A code expression whose language is not text: asking for it in lower case throws a TypeError. */
  predicate BadLanguage(node: Json) {
    node.Obj? &&
    var fields := Fields(node.entries);
    && Lookup(fields, "type") == Some(Str("CodeExpression"))
    && "programmingLanguage" in fields && !fields["programmingLanguage"].Str?
  }

  /** The method ends in the fallback that throws a capability error; a pipe does not by itself. */
  predicate Incapable(i: Invocation) {
    match i
    case Manifest => false
    case Decode(_, format) => format != Some(Str("json"))
    case Encode(_, dest, format) => !(format == Some(Str("json")) && dest == None)
    case Query(_, _, lang) =>
      lang.Some? && lang.value !in {Str("jpo"), Str("json-pointer"), Str("jmp"), Str("jmes-path")}
    case Compile(_) => true
    case Build(_) => true
    case Execute(node, session, _, _) => !Executable(node, session) && !BadLanguage(node)
    case Begin(_, _) => true
    case End(_, _) => true
    case Pipe(_, _) => false
    case Cancel(_) => false
  }

  predicate LeadsToCapabilityError(methodName: string, params: Params) {
    var d := Dispatch(methodName, params);
    d.Invoke? && Incapable(d.invocation)
  }

  /** The worker declares the method, and its schema accepts the parameters. */
  predicate Accepted(methodName: string, params: Params) {
    Declared(methodName).Some? && AcceptsParams(Declared(methodName).value, params)
  }

  lemma Requires(schema: Schema, params: Params, name: string)
    requires schema.Keywords? && AcceptsFields(schema, params) && name in schema.required
    ensures name in params
  {}

  lemma Restricts(schema: Schema, params: Params, p: Property)
    requires schema.Keywords? && AcceptsFields(schema, params) && p in schema.properties && p.name in params
    ensures Accepts(p.schema, params[p.name])
  {}

  lemma FormatIsJson(schema: Schema, params: Params)
    requires schema == DECODE || schema == ENCODE
    requires AcceptsParams(schema, params)
    ensures "format" in params && params["format"] == Str("json")
  {
    Requires(schema, params, "format");
    Restricts(schema, params, Property("format", Const("json")));
  }

  /** Parameters accepted for `decode` and `query` never lead to a capability error. */
  lemma DecodeIsSound(params: Params)
    requires Accepted("decode", params)
    ensures Dispatch("decode", params).Invoke? && !LeadsToCapabilityError("decode", params)
  {
    FormatIsJson(DECODE, params);
    Requires(DECODE, params, "source");
  }

  lemma QueryIsSound(params: Params)
    requires Accepted("query", params)
    ensures Dispatch("query", params).Invoke? && !LeadsToCapabilityError("query", params)
  {
    Requires(QUERY, params, "node");
    Requires(QUERY, params, "query");
    Requires(QUERY, params, "lang");
    Restricts(QUERY, params, QUERY.properties[2]);
    assert params["lang"] in QUERY.properties[2].schema.enumeration.value;
  }

  /** Accepted parameters of `encode` lead to one just when a destination is given, by name or by position. */
  lemma EncodeIsSoundWithoutDest(params: Params)
    requires Accepted("encode", params)
    ensures Dispatch("encode", params).Invoke?
    ensures LeadsToCapabilityError("encode", params) <==> "dest" in params || "1" in params
  {
    FormatIsJson(ENCODE, params);
    Requires(ENCODE, params, "node");
  }

  lemma NoOthers(schema: Schema, params: Params, name: string)
    requires schema.Keywords? && AcceptsFields(schema, params) && schema.additional == Some(Boolean(false))
    requires forall p <- schema.properties :: p.name != name
    ensures name !in params
  {}

  lemma OnlyNode(params: Params, name: string)
    requires AcceptsParams(EXECUTE, params) && name != "node"
    ensures name !in params
  {
    NoOthers(EXECUTE, params, name);
  }

  /** Letter by letter: only capitals change. */
  lemma {:induction false} LowerCaseAt(s: string, i: nat)
    requires i < |s|
    ensures |LowerCase(s)| == |s|
    ensures LowerCase(s)[i] == if 'A' <= s[i] <= 'Z' then ((s[i] as int) - ('A' as int) + ('a' as int)) as char else s[i]
  {
    if |s| > 1 { LowerCaseAt(s[1..], if i > 0 then i - 1 else 0); }
  }

  lemma ScriptLanguage(s: string)
    requires s == "js" || s == "javascript"
    ensures LowerCase(s) == s
  {
    LowerStays(s);
  }

  lemma {:induction false} LowerStays(s: string)
    requires forall i :: 0 <= i < |s| ==> 'a' <= s[i] <= 'z'
    ensures LowerCase(s) == s
  {
    if s != "" {
      LowerStays(s[1..]);
      assert s == [s[0]] + s[1..];
    }
  }

  lemma AcceptedExpression(fields: Params)
    requires AcceptsFields(CODE_EXPRESSION, fields)
    ensures Lookup(fields, "type") == Some(Str("CodeExpression"))
    ensures Lookup(fields, "programmingLanguage") in {Some(Str("js")), Some(Str("javascript"))}
  {
    Requires(CODE_EXPRESSION, fields, "type");
    Requires(CODE_EXPRESSION, fields, "programmingLanguage");
    Restricts(CODE_EXPRESSION, fields, CODE_EXPRESSION.properties[0]);
    Restricts(CODE_EXPRESSION, fields, CODE_EXPRESSION.properties[1]);
    assert fields["programmingLanguage"] in CODE_EXPRESSION.properties[1].schema.enumeration.value;
  }

  lemma AcceptedIsExecutable(node: Json)
    requires node.Obj? && Accepts(CODE_EXPRESSION, node)
    ensures Executable(node, None)
  {
    var fields := Fields(node.entries);
    AcceptedExpression(fields);
    ScriptLanguage(fields["programmingLanguage"].s);
  }

  lemma ExecutesNode(params: Params)
    requires "node" in params && "session" !in params && "1" !in params
    ensures Dispatch("execute", params).Invoke?
    ensures LeadsToCapabilityError("execute", params) <==>
      !Executable(params["node"], None) && !BadLanguage(params["node"])
  {}

  /**
   * Accepted parameters of `execute` lead to one just when the node is not an object: the schema
   * of the node does not say so, and its other keywords only concern objects.
   */
  lemma ExecuteIsSoundForObjects(params: Params)
    requires Accepted("execute", params)
    ensures Dispatch("execute", params).Invoke?
    ensures LeadsToCapabilityError("execute", params) <==> !params["node"].Obj?
  {
    Requires(EXECUTE, params, "node");
    OnlyNode(params, "session");
    OnlyNode(params, "1");
    ExecutesNode(params);
    if params["node"].Obj? {
      Restricts(EXECUTE, params, EXECUTE.properties[0]);
      AcceptedIsExecutable(params["node"]);
    }
  }

  /** Such a node exists: plain text is accepted, and cannot be executed. */
  lemma TextIsAccepted(text: string)
    ensures Accepted("execute", map["node" := Str(text)])
    ensures LeadsToCapabilityError("execute", map["node" := Str(text)])
  {
    var params := map["node" := Str(text)];
    assert EXECUTE.properties[0].name == "node";
    assert Accepts(CODE_EXPRESSION, Str(text));
    ExecuteIsSoundForObjects(params);
  }

  /**
   * The declaration as a whole: accepted parameters lead to a capability error exactly for an
   * `encode` with a destination and an `execute` of a node that is not an object.
   */
  lemma DeclarationIsSound(methodName: string, params: Params)
    requires Accepted(methodName, params)
    ensures LeadsToCapabilityError(methodName, params) <==>
      || (methodName == "encode" && ("dest" in params || "1" in params))
      || (methodName == "execute" && "node" in params && !params["node"].Obj?)
  {
    match methodName
    case "decode" => DecodeIsSound(params);
    case "query" => QueryIsSound(params);
    case "encode" => EncodeIsSoundWithoutDest(params);
    case "execute" => Requires(EXECUTE, params, "node"); ExecuteIsSoundForObjects(params);
    case _ =>
  }
}
