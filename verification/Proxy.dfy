/**
 * Chains of clients and servers, such as those of src/direct. A hop is a client whose server
 * dispatches to the next executor; `hops` lists, from the executor outwards, whether the responses
 * of each server are JSON text, and which claims the server applies. Those of a DirectServer always
 * are text, and it applies none. Over every other transport the client gets plain objects as well,
 * so that a hop that hands on an instance of JsonRpcError is one that the classes allow but that
 * none of the clients makes.
 */
module Proxy {
  import opened Values
  import opened Executor
  import opened JsonRpc

  /** The methods of the executor at the end of the chain. */
  type Leaf = Invocation -> Outcome

  const ID := "re"

  /** `dispatch` of an executor that implements the typed methods itself. */
  function LeafDispatch(leaf: Leaf, methodName: string, params: Params): Outcome {
    match Dispatch(methodName, params)
    case Invoke(i) => leaf(i)
    case Refuse(thrown) => Threw(thrown)
  }

  datatype Hop = Hop(stringified: bool, claims: Json)

  /** `call` of the outermost client of the chain. */
  function Call(leaf: Leaf, hops: seq<Hop>, methodName: string, params: Params): Outcome
    requires hops != []
    decreases |hops|
  {
    var inner, hop := hops[..|hops| - 1], hops[|hops| - 1];
    var dispatch := (m: string, p: Params) =>
      if inner == [] then LeafDispatch(leaf, m, p)
      else
        match Dispatch(m, p)
        case Invoke(i) => Call(leaf, inner, MethodOf(i), ParamsOf(i))
        case Refuse(thrown) => Threw(thrown);
    var response := Respond(dispatch, Ok(Request(methodName, params, Some(ID))), hop.claims);
    Accept(response.value, hop.stringified)
  }

  /** What a hop makes of the outcome behind its server. */
  function Across(stringified: bool, o: Outcome): Outcome {
    match o
    case Returned(value) => Returned(value)
    case Threw(thrown) => Threw(ToError(FromError(thrown), stringified))
  }

  function Through(hops: seq<Hop>, o: Outcome): Outcome {
    if hops == [] then o else Across(hops[|hops| - 1].stringified, Through(hops[..|hops| - 1], o))
  }

  /** What the outermost server makes of the call: a refusal, or a call of the next executor. */
  lemma {:induction false} CallPasses(leaf: Leaf, hops: seq<Hop>, methodName: string, params: Params)
    requires hops != []
    ensures Call(leaf, hops, methodName, params) ==
      match Dispatch(methodName, params["claims" := hops[|hops| - 1].claims])
      case Invoke(i) => Through(hops, leaf(Claims(i, hops[0].claims)))
      case Refuse(thrown) => Across(hops[|hops| - 1].stringified, Threw(thrown))
    decreases |hops|
  {
    var inner, claims := hops[..|hops| - 1], hops[|hops| - 1].claims;
    match Dispatch(methodName, params["claims" := claims])
    case Refuse(thrown) =>
    case Invoke(i) =>
      if inner == [] {
        ClaimsStay(methodName, params, claims);
        assert Through([], leaf(i)) == leaf(i);
      } else {
        CallPasses(leaf, inner, MethodOf(i), ParamsOf(i));
        DispatchWithClaims(i, inner[|inner| - 1].claims);
      }
  }

  /**
   * A call is refused by the first server, or reaches the executor once, with the same arguments,
   * except for its claims: those are of the innermost server, whatever the others applied.
   */
  lemma {:induction false} CallReaches(leaf: Leaf, hops: seq<Hop>, methodName: string, params: Params)
    requires hops != []
    ensures Call(leaf, hops, methodName, params) ==
      match Dispatch(methodName, params["claims" := hops[0].claims])
      case Invoke(i) => Through(hops, leaf(i))
      case Refuse(thrown) => Across(hops[|hops| - 1].stringified, Threw(thrown))
  {
    CallPasses(leaf, hops, methodName, params);
    OnlyClaimsDiffer(methodName, params, hops[|hops| - 1].claims, hops[0].claims);
  }

  // ---------------------------------------------------------------- what the hops do to an error

  function Stringified(hops: seq<Hop>): nat {
    if hops == [] then 0 else Stringified(hops[..|hops| - 1]) + if hops[|hops| - 1].stringified then 1 else 0
  }

  function Prefixes(k: nat): string {
    if k == 0 then "" else INTERNAL + Prefixes(k - 1)
  }

  lemma PrefixesLength(k: nat)
    ensures |Prefixes(k)| == 16 * k
  {}

  /** An error that has been taken for an internal one `k` times over. */
  function Wrapped(k: nat, e: WireError): WireError {
    if k == 0 then e else WireError(SERVER_ERROR, Prefixes(k) + e.message, Trace(None))
  }

  lemma PrefixesMore(k: nat, message: string)
    ensures INTERNAL + (Prefixes(k) + message) == Prefixes(k + 1) + message
  {}

  /** An error that crossed a hop is sent on as it was, or wrapped once more if it was stringified. */
  lemma WrappedAgain(k: nat, e: WireError, stringified: bool)
    requires e.code != CAPABILITY_ERROR
    ensures Wrapped(k, e).code != CAPABILITY_ERROR
    ensures FromError(ToError(Wrapped(k, e), stringified)) == Wrapped(if stringified then k + 1 else k, e)
  {
    PrefixesMore(k, e.message);
    assert "" + e.message == e.message;
  }

  predicate Capability(thrown: Thrown) { FromError(thrown).code == CAPABILITY_ERROR }

  /**
   * The error of a chain in closed form. A capability error keeps its class and message over any
   * mix of hops. Any other error is prefixed once for every stringified hop but the outermost.
   */
  lemma {:induction false} ThroughLaw(hops: seq<Hop>, thrown: Thrown)
    requires hops != []
    ensures var e, n := FromError(thrown), |hops| - 1;
      Through(hops, Threw(thrown)) ==
        if Capability(thrown) then Threw(CapabilityError(e.message))
        else Threw(ToError(Wrapped(Stringified(hops[..n]), e), hops[n].stringified))
    decreases |hops|
  {
    var e, n := FromError(thrown), |hops| - 1;
    if n == 0 {
      assert Through(hops[..0], Threw(thrown)) == Threw(thrown);
    } else {
      var inner := hops[..n];
      ThroughLaw(inner, thrown);
      if !Capability(thrown) { WrappedAgain(Stringified(inner[..n - 1]), e, inner[n - 1].stringified); }
    }
  }

  /** Results pass unchanged through any number of hops. */
  lemma {:induction false} ResultsPass(hops: seq<Hop>, value: Option<Json>)
    ensures Through(hops, Returned(value)) == Returned(value)
  {
    if hops != [] { ResultsPass(hops[..|hops| - 1], value); }
  }

  /** The executor's own method throws something other than a capability error. */
  predicate FailsInternally(leaf: Leaf, claims: Json, methodName: string, params: Params) {
    match Dispatch(methodName, params["claims" := claims])
    case Invoke(i) => leaf(i).Threw? && !Capability(leaf(i).thrown)
    case Refuse(_) => false
  }

  /** The outermost hop alone, with the claims that the executor at the end of the chain sees. */
  function Alone(hops: seq<Hop>): seq<Hop>
    requires hops != []
  {
    [Hop(hops[|hops| - 1].stringified, hops[0].claims)]
  }

  /**
   * Proxy transparency, exactly: a chain behaves like its outermost hop alone if and only if no
   * inner hop is stringified, or the executor's own method does not fail internally.
   */
  lemma Transparency(leaf: Leaf, hops: seq<Hop>, methodName: string, params: Params)
    requires hops != []
    ensures Call(leaf, hops, methodName, params) == Call(leaf, Alone(hops), methodName, params)
      <==> (Stringified(hops[..|hops| - 1]) == 0 || !FailsInternally(leaf, hops[0].claims, methodName, params))
  {
    var claims := hops[0].claims;
    CallReaches(leaf, hops, methodName, params);
    CallReaches(leaf, Alone(hops), methodName, params);
    match Dispatch(methodName, params["claims" := claims])
    case Refuse(_) =>
    case Invoke(i) =>
      match leaf(i)
      case Returned(value) =>
        ResultsPass(hops, value);
        ResultsPass(Alone(hops), value);
      case Threw(thrown) => ErrorsAlike(hops, thrown);
  }

  lemma ErrorsAlike(hops: seq<Hop>, thrown: Thrown)
    requires hops != []
    ensures Through(hops, Threw(thrown)) == Through(Alone(hops), Threw(thrown))
      <==> (Stringified(hops[..|hops| - 1]) == 0 || Capability(thrown))
  {
    var n := |hops| - 1;
    ThroughLaw(hops, thrown);
    ThroughLaw(Alone(hops), thrown);
    var k, e := Stringified(hops[..n]), FromError(thrown);
    assert Stringified(Alone(hops)[..0]) == 0;
    PrefixesLength(k);
    if k > 0 && !Capability(thrown) {
      assert |Wrapped(k, e).message| > |e.message|;
      assert ToError(Wrapped(k, e), hops[n].stringified) != ToError(e, hops[n].stringified);
    }
  }

  const NO_CLAIMS := Obj([])

  /** `n` direct hops: the responses of each are JSON text, and there are no claims. */
  function Direct(n: nat): seq<Hop> { seq(n, _ => Hop(true, NO_CLAIMS)) }

  lemma {:induction false} DirectAllStringified(n: nat)
    ensures Stringified(Direct(n)) == n
  {
    if n > 0 {
      assert Direct(n)[..n - 1] == Direct(n - 1);
      DirectAllStringified(n - 1);
    }
  }

  lemma DirectHops(n: nat)
    requires n > 1
    ensures |Direct(n)| == n && Direct(1) == Alone(Direct(n))
    ensures Direct(n)[n - 1].stringified && Stringified(Direct(n)[..n - 1]) == n - 1
  {
    DirectAllStringified(n - 1);
    assert Direct(n)[..n - 1] == Direct(n - 1);
  }

  lemma DirectError(n: nat, thrown: Thrown)
    requires n > 1 && !Capability(thrown)
    ensures Through(Direct(n), Threw(thrown)) ==
      Threw(PlainObject(WireError(SERVER_ERROR, Prefixes(n - 1) + FromError(thrown).message, Trace(None))))
  {
    DirectHops(n);
    ThroughLaw(Direct(n), thrown);
  }

  /**
   * A chain of two or more direct clients gives the result or the error of a single one if and
   * only if the executor's own method does not fail internally. If it does, the message has one
   * more prefix for every further hop.
   */
  lemma DirectTransparency(leaf: Leaf, n: nat, methodName: string, params: Params)
    requires n > 1
    ensures Call(leaf, Direct(n), methodName, params) == Call(leaf, Direct(1), methodName, params)
      <==> !FailsInternally(leaf, NO_CLAIMS, methodName, params)
    ensures FailsInternally(leaf, NO_CLAIMS, methodName, params) ==>
      var e := FromError(leaf(Dispatch(methodName, params["claims" := NO_CLAIMS]).invocation).thrown);
      Call(leaf, Direct(n), methodName, params) ==
        Threw(PlainObject(WireError(SERVER_ERROR, Prefixes(n - 1) + e.message, Trace(None))))
  {
    DirectHops(n);
    Transparency(leaf, Direct(n), methodName, params);
    CallReaches(leaf, Direct(n), methodName, params);
    if FailsInternally(leaf, NO_CLAIMS, methodName, params) {
      DirectError(n, leaf(Dispatch(methodName, params["claims" := NO_CLAIMS]).invocation).thrown);
    }
  }

  /** Calls that succeed give, at any distance, what calling the executor with the innermost claims gives. */
  lemma {:induction false} SuccessIsDirect(leaf: Leaf, hops: seq<Hop>, methodName: string, params: Params)
    requires hops != [] && LeafDispatch(leaf, methodName, params["claims" := hops[0].claims]).Returned?
    ensures Call(leaf, hops, methodName, params) == LeafDispatch(leaf, methodName, params["claims" := hops[0].claims])
  {
    CallReaches(leaf, hops, methodName, params);
    ResultsPass(hops, leaf(Dispatch(methodName, params["claims" := hops[0].claims]).invocation).value);
  }

  // ---------------------------------------------------------------- one direct hop, error by error

  /** An unknown method, and a required parameter that is missing, are named to the caller. */
  lemma RefusalsReachCaller(leaf: Leaf, methodName: string, params: Params)
    ensures match Required(methodName)
      case None =>
        Call(leaf, Direct(1), methodName, params) ==
          Threw(PlainObject(WireError(-32601, "Method not found: \"" + methodName + "\"", NoData)))
      case Some(required) =>
        match FirstMissing(params["claims" := NO_CLAIMS], required)
        case Some(name) =>
          Call(leaf, Direct(1), methodName, params) ==
            Threw(PlainObject(WireError(-32602, "Invalid params: \"" + name + "\" is missing", NoData)))
        case None => true
  {
    RefusedExactly(methodName, params["claims" := NO_CLAIMS]);
    CallReaches(leaf, Direct(1), methodName, params);
  }

  /** What the executor's own method throws reaches the caller as a capability error, or as an internal one. */
  lemma FailuresReachCaller(leaf: Leaf, methodName: string, params: Params, message: string, stack: Option<string>)
    requires Dispatch(methodName, params["claims" := NO_CLAIMS]).Invoke?
    ensures var thrown := leaf(Dispatch(methodName, params["claims" := NO_CLAIMS]).invocation);
      && (thrown == Threw(CapabilityError(message)) ==>
            Call(leaf, Direct(1), methodName, params) == Threw(CapabilityError(message)))
      && (thrown == Threw(OtherError(message, stack)) ==>
            Call(leaf, Direct(1), methodName, params) ==
              Threw(PlainObject(WireError(-32000, "Internal error: " + message, Trace(stack)))))
  {
    CallReaches(leaf, Direct(1), methodName, params);
    var o := leaf(Dispatch(methodName, params["claims" := NO_CLAIMS]).invocation);
    assert Direct(1)[..0] == [];
    assert Through(Direct(1), o) == Across(true, Through([], o));
  }
}
