/** The `Peer` of src/base/Delegator.ts: a cache of validators over a manifest that may change. */
module Peers {
  import opened Values
  import opened Schema

  datatype Capability = One(schema: Schema) | Many(schemas: seq<Schema>)

  datatype Manifest = Manifest(capabilities: Option<map<string, Capability>>)

  function Schemas(c: Capability): seq<Schema> {
    match c
    case One(schema) => [schema]
    case Many(schemas) => schemas
  }

  datatype PeerState = PeerState(manifest: Option<Manifest>, validators: map<string, seq<Schema>>)

  /** What a manifest says: some schema it lists for the method accepts the parameters. */
  predicate Lists(manifest: Manifest, methodName: string, params: Params) {
    && manifest.capabilities.Some?
    && methodName in manifest.capabilities.value
    && exists schema <- Schemas(manifest.capabilities.value[methodName]) :: AcceptsParams(schema, params)
  }

  /** A single schema is listed as it is; of several, one that accepts is enough. */
  lemma ListsOne(manifest: Manifest, methodName: string, schema: Schema, params: Params)
    requires manifest.capabilities.Some? && methodName in manifest.capabilities.value
    requires manifest.capabilities.value[methodName] == One(schema)
    ensures Lists(manifest, methodName, params) <==> AcceptsParams(schema, params)
  {
    assert schema in Schemas(One(schema));
  }

  lemma ListsMany(manifest: Manifest, methodName: string, schemas: seq<Schema>, params: Params)
    requires manifest.capabilities.Some? && methodName in manifest.capabilities.value
    requires manifest.capabilities.value[methodName] == Many(schemas)
    ensures Lists(manifest, methodName, params) <==> exists i :: 0 <= i < |schemas| && AcceptsParams(schemas[i], params)
  {
    if i :| 0 <= i < |schemas| && AcceptsParams(schemas[i], params) { assert schemas[i] in Schemas(Many(schemas)); }
  }

  /** The validators for a method after `capable` was asked about it; `seen` is the manifest it awaited. */
  function Compile(s: PeerState, seen: Manifest, methodName: string): PeerState {
    if methodName in s.validators || seen.capabilities.None? || methodName !in seen.capabilities.value then s
    else s.(validators := s.validators[methodName := Schemas(seen.capabilities.value[methodName])])
  }

  predicate Verdict(s: PeerState, methodName: string, params: Params) {
    methodName in s.validators && exists schema <- s.validators[methodName] :: AcceptsParams(schema, params)
  }

  /** Every cached list of validators is what the current manifest lists for its method. */
  predicate Agrees(s: PeerState) {
    forall name <- s.validators :: s.manifest.Some? && ListsAs(s.manifest.value, name, s.validators[name])
  }

  predicate Listed(manifest: Manifest, methodName: string) {
    manifest.capabilities.Some? && methodName in manifest.capabilities.value
  }

  predicate ListsAs(manifest: Manifest, methodName: string, schemas: seq<Schema>) {
    Listed(manifest, methodName) && Schemas(manifest.capabilities.value[methodName]) == schemas
  }

  // ---------------------------------------------------------------- calls that overlap

  /** Where a call of `capable` stands: before one of its two awaits, or behind both. */
  datatype Phase =
    | Fetching                // waiting for the manifest of the executor
    | Ready(seen: Manifest)   // about to go on with the manifest it was given
    | Answered(yes: bool)
    | Failed

  datatype Ask = Ask(methodName: string, params: Params, phase: Phase)

  datatype System = System(peer: PeerState, asks: seq<Ask>)

  datatype Event =
    | Begin(methodName: string, params: Params)
    | Fetched(ask: nat, manifest: Manifest)
    | FetchFailed(ask: nat)
    | Resume(ask: nat)
    | Update(manifest: Manifest)

  predicate IsFetching(s: System, k: nat) { k < |s.asks| && s.asks[k].phase.Fetching? }

  predicate IsReady(s: System, k: nat) { k < |s.asks| && s.asks[k].phase.Ready? }

  function SetPhase(s: System, k: nat, phase: Phase): System
    requires k < |s.asks|
  {
    s.(asks := s.asks[k := s.asks[k].(phase := phase)])
  }

  function Next(s: System, e: Event): System {
    match e
    case Begin(name, params) =>
      var phase := if s.peer.manifest.Some? then Ready(s.peer.manifest.value) else Fetching;
      s.(asks := s.asks + [Ask(name, params, phase)])
    case Fetched(k, m) =>
      if !IsFetching(s, k) then s else SetPhase(s.(peer := s.peer.(manifest := Some(m))), k, Ready(m))
    case FetchFailed(k) => if !IsFetching(s, k) then s else SetPhase(s, k, Failed)
    case Resume(k) =>
      if !IsReady(s, k) then s
      else
        var a := s.asks[k];
        var peer := Compile(s.peer, a.phase.seen, a.methodName);
        SetPhase(s.(peer := peer), k, Answered(Verdict(peer, a.methodName, a.params)))
    case Update(m) => s.(peer := PeerState(Some(m), map[]))
  }

  function Exec(s: System, events: seq<Event>): System {
    if events == [] then s else Next(Exec(s, events[..|events| - 1]), events[|events| - 1])
  }

  // ---------------------------------------------------------------- exactly when the cache goes wrong

  /** Going on with `seen` now compiles nothing, or what the current manifest lists as well. */
  predicate StillCurrent(s: PeerState, seen: Manifest, methodName: string) {
    || methodName in s.validators
    || !Listed(seen, methodName)
    || (s.manifest.Some? && ListsAs(s.manifest.value, methodName, Schemas(seen.capabilities.value[methodName])))
  }

  /** The steps that leave the cache in agreement, as can be told before they are taken. */
  predicate Harmless(s: System, e: Event) {
    match e
    case Fetched(k, m) => IsFetching(s, k) ==> forall name <- s.peer.validators :: ListsAs(m, name, s.peer.validators[name])
    case Resume(k) => IsReady(s, k) ==> StillCurrent(s.peer, s.asks[k].phase.seen, s.asks[k].methodName)
    case _ => true
  }

  lemma CompileAgrees(s: PeerState, seen: Manifest, methodName: string)
    requires Agrees(s)
    ensures Agrees(Compile(s, seen, methodName)) <==> StillCurrent(s, seen, methodName)
  {
    if Compile(s, seen, methodName) != s { assert methodName in Compile(s, seen, methodName).validators; }
  }

  lemma StepAgrees(s: System, e: Event)
    requires Agrees(s.peer)
    ensures Agrees(Next(s, e).peer) <==> Harmless(s, e)
  {
    if e.Resume? && IsReady(s, e.ask) { CompileAgrees(s.peer, s.asks[e.ask].phase.seen, s.asks[e.ask].methodName); }
  }

  predicate AgreesThroughout(s: System, events: seq<Event>) {
    Agrees(Exec(s, events).peer) && (events == [] || AgreesThroughout(s, events[..|events| - 1]))
  }

  predicate HarmlessRun(s: System, events: seq<Event>) {
    events == [] ||
    (HarmlessRun(s, events[..|events| - 1]) && Harmless(Exec(s, events[..|events| - 1]), events[|events| - 1]))
  }

  /**
   * Any number of calls of `capable` and updates may overlap: the cache agrees with the manifest at
   * all times if and only if every step is harmless.
   */
  lemma {:induction false} AgreementThroughout(s: System, events: seq<Event>)
    requires Agrees(s.peer)
    ensures AgreesThroughout(s, events) <==> HarmlessRun(s, events)
  {
    if events != [] {
      var init := events[..|events| - 1];
      AgreementThroughout(s, init);
      if HarmlessRun(s, init) { StepAgrees(Exec(s, init), events[|events| - 1]); }
    }
  }

  /** The peer has its manifest, and no call is still waiting to fetch one. */
  predicate Known(s: System) {
    s.peer.manifest.Some? && forall k :: 0 <= k < |s.asks| ==> !s.asks[k].phase.Fetching?
  }

  /** Only the steps since the last update count. */
  predicate HarmlessSinceUpdate(s: System, events: seq<Event>) {
    events == [] ||
    var init, e := events[..|events| - 1], events[|events| - 1];
    e.Update? || (HarmlessSinceUpdate(s, init) && Harmless(Exec(s, init), e))
  }

  lemma KnownStays(s: System, e: Event)
    requires Known(s)
    ensures Known(Next(s, e))
    ensures !Agrees(s.peer) && !e.Update? ==> !Agrees(Next(s, e).peer)
  {
    var s' := Next(s, e);
    if !Agrees(s.peer) && !e.Update? {
      var name :| name in s.peer.validators && !ListsAs(s.peer.manifest.value, name, s.peer.validators[name]);
      assert s'.peer.manifest == s.peer.manifest;
      assert name in s'.peer.validators && s'.peer.validators[name] == s.peer.validators[name];
    }
  }

  lemma {:induction false} KnownThroughout(s: System, events: seq<Event>)
    requires Known(s)
    ensures Known(Exec(s, events))
  {
    if events != [] {
      KnownThroughout(s, events[..|events| - 1]);
      KnownStays(Exec(s, events[..|events| - 1]), events[|events| - 1]);
    }
  }

  /**
   * Once the peer has its manifest, the cache agrees with it at the end of a run if and only if no
   * call since the last update went on with a manifest that lists its method differently. A wrong
   * entry stays until the next update.
   */
  lemma {:induction false} AgreementInTheEnd(s: System, events: seq<Event>)
    requires Known(s) && Agrees(s.peer)
    ensures Agrees(Exec(s, events).peer) <==> HarmlessSinceUpdate(s, events)
  {
    if events != [] {
      var init, e := events[..|events| - 1], events[|events| - 1];
      var m := Exec(s, init);
      AgreementInTheEnd(s, init);
      KnownThroughout(s, init);
      KnownStays(m, e);
      if Agrees(m.peer) { StepAgrees(m, e); }
    }
  }

  /** What a call answers is what the current manifest says, if and only if the manifest it was given says the same. */
  lemma AnswerIsCurrent(s: System, k: nat)
    requires Agrees(s.peer) && s.peer.manifest.Some? && IsReady(s, k)
    ensures var a := s.asks[k];
      Next(s, Resume(k)).asks[k].phase == Answered(Lists(s.peer.manifest.value, a.methodName, a.params))
      <==> (a.methodName in s.peer.validators ||
            (Lists(a.phase.seen, a.methodName, a.params) <==> Lists(s.peer.manifest.value, a.methodName, a.params)))
  {}

  /**
   * An update between the two halves of `capable` breaks the agreement: the validators are compiled
   * from the manifest that was awaited, and kept although the manifest has changed.
   */
  lemma UpdateDuringCapable(params: Params)
    ensures var before := Manifest(Some(map["decode" := One(Boolean(false))]));
      var after := Manifest(Some(map["decode" := One(Boolean(true))]));
      var asked := Next(System(PeerState(Some(before), map[]), []), Begin("decode", params));
      var s := Next(Next(asked, Update(after)), Resume(0));
      && !Harmless(Next(asked, Update(after)), Resume(0))
      && !Agrees(s.peer) && !Verdict(s.peer, "decode", params) && Lists(after, "decode", params)
  {
    assert Boolean(true) in Schemas(One(Boolean(true)));
    assert Schemas(One(Boolean(true)))[0] != Schemas(One(Boolean(false)))[0];
  }

  // ---------------------------------------------------------------- calls that do not overlap

  datatype Operation =
    | Capable(methodName: string, params: Params, fetched: Manifest)
    | Replace(manifest: Manifest)

  /** The steps of a completed call of `capable` or `update`. */
  function StepsOf(s: System, op: Operation): seq<Event> {
    match op
    case Capable(name, params, fetched) =>
      [Begin(name, params)] + (if s.peer.manifest.None? then [Fetched(|s.asks|, fetched)] else []) + [Resume(|s.asks|)]
    case Replace(m) => [Update(m)]
  }

  function Complete(s: System, op: Operation): System { Exec(s, StepsOf(s, op)) }

  function CompleteAll(s: System, ops: seq<Operation>): System {
    if ops == [] then s else Complete(CompleteAll(s, ops[..|ops| - 1]), ops[|ops| - 1])
  }

  lemma ExecSnoc(s: System, events: seq<Event>, e: Event)
    ensures Exec(s, events + [e]) == Next(Exec(s, events), e)
    ensures HarmlessRun(s, events + [e]) <==> HarmlessRun(s, events) && Harmless(Exec(s, events), e)
  {
    assert (events + [e])[..|events|] == events;
  }

  function Asked(s: System, op: Operation): System
    requires op.Capable?
  {
    var begun := Next(s, Begin(op.methodName, op.params));
    if s.peer.manifest.None? then Next(begun, Fetched(|s.asks|, op.fetched)) else begun
  }

  /** A call goes on with the manifest that is the current one, so it is harmless all the way. */
  lemma CompleteIsHarmless(s: System, op: Operation)
    requires Agrees(s.peer)
    ensures HarmlessRun(s, StepsOf(s, op))
    ensures op.Capable? ==> Complete(s, op) == Next(Asked(s, op), Resume(|s.asks|))
  {
    match op
    case Capable(name, params, fetched) =>
      var e1 := [] + [Begin(name, params)];
      ExecSnoc(s, [], Begin(name, params));
      if s.peer.manifest.None? {
        ExecSnoc(s, e1, Fetched(|s.asks|, fetched));
        ExecSnoc(s, e1 + [Fetched(|s.asks|, fetched)], Resume(|s.asks|));
      } else {
        assert e1 + [] == e1;
        ExecSnoc(s, e1, Resume(|s.asks|));
      }
    case Replace(m) => ExecSnoc(s, [], Update(m)); assert [] + [Update(m)] == [Update(m)];
  }

  lemma {:induction false} AgreementKept(s: System, ops: seq<Operation>)
    requires Agrees(s.peer)
    ensures Agrees(CompleteAll(s, ops).peer)
  {
    if ops != [] {
      var m, op := CompleteAll(s, ops[..|ops| - 1]), ops[|ops| - 1];
      AgreementKept(s, ops[..|ops| - 1]);
      CompleteIsHarmless(m, op);
      AgreementThroughout(m, StepsOf(m, op));
    }
  }

  /** After any completed calls, `capable` answers what the current manifest says. */
  lemma CacheAgreement(s: System, ops: seq<Operation>, methodName: string, params: Params, fetched: Manifest)
    requires Agrees(s.peer)
    ensures var m := CompleteAll(s, ops); var s' := Complete(m, Capable(methodName, params, fetched));
      && s'.peer.manifest.Some? && |m.asks| < |s'.asks|
      && s'.asks[|m.asks|].phase == Answered(Lists(s'.peer.manifest.value, methodName, params))
  {
    var m, op := CompleteAll(s, ops), Capable(methodName, params, fetched);
    AgreementKept(s, ops);
    CompleteIsHarmless(m, op);
    assert Agrees(Asked(m, op).peer);
    AnswerIsCurrent(Asked(m, op), |m.asks|);
  }

  // ---------------------------------------------------------------- the object

  class Peer {
    var manifest: Option<Manifest>
    var validators: map<string, seq<Schema>>

    function State(): PeerState
      reads this
    {
      PeerState(manifest, validators)
    }

    ghost predicate Valid()
      reads this
    {
      Agrees(State())
    }

    constructor (manifest: Option<Manifest>)
      ensures State() == PeerState(manifest, map[]) && Valid()
    {
      this.manifest, validators := manifest, map[];
    }

    method DoUpdate(m: Manifest)
      modifies this
      ensures State() == PeerState(Some(m), map[]) && Valid()
    {
      manifest, validators := Some(m), map[];
    }

    /** `capable` behind its awaits, with the manifest that it was given. */
    method GoOn(seen: Manifest, methodName: string, params: Params) returns (r: bool)
      modifies this`validators
      ensures State() == Compile(old(State()), seen, methodName)
      ensures r == Verdict(State(), methodName, params)
      ensures old(Valid()) ==> (Valid() <==> old(StillCurrent(State(), seen, methodName)))
    {
      ghost var before := State();
      if Agrees(before) { CompileAgrees(before, seen, methodName); }
      var compiled: seq<Schema>;
      if methodName in validators {
        compiled := validators[methodName];
      } else {
        if seen.capabilities.None? { return false; }
        if methodName !in seen.capabilities.value { return false; }
        compiled := Schemas(seen.capabilities.value[methodName]);
        validators := validators[methodName := compiled];
      }
      for i := 0 to |compiled|
        invariant forall j :: 0 <= j < i ==> !AcceptsParams(compiled[j], params)
      {
        if AcceptsParams(compiled[i], params) { return true; }
      }
      r := false;
    }

    /** A completed call. `fetched` is what the peer's executor would answer when asked for its manifest. */
    method IsCapable(methodName: string, params: Params, fetched: Manifest) returns (r: bool)
      requires Valid()
      modifies this
      ensures Valid() && manifest == Some(if old(manifest).Some? then old(manifest).value else fetched)
      ensures r <==> Lists(manifest.value, methodName, params)
    {
      if manifest.None? { manifest := Some(fetched); }
      r := GoOn(manifest.value, methodName, params);
    }
  }
}
