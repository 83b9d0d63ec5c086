/**
 * Many JSON-RPC clients and servers over a network that may reorder, duplicate or lose messages:
 * src/base/Client.ts against src/base/Server.ts. Each step is what runs between two `await`s.
 */
module Protocol {
  import opened Values
  import opened Executor
  import opened JsonRpc
  import opened Requests

  datatype Message =
    | ToServer(client: nat, request: Request)
    | ToClient(client: nat, response: Response)

  /** What settled the promise of a request. */
  datatype Settlement = ByStop | ByResponse(response: Response)

  datatype ClientState = ClientState(
    requests: set<string>,               // the keys of the map of pending requests
    promises: map<string, Settlement>,   // the settled promises
    sends: map<string, bool>,            // whether the awaited `send` of a request succeeded
    called: set<string>,                 // history: the ids of all requests made
    delivered: set<string>)              // history: the ids of all responses that arrived, expected or not

  const NEW_CLIENT := ClientState({}, map[], map[], {}, {})

  // ---------------------------------------------------------------- the client

  /** A promise takes its first settlement and ignores later ones. */
  function Settle(c: ClientState, id: string, cause: Settlement): ClientState {
    if id in c.promises then c else c.(promises := c.promises[id := cause])
  }

  function CallOn(c: ClientState, id: string): ClientState {
    c.(requests := c.requests + {id}, called := c.called + {id})
  }

  /** A response without an id, or for no pending request, is dropped. */
  function AcceptOn(c: ClientState, response: Response): ClientState {
    if response.id == "" || response.id !in c.requests then c
    else Settle(c, response.id, ByResponse(response)).(requests := c.requests - {response.id})
  }

  function ReceiveOn(c: ClientState, response: Response): ClientState {
    AcceptOn(c, response)
      .(delivered := if response.id == "" then c.delivered else c.delivered + {response.id})
  }

  /** Rejects every outstanding request, and leaves the map of requests as it is. */
  function StopOn(c: ClientState): ClientState {
    c.(promises := map id <- c.promises.Keys + c.requests ::
         if id in c.promises then c.promises[id] else ByStop)
  }

  function SendOn(c: ClientState, id: string, ok: bool): ClientState {
    if id in c.called && id !in c.sends then c.(sends := c.sends[id := ok]) else c
  }

  /** What the caller of `call` sees: it awaits `send`, and then the promise of the request. */
  datatype Seen = NotYet | SendFailed | Settled(cause: Settlement)

  function CallerSees(c: ClientState, id: string): Seen {
    if id !in c.sends then NotYet
    else if !c.sends[id] then SendFailed
    else if id in c.promises then Settled(c.promises[id])
    else NotYet
  }

  // ---------------------------------------------------------------- the system

  datatype System = System(
    clients: seq<ClientState>,
    net: multiset<Message>,
    computed: set<(Option<string>, Response)>,   // history: every response computed, with the id it serves
    lossy: bool)                                 // history: has a message been lost?

  datatype Event =
    | Call(client: nat, id: string, methodName: string, params: Params)
    | SendDone(client: nat, id: string, ok: bool)
    | Serve(message: Message, outcome: Outcome, claims: Json)
    | Deliver(message: Message)
    | Duplicate(message: Message)
    | Lose(message: Message)
    | Malformed(client: nat, thrown: Thrown)
    | Stop(client: nat)

  function Update(s: System, i: nat, c: ClientState): System
    requires i < |s.clients|
  {
    s.(clients := s.clients[i := c])
  }

  /** The response of a server whose executor answers the request with `outcome`. */
  function Reply(request: Request, outcome: Outcome, claims: Json): Option<Response> {
    Respond((m, p) => outcome, Ok(request), claims)
  }

  function Next(s: System, e: Event): System {
    match e
    case Call(i, id, name, params) =>
      if i >= |s.clients| then s
      else
        Update(s, i, CallOn(s.clients[i], id))
          .(net := s.net + multiset{ToServer(i, Request(name, params, Some(id)))})
    case SendDone(i, id, ok) =>
      if i >= |s.clients| then s else Update(s, i, SendOn(s.clients[i], id, ok))
    case Serve(m, outcome, claims) =>
      if m !in s.net || m.ToClient? then s
      else
        var rest := s.net - multiset{m};
        (match Reply(m.request, outcome, claims)
         case None => s.(net := rest)
         case Some(response) =>
           s.(net := rest + multiset{ToClient(m.client, response)},
              computed := s.computed + {(m.request.id, response)}))
    case Deliver(m) =>
      if m !in s.net || m.ToServer? || m.client >= |s.clients| then s
      else Update(s, m.client, ReceiveOn(s.clients[m.client], m.response)).(net := s.net - multiset{m})
    case Duplicate(m) => if m in s.net then s.(net := s.net + multiset{m}) else s
    case Lose(m) => if m in s.net then s.(net := s.net - multiset{m}, lossy := true) else s
    case Malformed(i, thrown) =>
      s.(net := s.net + multiset{ToClient(i, Respond((m, p) => Returned(None), Bad(thrown), Null).value)})
    case Stop(i) =>
      if i >= |s.clients| then s else Update(s, i, StopOn(s.clients[i]))
  }

  function Exec(s: System, events: seq<Event>): System {
    if events == [] then s
    else Next(Exec(s, events[..|events| - 1]), events[|events| - 1])
  }

  function Initial(clients: nat): System {
    System(seq(clients, _ => NEW_CLIENT), multiset{}, {}, false)
  }

  /** Request ids are generated: never empty, never used before by any client. */
  predicate FreshStep(s: System, e: Event) {
    e.Call? ==> e.id != "" && forall i :: 0 <= i < |s.clients| ==> e.id !in s.clients[i].called
  }

  predicate FreshRun(s: System, events: seq<Event>) {
    events == [] ||
    (FreshRun(s, events[..|events| - 1]) && FreshStep(Exec(s, events[..|events| - 1]), events[|events| - 1]))
  }

  // ---------------------------------------------------------------- what every step keeps

  /**
   * What a client keeps by itself, whatever arrives: what it called is either pending or was
   * delivered; of that, what was delivered is settled, and by a response only if by its own.
   */
  predicate Consistent(c: ClientState) {
    && "" !in c.called
    && c.requests == c.called - c.delivered
    && c.promises.Keys <= c.called
    && (forall id <- c.called :: id in c.delivered ==> id in c.promises)
    && (forall id <- c.promises :: c.promises[id].ByResponse? ==>
          c.promises[id].response.id == id && id in c.delivered)
  }

  /** What it keeps because of what the network brings. */
  predicate ClientInv(s: System, c: ClientState) {
    && Consistent(c)
    && c.delivered <= c.called
    && forall id <- c.promises :: c.promises[id].ByResponse? ==> (Some(id), c.promises[id].response) in s.computed
  }

  lemma ReceiveConsistent(c: ClientState, response: Response)
    requires Consistent(c)
    ensures Consistent(ReceiveOn(c, response))
  {}

  /** A message is about a request of its client; a response was computed for that request. */
  predicate MessageInv(s: System, m: Message) {
    match m
    case ToServer(i, request) =>
      i < |s.clients| && request.id.Some? && request.id.value in s.clients[i].called
    case ToClient(i, response) =>
      response.id == "" ||
      (i < |s.clients| && response.id in s.clients[i].called && (Some(response.id), response) in s.computed)
  }

  predicate About(m: Message, i: nat, id: string) {
    match m
    case ToServer(j, request) => j == i && request.id == Some(id)
    case ToClient(j, response) => j == i && response.id == id
  }

  /** As long as nothing is lost, something about every pending request is on its way. */
  predicate InFlight(s: System, i: nat, id: string) {
    exists m :: m in s.net && About(m, i, id)
  }

  predicate Inv(s: System) {
    && (forall i :: 0 <= i < |s.clients| ==> ClientInv(s, s.clients[i]))
    && (forall m <- s.net :: MessageInv(s, m))
    && (!s.lossy ==> forall i, id :: 0 <= i < |s.clients| && id in s.clients[i].requests ==> InFlight(s, i, id))
  }

  /** Nothing a step does to the history can break what is known about other clients and messages. */
  lemma Grows(s: System, s': System)
    requires |s.clients| == |s'.clients| && s.computed <= s'.computed
    requires forall i :: 0 <= i < |s.clients| ==> s.clients[i].called <= s'.clients[i].called
    ensures forall m :: MessageInv(s, m) ==> MessageInv(s', m)
    ensures forall c :: ClientInv(s, c) ==> ClientInv(s', c)
  {}

  lemma CallKeeps(s: System, i: nat, id: string, name: string, params: Params)
    requires Inv(s) && FreshStep(s, Call(i, id, name, params))
    ensures Inv(Next(s, Call(i, id, name, params)))
  {
    var s' := Next(s, Call(i, id, name, params));
    if i < |s.clients| {
      Grows(s, s');
      var m := ToServer(i, Request(name, params, Some(id)));
      assert ClientInv(s', s'.clients[i]);
      forall j, k | !s'.lossy && 0 <= j < |s'.clients| && k in s'.clients[j].requests ensures InFlight(s', j, k) {
        if j == i && k == id {
          assert m in s'.net && About(m, j, k);
        } else {
          assert InFlight(s, j, k);
          var n :| n in s.net && About(n, j, k);
          assert n in s'.net;
        }
      }
    }
  }

  lemma ServeKeeps(s: System, m: Message, outcome: Outcome, claims: Json)
    requires Inv(s)
    ensures Inv(Next(s, Serve(m, outcome, claims)))
  {
    var s' := Next(s, Serve(m, outcome, claims));
    if m in s.net && m.ToServer? {
      assert MessageInv(s, m);
      var response := Reply(m.request, outcome, claims).value;
      var reply := ToClient(m.client, response);
      assert response.id == m.request.id.value;
      Grows(s, s');
      forall n | n in s'.net ensures MessageInv(s', n) {
        if n != reply { assert n in s.net; }
      }
      forall j, k | !s'.lossy && 0 <= j < |s'.clients| && k in s'.clients[j].requests ensures InFlight(s', j, k) {
        assert InFlight(s, j, k);
        var n :| n in s.net && About(n, j, k);
        if n == m { assert reply in s'.net && About(reply, j, k); } else { assert n in s'.net; }
      }
    }
  }

  lemma ReceiveKeeps(s: System, c: ClientState, response: Response)
    requires ClientInv(s, c)
    requires response.id == "" || (response.id in c.called && (Some(response.id), response) in s.computed)
    ensures ClientInv(s, ReceiveOn(c, response))
  {}

  lemma DeliverKeeps(s: System, m: Message)
    requires Inv(s)
    ensures Inv(Next(s, Deliver(m)))
  {
    var s' := Next(s, Deliver(m));
    if m in s.net && m.ToClient? && m.client < |s.clients| {
      assert MessageInv(s, m);
      assert ClientInv(s, s.clients[m.client]);
      ReceiveKeeps(s, s.clients[m.client], m.response);
      Grows(s, s');
      forall n | n in s'.net ensures MessageInv(s', n) { assert n in s.net; }
      forall j, k | !s'.lossy && 0 <= j < |s'.clients| && k in s'.clients[j].requests ensures InFlight(s', j, k) {
        assert k in s.clients[j].requests;
        assert InFlight(s, j, k);
        var n :| n in s.net && About(n, j, k);
        assert n in s'.net;
      }
    }
  }

  /** Steps that only add messages, or lose them. */
  lemma NetKeeps(s: System, e: Event)
    requires Inv(s) && (e.Duplicate? || e.Lose? || e.Malformed?)
    ensures Inv(Next(s, e))
  {
    var s' := Next(s, e);
    Grows(s, s');
    forall n | n in s'.net ensures MessageInv(s', n) {
      if n in s.net { assert MessageInv(s, n); }
    }
    forall j, k | !s'.lossy && 0 <= j < |s'.clients| && k in s'.clients[j].requests ensures InFlight(s', j, k) {
      assert InFlight(s, j, k);
      var n :| n in s.net && About(n, j, k);
      assert n in s'.net;
    }
  }

  /** Steps of one client that send and receive nothing. */
  lemma LocalKeeps(s: System, e: Event)
    requires Inv(s) && (e.SendDone? || e.Stop?)
    ensures Inv(Next(s, e))
  {
    var s' := Next(s, e);
    if e.client < |s.clients| {
      Grows(s, s');
      assert ClientInv(s, s.clients[e.client]);
      assert ClientInv(s', s'.clients[e.client]);
      forall j, k | !s'.lossy && 0 <= j < |s'.clients| && k in s'.clients[j].requests ensures InFlight(s', j, k) {
        assert InFlight(s, j, k);
        var n :| n in s.net && About(n, j, k);
        assert n in s'.net;
      }
    }
  }

  lemma StepKeeps(s: System, e: Event)
    requires Inv(s) && FreshStep(s, e)
    ensures Inv(Next(s, e))
  {
    match e
    case Call(i, id, name, params) => CallKeeps(s, i, id, name, params);
    case Serve(m, outcome, claims) => ServeKeeps(s, m, outcome, claims);
    case Deliver(m) => DeliverKeeps(s, m);
    case SendDone(_, _, _) => LocalKeeps(s, e);
    case Stop(_) => LocalKeeps(s, e);
    case _ => NetKeeps(s, e);
  }

  // ---------------------------------------------------------------- every run

  lemma {:induction false} RunKeeps(s: System, events: seq<Event>)
    requires Inv(s) && FreshRun(s, events)
    ensures Inv(Exec(s, events))
  {
    if events != [] {
      RunKeeps(s, events[..|events| - 1]);
      StepKeeps(Exec(s, events[..|events| - 1]), events[|events| - 1]);
    }
  }

  /**
   * Over every run, with any number of clients: the keys of a client's map of requests are the ids
   * it called and that no response with such an id ever reached it, even after it stopped; a promise
   * that a response settled was settled by one that a server computed for that very id; a request
   * whose response arrived is settled.
   */
  lemma {:induction false} RequestsAreUnanswered(clients: nat, events: seq<Event>, i: nat)
    requires FreshRun(Initial(clients), events) && i < |Exec(Initial(clients), events).clients|
    ensures var s := Exec(Initial(clients), events); var c := s.clients[i];
      (&& c.requests == c.called - c.delivered
       && c.delivered <= c.promises.Keys
       && (forall id <- c.promises :: c.promises[id].ByResponse? ==>
             c.promises[id].response.id == id && (Some(id), c.promises[id].response) in s.computed)
       && c.delivered <= c.called
       && (forall id <- c.requests :: id in c.promises ==> c.promises[id] == ByStop))
  {
    RunKeeps(Initial(clients), events);
    assert ClientInv(Exec(Initial(clients), events), Exec(Initial(clients), events).clients[i]);
  }

  // ---------------------------------------------------------------- what settles a promise

  /** Some server served a request with this id when its executor gave this outcome, and this is the response. */
  predicate ServedBy(e: Event, id: string, response: Response) {
    e.Serve? && e.message.ToServer? && e.message.request.id == Some(id) && Carries(response, id, e.outcome)
  }

  predicate Served(events: seq<Event>, id: string, response: Response) {
    exists k :: 0 <= k < |events| && ServedBy(events[k], id, response)
  }

  lemma ServeCarries(s: System, e: Event, id: string, response: Response)
    requires (Some(id), response) in Next(s, e).computed && (Some(id), response) !in s.computed
    ensures ServedBy(e, id, response)
  {
    if e.Serve? && e.message.ToServer? { RequestIsAnswered((m, p) => e.outcome, e.message.request, e.claims); }
  }

  /** Every response a server computed carries the outcome of its executor for that request. */
  lemma {:induction false} ResponsesAreServed(clients: nat, events: seq<Event>, id: string, response: Response)
    requires (Some(id), response) in Exec(Initial(clients), events).computed
    ensures Served(events, id, response)
  {
    var init, e := events[..|events| - 1], events[|events| - 1];
    var s := Exec(Initial(clients), init);
    if (Some(id), response) in s.computed {
      ResponsesAreServed(clients, init, id, response);
      var k :| 0 <= k < |init| && ServedBy(init[k], id, response);
      assert ServedBy(events[k], id, response);
    } else {
      ServeCarries(s, e, id, response);
    }
  }

  /**
   * In every run, a promise that did not settle by stopping settles as the executor's outcome for
   * that very request, which crossed one hop.
   */
  lemma {:induction false} PromisesGetOutcomes(clients: nat, events: seq<Event>, i: nat, id: string, stringified: bool)
      returns (k: nat)
    requires FreshRun(Initial(clients), events) && i < |Exec(Initial(clients), events).clients|
    requires var c := Exec(Initial(clients), events).clients[i]; id in c.promises && c.promises[id].ByResponse?
    ensures k < |events| && events[k].Serve? && events[k].message.ToServer? && events[k].message.request.id == Some(id)
    ensures Accept(Exec(Initial(clients), events).clients[i].promises[id].response, stringified) ==
      match events[k].outcome
      case Returned(value) => Returned(value)
      case Threw(thrown) => Threw(ToError(FromError(thrown), stringified))
  {
    var response := Exec(Initial(clients), events).clients[i].promises[id].response;
    RequestsAreUnanswered(clients, events, i);
    ResponsesAreServed(clients, events, id, response);
    k :| 0 <= k < |events| && ServedBy(events[k], id, response);
  }

  /** Stopping settles every promise that is still open, and changes nothing else. */
  lemma StopSettlesAll(s: System, i: nat)
    requires i < |s.clients|
    ensures var c, c' := s.clients[i], Next(s, Stop(i)).clients[i];
      && c'.promises.Keys == c.promises.Keys + c.requests
      && (forall id <- c'.promises :: c'.promises[id] == if id in c.promises then c.promises[id] else ByStop)
      && c' == c.(promises := c'.promises)
      && Next(s, Stop(i)).net == s.net
  {}

  predicate Quiet(s: System) { !s.lossy && s.net == multiset{} }

  /** Every promise is settled, and whoever could send a request sees how. */
  predicate NothingPending(c: ClientState) {
    && c.requests == {} && c.delivered == c.called && c.promises.Keys == c.called
    && forall id <- c.called :: id in c.sends ==>
         CallerSees(c, id) == if c.sends[id] then Settled(c.promises[id]) else SendFailed
  }

  lemma QuietState(s: System, i: nat)
    requires Inv(s) && i < |s.clients| && Quiet(s)
    ensures NothingPending(s.clients[i])
  {
    var c := s.clients[i];
    assert ClientInv(s, c);
    forall id <- c.called ensures id in c.delivered {
      assert id in c.requests ==> InFlight(s, i, id);
    }
    assert c.delivered == c.called;
  }

  /** If nothing was lost and nothing is in flight, no request is pending and every one is settled. */
  lemma {:induction false} QuietMeansAnswered(clients: nat, events: seq<Event>, i: nat)
    requires FreshRun(Initial(clients), events) && i < |Exec(Initial(clients), events).clients|
    requires Quiet(Exec(Initial(clients), events))
    ensures NothingPending(Exec(Initial(clients), events).clients[i])
  {
    RunKeeps(Initial(clients), events);
    QuietState(Exec(Initial(clients), events), i);
  }

  /** Promises, and what callers see of them, never change once they are settled. */
  lemma {:induction false} SettledForever(s: System, events: seq<Event>, i: nat, id: string)
    requires i < |s.clients|
    ensures var s' := Exec(s, events);
      (&& |s'.clients| == |s.clients|
       && (id in s.clients[i].promises ==>
             id in s'.clients[i].promises && s'.clients[i].promises[id] == s.clients[i].promises[id])
       && (CallerSees(s.clients[i], id) != NotYet ==>
             CallerSees(s'.clients[i], id) == CallerSees(s.clients[i], id)))
  {
    if events != [] {
      SettledForever(s, events[..|events| - 1], i, id);
      var m, e := Exec(s, events[..|events| - 1]), events[|events| - 1];
      SettledByStep(m, e, i, id);
    }
  }

  /** What one client has settled stays so. */
  predicate KeepsSettled(c: ClientState, c': ClientState, id: string) {
    && (id in c.promises ==> id in c'.promises && c'.promises[id] == c.promises[id])
    && (id in c.sends ==> id in c'.sends && c'.sends[id] == c.sends[id])
  }

  lemma SettledByStep(s: System, e: Event, i: nat, id: string)
    requires i < |s.clients|
    ensures |Next(s, e).clients| == |s.clients|
    ensures KeepsSettled(s.clients[i], Next(s, e).clients[i], id)
  {
    match e
    case Call(_, _, _, _) => SettledByCaller(s, e, i, id);
    case SendDone(_, _, _) => SettledByCaller(s, e, i, id);
    case Stop(j) => if j < |s.clients| { StopKeepsSettled(s.clients[j], id); }
    case Deliver(m) => SettledByDelivery(s, m, i, id);
    case _ => OnlyNet(s, e);
  }

  lemma SettledByCaller(s: System, e: Event, i: nat, id: string)
    requires i < |s.clients| && (e.Call? || e.SendDone?)
    ensures |Next(s, e).clients| == |s.clients|
    ensures KeepsSettled(s.clients[i], Next(s, e).clients[i], id)
  {}

  lemma SettledByDelivery(s: System, m: Message, i: nat, id: string)
    requires i < |s.clients|
    ensures |Next(s, Deliver(m)).clients| == |s.clients|
    ensures KeepsSettled(s.clients[i], Next(s, Deliver(m)).clients[i], id)
  {
    if m.ToClient? && m.client < |s.clients| { ReceiveKeepsSettled(s.clients[m.client], m.response, id); }
  }

  lemma OnlyNet(s: System, e: Event)
    requires e.Serve? || e.Duplicate? || e.Lose? || e.Malformed?
    ensures Next(s, e).clients == s.clients
  {}

  lemma ReceiveKeepsSettled(c: ClientState, response: Response, id: string)
    ensures KeepsSettled(c, ReceiveOn(c, response), id)
  {}

  lemma StopKeepsSettled(c: ClientState, id: string)
    ensures KeepsSettled(c, StopOn(c), id)
  {}

  lemma ExecSnoc(s: System, events: seq<Event>, e: Event)
    ensures Exec(s, events + [e]) == Next(Exec(s, events), e)
  {
    assert (events + [e])[..|events|] == events;
  }

  /** Stopping settles promises but keeps the map entries: a lost request stays in the map for good. */
  lemma StopKeepsEntries(params: Params)
    ensures var m := ToServer(0, Request("decode", params, Some("re.1")));
      var s := Exec(Initial(1), [Call(0, "re.1", "decode", params), Lose(m), Stop(0)]);
      s.net == multiset{} && |s.clients| == 1 &&
      s.clients[0].requests == {"re.1"} && s.clients[0].promises == map["re.1" := ByStop]
  {
    var m := ToServer(0, Request("decode", params, Some("re.1")));
    var e1 := [] + [Call(0, "re.1", "decode", params)];
    var e2 := e1 + [Lose(m)];
    ExecSnoc(Initial(1), [], Call(0, "re.1", "decode", params));
    ExecSnoc(Initial(1), e1, Lose(m));
    ExecSnoc(Initial(1), e2, Stop(0));
    assert e2 + [Stop(0)] == [Call(0, "re.1", "decode", params), Lose(m), Stop(0)];
    var s1 := Exec(Initial(1), e1);
    assert s1.net == multiset{m} && s1.clients[0].requests == {"re.1"};
  }
}
