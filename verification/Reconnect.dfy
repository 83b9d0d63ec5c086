/**
 * The reconnecting WebSocket client of src/ws/WebSocketClient.ts. The handlers of any socket may be
 * called at any time and in any order.
 */
module Reconnect {
  import opened Values

  datatype Settled = Open | Resolved | Rejected

  /** The progress of the retry loop, which makes one attempt and `retries` more. */
  datatype Retry =
    | NotStarted
    | Attempting(socket: nat, left: nat)
    | Waiting(left: nat)
    | Over

  datatype System = System(
    starts: seq<Settled>,        // the promise of each call of `start`; one socket each
    isStopped: bool,
    isRetrying: Option<bool>,
    retry: Retry,
    waiting: Option<nat>,        // the start whose promise the retry loop will settle
    explicit: nat,               // history: calls of `start` by the user
    implicit: nat,               // history: calls of `start` by `send`
    attempts: nat,               // history: calls of `start` by the retry loop
    bodies: nat)                 // history: runs of the retry body

  const INITIAL := System([], false, None, NotStarted, None, 0, 0, 0, 0)

  datatype Event =
    | Start
    | Send
    | OnOpen(socket: nat)
    | OnClose(socket: nat, code: int)
    | OnError(socket: nat)
    | Stop
    | RetrySettles
    | RetryAgain

  function NewSocket(s: System): System { s.(starts := s.starts + [Open]) }

  /** A promise takes its first settlement. */
  function Settle(s: System, k: nat, outcome: Settled): System {
    if k < |s.starts| && s.starts[k] == Open then s.(starts := s.starts[k := outcome]) else s
  }

  function RetryConnect(retries: nat, s: System, k: nat): System {
    if s.isRetrying == Some(true) then s
    else
      NewSocket(s).(isRetrying := Some(true), retry := Attempting(|s.starts|, retries), waiting := Some(k),
                    attempts := s.attempts + 1, bodies := s.bodies + 1)
  }

  function EndRetry(s: System, outcome: Settled): System {
    (if s.waiting.Some? then Settle(s, s.waiting.value, outcome) else s)
      .(isRetrying := Some(false), retry := Over)
  }

  function Next(retries: nat, s: System, e: Event): System {
    match e
    case Start => NewSocket(s).(explicit := s.explicit + 1)
    case Send => if s.starts == [] then NewSocket(s).(implicit := s.implicit + 1) else s
    case OnOpen(k) => if k >= |s.starts| then s else Settle(s, k, Resolved).(isStopped := false)
    case OnClose(k, code) =>
      if k >= |s.starts| then s
      else if s.isStopped then Settle(s, k, Resolved)
      else
        var s' := if code == 4001 then Settle(s, k, Rejected) else s;
        if retries > 0 && s'.isRetrying == None then RetryConnect(retries, s', k)
        else if s'.isRetrying == Some(true) then s'
        else Settle(s', k, Rejected)
    case OnError(k) =>
      if k >= |s.starts| then s
      else if retries > 0 && s.isRetrying == None then RetryConnect(retries, s, k)
      else Settle(s, k, Rejected)
    case Stop => s.(isStopped := true)
    case RetrySettles =>
      (match s.retry
       case Attempting(k, left) =>
         if k >= |s.starts| || s.starts[k] == Open then s
         else if s.starts[k] == Resolved then EndRetry(s, Resolved)
         else if left > 0 then s.(retry := Waiting(left))
         else EndRetry(s, Rejected)
       case _ => s)
    case RetryAgain =>
      (match s.retry
       case Waiting(left) =>
         if left == 0 then s
         else NewSocket(s).(retry := Attempting(|s.starts|, left - 1), attempts := s.attempts + 1)
       case _ => s)
  }

  function Exec(retries: nat, s: System, events: seq<Event>): System {
    if events == [] then s
    else Next(retries, Exec(retries, s, events[..|events| - 1]), events[|events| - 1])
  }

  predicate Inv(retries: nat, s: System) {
    && |s.starts| == s.explicit + s.implicit + s.attempts
    && s.implicit <= 1
    && (s.starts == [] ==> s.implicit == 0)
    && match s.retry
       case NotStarted => s.isRetrying == None && s.attempts == 0 && s.bodies == 0
       case Attempting(_, left) => s.isRetrying == Some(true) && s.attempts + left == retries + 1 && s.bodies == 1
       case Waiting(left) => s.isRetrying == Some(true) && s.attempts + left == retries + 1 && s.bodies == 1
       case Over => s.isRetrying == Some(false) && s.attempts <= retries + 1 && s.bodies == 1
  }

  /** undefined, true, false: the order in which `isRetrying` may change. */
  function Stage(isRetrying: Option<bool>): nat {
    match isRetrying
    case None => 0
    case Some(retrying) => if retrying then 1 else 2
  }

  /** Settled promises stay as they are. */
  predicate KeepsSettled(s: System, s': System) {
    |s.starts| <= |s'.starts| &&
    forall k :: 0 <= k < |s.starts| && s.starts[k] != Open ==> s'.starts[k] == s.starts[k]
  }

  lemma SettleKeeps(retries: nat, s: System, k: nat, outcome: Settled)
    requires Inv(retries, s)
    ensures var s' := Settle(s, k, outcome); Inv(retries, s') && KeepsSettled(s, s') && s' == s.(starts := s'.starts)
  {}

  lemma RetryKeeps(retries: nat, s: System, k: nat)
    requires Inv(retries, s) && s.isRetrying == None
    ensures var s' := RetryConnect(retries, s, k);
      Inv(retries, s') && KeepsSettled(s, s') && s'.isRetrying == Some(true)
  {}

  lemma EndKeeps(retries: nat, s: System, outcome: Settled)
    requires Inv(retries, s) && s.isRetrying == Some(true)
    ensures var s' := EndRetry(s, outcome);
      Inv(retries, s') && KeepsSettled(s, s') && s'.isRetrying == Some(false)
  {
    if s.waiting.Some? { SettleKeeps(retries, s, s.waiting.value, outcome); }
  }

  /** What every step keeps. */
  predicate Keeps(retries: nat, s: System, s': System) {
    && Inv(retries, s')
    && KeepsSettled(s, s')
    && Stage(s.isRetrying) <= Stage(s'.isRetrying) <= Stage(s.isRetrying) + 1
  }

  lemma CloseKeeps(retries: nat, s: System, k: nat, code: int)
    requires Inv(retries, s)
    ensures Keeps(retries, s, Next(retries, s, OnClose(k, code)))
  {
    if k < |s.starts| && s.isStopped { SettleKeeps(retries, s, k, Resolved); }
    if k < |s.starts| && !s.isStopped {
      SettleKeeps(retries, s, k, Rejected);
      var s' := if code == 4001 then Settle(s, k, Rejected) else s;
      SettleKeeps(retries, s', k, Rejected);
      if s'.isRetrying == None { RetryKeeps(retries, s', k); }
    }
  }

  lemma ErrorKeeps(retries: nat, s: System, k: nat)
    requires Inv(retries, s)
    ensures Keeps(retries, s, Next(retries, s, OnError(k)))
  {
    SettleKeeps(retries, s, k, Rejected);
    if s.isRetrying == None { RetryKeeps(retries, s, k); }
  }

  lemma RetrySettlesKeeps(retries: nat, s: System)
    requires Inv(retries, s)
    ensures Keeps(retries, s, Next(retries, s, RetrySettles))
  {
    if s.isRetrying == Some(true) {
      EndKeeps(retries, s, Resolved);
      EndKeeps(retries, s, Rejected);
    }
  }

  lemma OtherKeeps(retries: nat, s: System, e: Event)
    requires Inv(retries, s) && (e.Start? || e.Send? || e.Stop? || e.RetryAgain?)
    ensures Keeps(retries, s, Next(retries, s, e))
  {}

  lemma StepKeeps(retries: nat, s: System, e: Event)
    requires Inv(retries, s)
    ensures Keeps(retries, s, Next(retries, s, e))
  {
    match e
    case OnOpen(k) => SettleKeeps(retries, s, k, Resolved);
    case OnClose(k, code) => CloseKeeps(retries, s, k, code);
    case OnError(k) => ErrorKeeps(retries, s, k);
    case RetrySettles => RetrySettlesKeeps(retries, s);
    case _ => OtherKeeps(retries, s, e);
  }

  lemma {:induction false} RunKeeps(retries: nat, s: System, events: seq<Event>)
    requires Inv(retries, s)
    ensures Inv(retries, Exec(retries, s, events))
    ensures Stage(s.isRetrying) <= Stage(Exec(retries, s, events).isRetrying)
  {
    if events != [] {
      RunKeeps(retries, s, events[..|events| - 1]);
      StepKeeps(retries, Exec(retries, s, events[..|events| - 1]), events[|events| - 1]);
    }
  }

  lemma {:induction false} ExecConcat(retries: nat, s: System, a: seq<Event>, b: seq<Event>)
    ensures Exec(retries, s, a + b) == Exec(retries, Exec(retries, s, a), b)
  {
    if b == [] {
      assert a + b == a;
    } else {
      assert (a + b)[..|a + b| - 1] == a + b[..|b| - 1];
      ExecConcat(retries, s, a, b[..|b| - 1]);
    }
  }

  lemma {:induction false} NeverRetries(s: System, events: seq<Event>)
    requires Inv(0, s) && s.isRetrying == None
    ensures Exec(0, s, events).isRetrying == None
  {
    if events != [] {
      NeverRetries(s, events[..|events| - 1]);
      RunKeeps(0, s, events[..|events| - 1]);
    }
  }

  lemma Counted(retries: nat, s: System)
    requires Inv(retries, s)
    ensures s.bodies <= 1 && |s.starts| <= s.explicit + 1 + (retries + 1)
    ensures s.isRetrying == None ==> |s.starts| <= s.explicit + 1
  {}

  /**
   * In every order of events: `isRetrying` only moves from undefined to true to false, the retry
   * body runs at most once, and the sockets made are at most one for every start by the user, one
   * for a send before any start, and one for each attempt of the retry loop.
   */
  lemma ReconnectBound(retries: nat, earlier: seq<Event>, later: seq<Event>)
    ensures var s, s' := Exec(retries, INITIAL, earlier), Exec(retries, INITIAL, earlier + later);
      && Stage(s.isRetrying) <= Stage(s'.isRetrying)
      && s'.bodies <= 1
      && |s'.starts| <= s'.explicit + 1 + (retries + 1)
      && (retries == 0 ==> s'.isRetrying == None && |s'.starts| <= s'.explicit + 1)
  {
    assert Inv(retries, INITIAL);
    RunKeeps(retries, INITIAL, earlier);
    ExecConcat(retries, INITIAL, earlier, later);
    var s := Exec(retries, INITIAL, earlier);
    RunKeeps(retries, s, later);
    Counted(retries, Exec(retries, s, later));
    if retries == 0 { NeverRetries(INITIAL, earlier + later); }
  }

  // ---------------------------------------------------------------- how a start ends

  lemma {:induction false} SettledForever(retries: nat, s: System, events: seq<Event>, k: nat)
    requires Inv(retries, s) && k < |s.starts| && s.starts[k] != Open
    ensures var s' := Exec(retries, s, events); k < |s'.starts| && s'.starts[k] == s.starts[k]
  {
    if events != [] {
      var init := events[..|events| - 1];
      SettledForever(retries, s, init, k);
      RunKeeps(retries, s, init);
      StepKeeps(retries, Exec(retries, s, init), events[|events| - 1]);
    }
  }

  /** The start resolves or rejects, and stays so. */
  predicate EndsAs(retries: nat, s: System, e: Event, k: nat, outcome: Settled, later: seq<Event>) {
    var s' := Exec(retries, Next(retries, s, e), later);
    k < |s'.starts| && s'.starts[k] == outcome
  }

  lemma StepEnds(retries: nat, s: System, e: Event, k: nat, outcome: Settled, later: seq<Event>)
    requires Inv(retries, s) && outcome != Open
    requires k < |Next(retries, s, e).starts| && Next(retries, s, e).starts[k] == outcome
    ensures EndsAs(retries, s, e, k, outcome, later)
  {
    StepKeeps(retries, s, e);
    SettledForever(retries, Next(retries, s, e), later, k);
  }

  /**
   * How a start that is still open ends, for good: it resolves when its socket opens, or closes after
   * a stop. Otherwise it rejects when the server refuses to authenticate, or when the socket closes or
   * fails while there is no retrying to be begun or, for a closing one, going on.
   */
  lemma StartEnds(retries: nat, s: System, k: nat, code: int, later: seq<Event>)
    requires Inv(retries, s) && k < |s.starts| && s.starts[k] == Open
    ensures EndsAs(retries, s, OnOpen(k), k, Resolved, later) && !Next(retries, s, OnOpen(k)).isStopped
    ensures s.isStopped ==> EndsAs(retries, s, OnClose(k, code), k, Resolved, later)
    ensures EndsAs(retries, Next(retries, s, Stop), OnClose(k, code), k, Resolved, later)
    ensures !s.isStopped ==> EndsAs(retries, s, OnClose(k, 4001), k, Rejected, later)
    ensures !s.isStopped && (if retries == 0 then s.isRetrying == None else s.isRetrying == Some(false)) ==>
      EndsAs(retries, s, OnClose(k, code), k, Rejected, later)
    ensures retries == 0 || s.isRetrying != None ==> EndsAs(retries, s, OnError(k), k, Rejected, later)
  {
    StepEnds(retries, s, OnOpen(k), k, Resolved, later);
    StepKeeps(retries, s, Stop);
    StepEnds(retries, Next(retries, s, Stop), OnClose(k, code), k, Resolved, later);
    if s.isStopped {
      StepEnds(retries, s, OnClose(k, code), k, Resolved, later);
    } else {
      StepEnds(retries, s, OnClose(k, 4001), k, Rejected, later);
      if (if retries == 0 then s.isRetrying == None else s.isRetrying == Some(false)) {
        StepEnds(retries, s, OnClose(k, code), k, Rejected, later);
      }
    }
    if retries == 0 || s.isRetrying != None { StepEnds(retries, s, OnError(k), k, Rejected, later); }
  }

  /** The first close or failure of a client that may retry begins the retrying, and leaves the start waiting for it. */
  lemma RetryBegins(retries: nat, s: System, k: nat, code: int)
    requires Inv(retries, s) && k < |s.starts| && retries > 0 && s.isRetrying == None
    ensures !s.isStopped && code != 4001 ==> Next(retries, s, OnClose(k, code)) == Next(retries, s, OnError(k))
    ensures var s' := Next(retries, s, OnError(k));
      && s'.starts == s.starts + [Open] && s'.isRetrying == Some(true) && s'.waiting == Some(k)
      && s'.retry == Attempting(|s.starts|, retries)
  {}

  /** The waiting start ends as the retry loop does: with the first attempt that opens, or after the last one failed. */
  lemma RetryEnds(retries: nat, s: System, attempt: nat, left: nat, k: nat, later: seq<Event>)
    requires Inv(retries, s) && s.retry == Attempting(attempt, left) && attempt < |s.starts|
    requires s.waiting == Some(k) && k < |s.starts| && s.starts[k] == Open
    ensures s.starts[attempt] == Resolved ==>
      EndsAs(retries, s, RetrySettles, k, Resolved, later) && Next(retries, s, RetrySettles).isRetrying == Some(false)
    ensures s.starts[attempt] == Rejected && left == 0 ==>
      EndsAs(retries, s, RetrySettles, k, Rejected, later) && Next(retries, s, RetrySettles).isRetrying == Some(false)
    ensures s.starts[attempt] == Rejected && left > 0 ==>
      Next(retries, Next(retries, s, RetrySettles), RetryAgain).retry == Attempting(|s.starts|, left - 1)
  {
    if s.starts[attempt] == Resolved { StepEnds(retries, s, RetrySettles, k, Resolved, later); }
    if s.starts[attempt] == Rejected && left == 0 { StepEnds(retries, s, RetrySettles, k, Rejected, later); }
  }

  // ---------------------------------------------------------------- the bound is reached

  /** A send opens the first socket, and then every attempt fails. */
  function Failing(rounds: nat): seq<Event> {
    if rounds == 0 then [Send, OnError(0)]
    else Failing(rounds - 1) + [OnError(rounds), RetrySettles, RetryAgain]
  }

  lemma Three(retries: nat, s: System, a: Event, b: Event, c: Event)
    ensures Exec(retries, s, [a, b, c]) == Next(retries, Next(retries, Next(retries, s, a), b), c)
    ensures Exec(retries, s, [a, b]) == Next(retries, Next(retries, s, a), b)
  {
    ExecSnoc(retries, s, [], a);
    ExecSnoc(retries, s, [] + [a], b);
    ExecSnoc(retries, s, [] + [a] + [b], c);
    assert [] + [a] + [b] == [a, b] && [] + [a] + [b] + [c] == [a, b, c];
  }

  lemma ExecSnoc(retries: nat, s: System, events: seq<Event>, e: Event)
    ensures Exec(retries, s, events + [e]) == Next(retries, Exec(retries, s, events), e)
  {
    assert (events + [e])[..|events|] == events;
  }

  /** Only failing attempts so far: the `n`-th one is going on, on the newest socket. */
  predicate AtAttempt(retries: nat, s: System, n: nat) {
    && 0 < n <= retries + 1
    && s.explicit == 0 && |s.starts| == n + 1 && s.starts[n] == Open
    && s.retry == Attempting(n, retries + 1 - n) && s.isRetrying == Some(true)
  }

  lemma NextAttempt(retries: nat, s: System, n: nat)
    requires AtAttempt(retries, s, n) && n <= retries
    ensures AtAttempt(retries, Exec(retries, s, [OnError(n), RetrySettles, RetryAgain]), n + 1)
  {
    var s1 := Next(retries, s, OnError(n));
    assert s1 == s.(starts := s.starts[n := Rejected]);
    var s2 := Next(retries, s1, RetrySettles);
    assert s2 == s1.(retry := Waiting(retries + 1 - n));
    Three(retries, s, OnError(n), RetrySettles, RetryAgain);
  }

  /** The bound is reached, with no start by the user at all. */
  lemma {:induction false} BoundIsReached(retries: nat, rounds: nat)
    requires 0 < retries && rounds <= retries
    ensures AtAttempt(retries, Exec(retries, INITIAL, Failing(rounds)), rounds + 1)
    ensures rounds == retries ==>
      var s := Exec(retries, INITIAL, Failing(rounds)); |s.starts| == s.explicit + 1 + (retries + 1)
  {
    if rounds == 0 {
      Three(retries, INITIAL, Send, OnError(0), Stop);
    } else {
      BoundIsReached(retries, rounds - 1);
      ExecConcat(retries, INITIAL, Failing(rounds - 1), [OnError(rounds), RetrySettles, RetryAgain]);
      NextAttempt(retries, Exec(retries, INITIAL, Failing(rounds - 1)), rounds);
    }
  }

  class WebSocketClient {
    const retries: nat
    var isStopped: bool
    var isRetrying: Option<bool>
    var starts: seq<Settled>
    var retry: Retry
    var waiting: Option<nat>
    ghost var explicit: nat
    ghost var implicit: nat
    ghost var attempts: nat
    ghost var bodies: nat

    ghost function State(): System
      reads this
    {
      System(starts, isStopped, isRetrying, retry, waiting, explicit, implicit, attempts, bodies)
    }

    /** How far the retry loop is, and how many sockets there are for it. */
    ghost predicate Valid()
      reads this
    {
      Inv(retries, State())
    }

    constructor (retries: nat)
      ensures this.retries == retries && State() == INITIAL && Valid()
    {
      this.retries := retries;
      isStopped, isRetrying, starts, retry, waiting := false, None, [], NotStarted, None;
      explicit, implicit, attempts, bodies := 0, 0, 0, 0;
    }

    method DoSettle(k: nat, outcome: Settled)
      modifies this`starts
      ensures State() == Settle(old(State()), k, outcome)
    {
      if k < |starts| && starts[k] == Open { starts := starts[k := outcome]; }
    }

    method DoRetryConnect(k: nat)
      modifies this
      ensures State() == RetryConnect(retries, old(State()), k)
      ensures old(Valid() && isRetrying == None) ==> Valid()
    {
      if isRetrying == Some(true) { return; }
      isRetrying := Some(true);
      retry, waiting := Attempting(|starts|, retries), Some(k);
      starts := starts + [Open];
      attempts, bodies := attempts + 1, bodies + 1;
    }

    method DoStart()
      modifies this
      ensures State() == Next(retries, old(State()), Start)
      ensures old(Valid()) ==> Valid()
    {
      starts := starts + [Open];
      explicit := explicit + 1;
    }

    method DoSend()
      modifies this
      ensures State() == Next(retries, old(State()), Send)
      ensures old(Valid()) ==> Valid()
    {
      if starts == [] {
        starts := starts + [Open];
        implicit := implicit + 1;
      }
    }

    method HandleOpen(k: nat)
      requires k < |starts|
      modifies this
      ensures State() == Next(retries, old(State()), OnOpen(k))
      ensures old(Valid()) ==> Valid()
    {
      isStopped := false;
      DoSettle(k, Resolved);
    }

    method HandleClose(k: nat, code: int)
      requires k < |starts|
      modifies this
      ensures State() == Next(retries, old(State()), OnClose(k, code))
      ensures old(Valid()) ==> Valid()
    {
      if isStopped {
        DoSettle(k, Resolved);
        return;
      }
      ghost var before := State();
      if code == 4001 { DoSettle(k, Rejected); }
      if retries > 0 && isRetrying == None {
        DoRetryConnect(k);
      } else if isRetrying == Some(true) {
      } else {
        DoSettle(k, Rejected);
      }
      if Inv(retries, before) { CloseKeeps(retries, before, k, code); }
    }

    method HandleError(k: nat)
      requires k < |starts|
      modifies this
      ensures State() == Next(retries, old(State()), OnError(k))
      ensures old(Valid()) ==> Valid()
    {
      if retries > 0 && isRetrying == None { DoRetryConnect(k); } else { DoSettle(k, Rejected); }
    }

    method DoStop()
      modifies this`isStopped
      ensures State() == Next(retries, old(State()), Stop)
      ensures old(Valid()) ==> Valid()
    {
      isStopped := true;
    }
  }
}
