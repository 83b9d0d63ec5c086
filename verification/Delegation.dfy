/**
 * Delegating calls to peers, and cancelling them: the `Delegator` of src/base/Delegator.ts. Any
 * number of calls and cancellations interleave at their `await`s.
 */
module Delegation {
  import opened Values

  /** A peer as an object: re-adding an id makes a new one. */
  type PeerRef = nat

  datatype Named = Named(id: string, peer: PeerRef)

  /** Where a call stands. `Threw` is a peer that threw: the map of jobs keeps its entry. */
  datatype Phase =
    | Asking
    | Connecting
    | Running(peer: PeerRef)
    | Returned(peer: PeerRef)
    | Threw(peer: PeerRef)
    | Unable
    | Broken

  /** `peers` is the list the call goes through; `verdicts` tells which of them could take it so far. */
  datatype CallState = CallState(job: string, peers: seq<PeerRef>, verdicts: seq<bool>, phase: Phase)

  datatype Cancellation = Cancellation(job: string, peer: PeerRef, decided: bool)

  datatype System = System(
    peers: seq<Named>,                  // in insertion order
    spawned: nat,                       // number of peer objects made
    jobs: map<string, PeerRef>,
    calls: seq<CallState>,
    cancellations: seq<Cancellation>,   // waiting to hear whether the peer can cancel
    sent: seq<(string, PeerRef)>)       // cancel requests passed on

  datatype Event =
    | Add(id: string)
    | Remove(id: string)
    | Begin(job: string)
    | Capable(call: nat, yes: bool)
    | Connected(call: nat, yes: bool)
    | AskFailed(call: nat)
    | Finished(call: nat)
    | PeerThrew(call: nat)
    | Cancel(job: string)
    | CanCancel(cancellation: nat, yes: bool)

  const INITIAL := System([], 0, map[], [], [], [])

  function Refs(peers: seq<Named>): seq<PeerRef> {
    if peers == [] then [] else [peers[0].peer] + Refs(peers[1..])
  }

  function Without(peers: seq<Named>, id: string): seq<Named> {
    if peers == [] then []
    else (if peers[0].id == id then [] else [peers[0]]) + Without(peers[1..], id)
  }

  /** A new peer replaces one with the same id in its place. */
  function With(peers: seq<Named>, id: string, peer: PeerRef): seq<Named> {
    if peers == [] then [Named(id, peer)]
    else if peers[0].id == id then [Named(id, peer)] + peers[1..]
    else [peers[0]] + With(peers[1..], id, peer)
  }

  /** The peer that the call is at cannot take it: on to the next one. */
  function Pass(c: CallState): CallState {
    var verdicts := c.verdicts + [false];
    c.(verdicts := verdicts, phase := if |verdicts| < |c.peers| then Asking else Unable)
  }

  function SetCall(s: System, i: nat, c: CallState): System
    requires i < |s.calls|
  {
    s.(calls := s.calls[i := c])
  }

  predicate At(s: System, i: nat, phase: Phase) {
    i < |s.calls| && s.calls[i].phase == phase && |s.calls[i].verdicts| < |s.calls[i].peers|
  }

  function Next(s: System, e: Event): System {
    match e
    case Add(id) => s.(peers := With(s.peers, id, s.spawned), spawned := s.spawned + 1)
    case Remove(id) => s.(peers := Without(s.peers, id))
    case Begin(job) =>
      var peers := Refs(s.peers);
      s.(calls := s.calls + [CallState(job, peers, [], if peers == [] then Unable else Asking)])
    case Capable(i, yes) =>
      if !At(s, i, Asking) then s
      else SetCall(s, i, if yes then s.calls[i].(phase := Connecting) else Pass(s.calls[i]))
    case Connected(i, yes) =>
      if !At(s, i, Connecting) then s
      else if !yes then SetCall(s, i, Pass(s.calls[i]))
      else
        var c := s.calls[i];
        var peer := c.peers[|c.verdicts|];
        SetCall(s, i, c.(verdicts := c.verdicts + [true], phase := Running(peer)))
          .(jobs := s.jobs[c.job := peer])
    case AskFailed(i) =>
      if !At(s, i, Asking) && !At(s, i, Connecting) then s
      else SetCall(s, i, s.calls[i].(phase := Broken))
    case Finished(i) =>
      if i >= |s.calls| || !s.calls[i].phase.Running? then s
      else
        SetCall(s, i, s.calls[i].(phase := Returned(s.calls[i].phase.peer)))
          .(jobs := s.jobs - {s.calls[i].job})
    case PeerThrew(i) =>
      if i >= |s.calls| || !s.calls[i].phase.Running? then s
      else SetCall(s, i, s.calls[i].(phase := Threw(s.calls[i].phase.peer)))
    case Cancel(job) =>
      if job !in s.jobs then s
      else s.(cancellations := s.cancellations + [Cancellation(job, s.jobs[job], false)])
    case CanCancel(i, yes) =>
      if i >= |s.cancellations| || s.cancellations[i].decided then s
      else
        var c := s.cancellations[i];
        s.(cancellations := s.cancellations[i := c.(decided := true)],
           sent := if yes then s.sent + [(c.job, c.peer)] else s.sent)
  }

  function Exec(s: System, events: seq<Event>): System {
    if events == [] then s else Next(Exec(s, events[..|events| - 1]), events[|events| - 1])
  }

  predicate Active(c: CallState) { c.phase.Asking? || c.phase.Connecting? || c.phase.Running? }

  /** A job id is not reused while a call with it is going on. */
  predicate ExclusiveStep(s: System, e: Event) {
    e.Begin? ==> forall i :: 0 <= i < |s.calls| ==> s.calls[i].job == e.job ==> !Active(s.calls[i])
  }

  /** A job id is never reused. */
  predicate FreshStep(s: System, e: Event) {
    e.Begin? ==> forall i :: 0 <= i < |s.calls| ==> s.calls[i].job != e.job
  }

  predicate ExclusiveRun(s: System, events: seq<Event>) {
    events == [] ||
    (ExclusiveRun(s, events[..|events| - 1]) && ExclusiveStep(Exec(s, events[..|events| - 1]), events[|events| - 1]))
  }

  predicate FreshRun(s: System, events: seq<Event>) {
    events == [] ||
    (FreshRun(s, events[..|events| - 1]) && FreshStep(Exec(s, events[..|events| - 1]), events[|events| - 1]))
  }

  // ---------------------------------------------------------------- who is chosen

  predicate NoneSoFar(c: CallState) { forall k :: 0 <= k < |c.verdicts| ==> !c.verdicts[k] }

  /** The peer is the first one, in order, that was capable and could be connected to. */
  predicate FirstAble(c: CallState, peer: PeerRef) {
    var n := |c.verdicts| - 1;
    && 0 <= n < |c.peers| && c.peers[n] == peer && c.verdicts[n]
    && forall k :: 0 <= k < n ==> !c.verdicts[k]
  }

  predicate CallInv(c: CallState) {
    match c.phase
    case Running(p) => FirstAble(c, p)
    case Returned(p) => FirstAble(c, p)
    case Threw(p) => FirstAble(c, p)
    case Unable => |c.verdicts| == |c.peers| && NoneSoFar(c)
    case _ => |c.verdicts| < |c.peers| && NoneSoFar(c)
  }

  predicate DelegatedTo(c: CallState, job: string, peer: PeerRef) {
    c.job == job && (c.phase == Running(peer) || c.phase == Returned(peer) || c.phase == Threw(peer))
  }

  /** The call was delegated to the peer and has not finished successfully. */
  predicate Holds(c: CallState, job: string, peer: PeerRef) {
    c.job == job && (c.phase == Running(peer) || c.phase == Threw(peer))
  }

  predicate WasDelegated(s: System, job: string, peer: PeerRef) {
    exists i :: 0 <= i < |s.calls| && DelegatedTo(s.calls[i], job, peer)
  }

  predicate IsHeld(s: System, job: string, peer: PeerRef) {
    exists i :: 0 <= i < |s.calls| && Holds(s.calls[i], job, peer)
  }

  predicate CallsInv(s: System) {
    && (forall i :: 0 <= i < |s.calls| ==> CallInv(s.calls[i]))
    && (forall i, j :: 0 <= i < j < |s.calls| && Active(s.calls[i]) && Active(s.calls[j]) ==>
          s.calls[i].job != s.calls[j].job)
    && (forall i :: 0 <= i < |s.calls| && s.calls[i].phase.Running? ==>
          s.calls[i].job in s.jobs && s.jobs[s.calls[i].job] == s.calls[i].phase.peer)
  }

  predicate RoutesInv(s: System) {
    && (forall job <- s.jobs :: IsHeld(s, job, s.jobs[job]))
    && (forall c <- s.cancellations :: WasDelegated(s, c.job, c.peer))
    && (forall m <- s.sent :: WasDelegated(s, m.0, m.1))
  }

  predicate Inv(s: System) { CallsInv(s) && RoutesInv(s) }

  /** With ids that are never reused, the map of jobs is exactly what is held. */
  predicate Distinct(s: System) {
    forall i, j :: 0 <= i < j < |s.calls| ==> s.calls[i].job != s.calls[j].job
  }

  predicate Recorded(s: System) {
    forall i :: 0 <= i < |s.calls| && (s.calls[i].phase.Running? || s.calls[i].phase.Threw?) ==>
      s.calls[i].job in s.jobs && s.jobs[s.calls[i].job] == s.calls[i].phase.peer
  }

  lemma ChangeKeepsOthers(s: System, i: nat, c: CallState)
    requires i < |s.calls|
    ensures var s' := SetCall(s, i, c);
      (&& (forall job, p :: WasDelegated(s, job, p) && !DelegatedTo(s.calls[i], job, p) ==> WasDelegated(s', job, p))
       && (forall job, p :: IsHeld(s, job, p) && !Holds(s.calls[i], job, p) ==> IsHeld(s', job, p)))
  {
    var s' := SetCall(s, i, c);
    forall job, p | WasDelegated(s, job, p) && !DelegatedTo(s.calls[i], job, p) ensures WasDelegated(s', job, p) {
      var j :| 0 <= j < |s.calls| && DelegatedTo(s.calls[j], job, p);
      assert DelegatedTo(s'.calls[j], job, p);
    }
    forall job, p | IsHeld(s, job, p) && !Holds(s.calls[i], job, p) ensures IsHeld(s', job, p) {
      var j :| 0 <= j < |s.calls| && Holds(s.calls[j], job, p);
      assert Holds(s'.calls[j], job, p);
    }
  }

  predicate Asked(c: CallState) { c.phase.Asking? || c.phase.Connecting? }

  lemma PassKeeps(c: CallState)
    requires CallInv(c) && Asked(c)
    ensures var c' := Pass(c); c'.job == c.job && CallInv(c') && (Asked(c') || c'.phase == Unable)
  {}

  /** Steps of a call that is not yet delegated, and stays so. */
  lemma AskingSteps(s: System, e: Event)
    requires CallsInv(s) && (e.Capable? || e.AskFailed? || (e.Connected? && !e.yes)) && Next(s, e) != s
    ensures e.call < |s.calls| && Asked(s.calls[e.call])
    ensures var s' := Next(s, e);
      && |s'.calls| == |s.calls| && s' == SetCall(s, e.call, s'.calls[e.call])
      && CallInv(s'.calls[e.call]) && s'.calls[e.call].job == s.calls[e.call].job
      && (Asked(s'.calls[e.call]) || s'.calls[e.call].phase in {Unable, Broken})
  {
    assert CallInv(s.calls[e.call]);
    PassKeeps(s.calls[e.call]);
  }

  lemma AskingKeeps(s: System, e: Event)
    requires Inv(s) && (e.Capable? || e.AskFailed? || (e.Connected? && !e.yes))
    ensures Inv(Next(s, e))
  {
    var s' := Next(s, e);
    if s' != s {
      AskingSteps(s, e);
      ChangeKeepsOthers(s, e.call, s'.calls[e.call]);
      Untouched(s, s');
    }
  }

  /** What is left to check when nothing but the calls changed and nothing delegated was lost. */
  lemma Untouched(s: System, s': System)
    requires RoutesInv(s)
    requires s'.jobs == s.jobs && s'.cancellations == s.cancellations && s'.sent == s.sent
    requires forall job, p :: WasDelegated(s, job, p) ==> WasDelegated(s', job, p)
    requires forall job, p :: IsHeld(s, job, p) ==> IsHeld(s', job, p)
    ensures RoutesInv(s')
  {}

  lemma BeginKeeps(s: System, job: string)
    requires Inv(s) && ExclusiveStep(s, Begin(job))
    ensures Inv(Next(s, Begin(job)))
  {
    var s' := Next(s, Begin(job));
    forall j, p | WasDelegated(s, j, p) ensures WasDelegated(s', j, p) {
      var i :| 0 <= i < |s.calls| && DelegatedTo(s.calls[i], j, p);
      assert DelegatedTo(s'.calls[i], j, p);
    }
    forall j, p | IsHeld(s, j, p) ensures IsHeld(s', j, p) {
      var i :| 0 <= i < |s.calls| && Holds(s.calls[i], j, p);
      assert Holds(s'.calls[i], j, p);
    }
    Untouched(s, s');
  }

  lemma DelegateKeepsCalls(s: System, i: nat)
    requires CallsInv(s)
    ensures CallsInv(Next(s, Connected(i, true)))
  {
    var s' := Next(s, Connected(i, true));
    if s' != s {
      assert CallInv(s.calls[i]);
      assert CallInv(s'.calls[i]);
    }
  }

  lemma DelegateKeeps(s: System, i: nat)
    requires Inv(s)
    ensures Inv(Next(s, Connected(i, true)))
  {
    DelegateKeepsCalls(s, i);
    var s' := Next(s, Connected(i, true));
    if s' != s {
      var c := s'.calls[i];
      ChangeKeepsOthers(s, i, c);
      var m := SetCall(s, i, c);
      assert s'.calls == m.calls;
      forall job, p | WasDelegated(s, job, p) ensures WasDelegated(s', job, p) { assert WasDelegated(m, job, p); }
      assert Holds(s'.calls[i], c.job, c.phase.peer);
      forall job <- s'.jobs ensures IsHeld(s', job, s'.jobs[job]) {
        if job != c.job {
          assert IsHeld(s, job, s.jobs[job]);
          assert IsHeld(m, job, s.jobs[job]);
        }
      }
    }
  }

  lemma EndKeepsCalls(s: System, e: Event)
    requires CallsInv(s) && (e.Finished? || e.PeerThrew?)
    ensures CallsInv(Next(s, e))
  {
    if Next(s, e) != s { assert CallInv(s.calls[e.call]); }
  }

  /** The end of a call does not undo its delegation. */
  lemma EndDelegates(s: System, e: Event)
    requires (e.Finished? || e.PeerThrew?) && Next(s, e) != s
    ensures forall job, p :: WasDelegated(s, job, p) ==> WasDelegated(Next(s, e), job, p)
  {
    var s' := Next(s, e);
    forall job, p | WasDelegated(s, job, p) ensures WasDelegated(s', job, p) {
      var j :| 0 <= j < |s.calls| && DelegatedTo(s.calls[j], job, p);
      assert DelegatedTo(s'.calls[j], job, p);
    }
  }

  /** Nor does it release another job; a peer that throws does not even release its own. */
  lemma EndHolds(s: System, e: Event, job: string, p: PeerRef)
    requires (e.Finished? || e.PeerThrew?) && Next(s, e) != s
    requires IsHeld(s, job, p) && (e.PeerThrew? || job != s.calls[e.call].job)
    ensures IsHeld(Next(s, e), job, p)
  {
    var j :| 0 <= j < |s.calls| && Holds(s.calls[j], job, p);
    assert Holds(Next(s, e).calls[j], job, p);
  }

  lemma EndKeeps(s: System, e: Event)
    requires Inv(s) && (e.Finished? || e.PeerThrew?)
    ensures Inv(Next(s, e))
  {
    EndKeepsCalls(s, e);
    var s' := Next(s, e);
    if s' != s {
      EndDelegates(s, e);
      forall job <- s'.jobs ensures IsHeld(s', job, s'.jobs[job]) { EndHolds(s, e, job, s.jobs[job]); }
    }
  }

  lemma SameCalls(s: System, s': System)
    requires s'.calls == s.calls
    ensures forall job, p :: WasDelegated(s, job, p) <==> WasDelegated(s', job, p)
    ensures forall job, p :: IsHeld(s, job, p) <==> IsHeld(s', job, p)
  {}

  lemma HeldWasDelegated(s: System, job: string, p: PeerRef)
    requires IsHeld(s, job, p)
    ensures WasDelegated(s, job, p)
  {
    var i :| 0 <= i < |s.calls| && Holds(s.calls[i], job, p);
    assert DelegatedTo(s.calls[i], job, p);
  }

  lemma CancelKeeps(s: System, job: string)
    requires Inv(s)
    ensures Inv(Next(s, Cancel(job)))
  {
    var s' := Next(s, Cancel(job));
    SameCalls(s, s');
    if job in s.jobs {
      HeldWasDelegated(s, job, s.jobs[job]);
      var c := Cancellation(job, s.jobs[job], false);
      forall d <- s'.cancellations ensures WasDelegated(s', d.job, d.peer) {
        if d != c { assert d in s.cancellations; }
      }
    }
  }

  lemma CanCancelKeeps(s: System, i: nat, yes: bool)
    requires Inv(s)
    ensures Inv(Next(s, CanCancel(i, yes)))
  {
    var s' := Next(s, CanCancel(i, yes));
    SameCalls(s, s');
    if s' != s {
      var c := s.cancellations[i];
      assert c in s.cancellations;
      forall d <- s'.cancellations ensures WasDelegated(s', d.job, d.peer) {
        if d != c.(decided := true) { assert d in s.cancellations; }
      }
      forall m <- s'.sent ensures WasDelegated(s', m.0, m.1) {
        if m != (c.job, c.peer) { assert m in s.sent; }
      }
    }
  }

  lemma StepKeeps(s: System, e: Event)
    requires Inv(s) && ExclusiveStep(s, e)
    ensures Inv(Next(s, e))
  {
    var s' := Next(s, e);
    match e
    case Begin(job) => BeginKeeps(s, job);
    case Connected(i, yes) => if yes { DelegateKeeps(s, i); } else { AskingKeeps(s, e); }
    case Capable(_, _) => AskingKeeps(s, e);
    case AskFailed(_) => AskingKeeps(s, e);
    case Finished(_) => EndKeeps(s, e);
    case PeerThrew(_) => EndKeeps(s, e);
    case Cancel(job) => CancelKeeps(s, job);
    case CanCancel(i, yes) => CanCancelKeeps(s, i, yes);
    case _ => SameCalls(s, s');
  }

  lemma {:induction false} RunKeeps(s: System, events: seq<Event>)
    requires Inv(s) && ExclusiveRun(s, events)
    ensures Inv(Exec(s, events))
  {
    if events != [] {
      RunKeeps(s, events[..|events| - 1]);
      StepKeeps(Exec(s, events[..|events| - 1]), events[|events| - 1]);
    }
  }

  lemma FreshIsExclusive(s: System, e: Event)
    requires FreshStep(s, e)
    ensures ExclusiveStep(s, e)
  {}

  lemma FreshRunExclusive(s: System, events: seq<Event>)
    requires FreshRun(s, events)
    ensures ExclusiveRun(s, events)
  {
    if events != [] {
      FreshRunExclusive(s, events[..|events| - 1]);
      FreshIsExclusive(Exec(s, events[..|events| - 1]), events[|events| - 1]);
    }
  }

  lemma EndRecords(s: System, e: Event)
    requires Distinct(s) && Recorded(s) && (e.Finished? || e.PeerThrew?)
    ensures Distinct(Next(s, e)) && Recorded(Next(s, e))
  {}

  lemma AskRecords(s: System, e: Event)
    requires Distinct(s) && Recorded(s) && (e.Capable? || e.Connected? || e.AskFailed?)
    ensures Distinct(Next(s, e)) && Recorded(Next(s, e))
  {}

  lemma StepRecords(s: System, e: Event)
    requires Distinct(s) && Recorded(s) && FreshStep(s, e)
    ensures Distinct(Next(s, e)) && Recorded(Next(s, e))
  {
    if e.Finished? || e.PeerThrew? { EndRecords(s, e); }
    if e.Capable? || e.Connected? || e.AskFailed? { AskRecords(s, e); }
  }

  lemma {:induction false} RunRecords(s: System, events: seq<Event>)
    requires Distinct(s) && Recorded(s) && FreshRun(s, events)
    ensures Distinct(Exec(s, events)) && Recorded(Exec(s, events))
  {
    if events != [] {
      RunRecords(s, events[..|events| - 1]);
      StepRecords(Exec(s, events[..|events| - 1]), events[|events| - 1]);
    }
  }

  // ---------------------------------------------------------------- the list of peers

  /** When the id was added that is on the list now, if it is: only removing it ends its place. */
  function AddedAt(events: seq<Event>, id: string): Option<nat> {
    if events == [] then None
    else
      var before := AddedAt(events[..|events| - 1], id);
      match events[|events| - 1]
      case Add(x) => if x == id && before == None then Some(|events| - 1) else before
      case Remove(x) => if x == id then None else before
      case _ => before
  }

  /** How many peers were made before the one with this id was last made. */
  function MadeAt(events: seq<Event>, id: string): Option<nat> {
    if events == [] then None
    else
      var before := events[..|events| - 1];
      match events[|events| - 1]
      case Add(x) => if x == id then Some(Made(before)) else MadeAt(before, id)
      case Remove(x) => if x == id then None else MadeAt(before, id)
      case _ => MadeAt(before, id)
  }

  function Made(events: seq<Event>): nat {
    if events == [] then 0 else Made(events[..|events| - 1]) + if events[|events| - 1].Add? then 1 else 0
  }

  lemma {:induction false} AddedBefore(events: seq<Event>, id: string)
    ensures AddedAt(events, id).Some? ==> AddedAt(events, id).value < |events|
  {
    if events != [] { AddedBefore(events[..|events| - 1], id); }
  }

  predicate OnList(peers: seq<Named>, id: string) { exists k :: 0 <= k < |peers| && peers[k].id == id }

  /** The peers are those added and not removed since, the earlier one first, and the newest object for each id. */
  predicate ByAge(events: seq<Event>, peers: seq<Named>) {
    && (forall k :: 0 <= k < |peers| ==> MadeAt(events, peers[k].id) == Some(peers[k].peer) && AddedAt(events, peers[k].id).Some?)
    && (forall j, k :: 0 <= j < k < |peers| ==>
          AddedAt(events, peers[j].id).value < AddedAt(events, peers[k].id).value)
  }

  lemma {:induction false} RefsAre(peers: seq<Named>)
    ensures |Refs(peers)| == |peers| && forall k :: 0 <= k < |peers| ==> Refs(peers)[k] == peers[k].peer
  {
    if peers != [] { RefsAre(peers[1..]); }
  }

  /** The list with a new peer: in the place of the one with its id, or at the end. */
  lemma {:induction false} WithIs(peers: seq<Named>, id: string, peer: PeerRef) returns (i: nat)
    ensures i <= |peers| && (forall j :: 0 <= j < i ==> peers[j].id != id) && (i < |peers| ==> peers[i].id == id)
    ensures With(peers, id, peer) == if i < |peers| then peers[i := Named(id, peer)] else peers + [Named(id, peer)]
  {
    if peers == [] || peers[0].id == id {
      i := 0;
    } else {
      var k := WithIs(peers[1..], id, peer);
      i := k + 1;
    }
  }

  lemma {:induction false} WithoutHas(peers: seq<Named>, id: string)
    ensures forall n :: n in Without(peers, id) <==> n in peers && n.id != id
  {
    if peers != [] {
      WithoutHas(peers[1..], id);
      assert peers == [peers[0]] + peers[1..];
    }
  }

  predicate Older(events: seq<Event>, a: Named, b: Named) {
    AddedAt(events, a.id).Some? && AddedAt(events, b.id).Some? &&
    AddedAt(events, a.id).value < AddedAt(events, b.id).value
  }

  lemma FirstIsOldest(events: seq<Event>, peers: seq<Named>)
    requires peers != [] && ByAge(events, peers)
    ensures forall n :: n in peers[1..] ==> Older(events, peers[0], n)
  {
    forall n | n in peers[1..] ensures Older(events, peers[0], n) {
      var j :| 0 <= j < |peers[1..]| && peers[1..][j] == n;
      assert peers[j + 1] == n;
    }
  }

  lemma ByAgeCons(events: seq<Event>, first: Named, rest: seq<Named>)
    requires MadeAt(events, first.id) == Some(first.peer) && AddedAt(events, first.id).Some?
    requires ByAge(events, rest) && forall n :: n in rest ==> Older(events, first, n)
    ensures ByAge(events, [first] + rest)
  {
    assert forall k :: 0 <= k < |rest| ==> rest[k] in rest;
  }

  /** Taking an id out keeps the others, in their order. */
  lemma {:induction false} WithoutByAge(events: seq<Event>, peers: seq<Named>, id: string)
    requires ByAge(events, peers)
    ensures ByAge(events, Without(peers, id))
  {
    if peers != [] {
      ByAgeRest(events, peers);
      FirstIsOldest(events, peers);
      WithoutByAge(events, peers[1..], id);
      WithoutHas(peers[1..], id);
      if peers[0].id != id { ByAgeCons(events, peers[0], Without(peers[1..], id)); }
      assert [] + Without(peers[1..], id) == Without(peers[1..], id);
    }
  }

  lemma ByAgeRest(events: seq<Event>, peers: seq<Named>)
    requires peers != [] && ByAge(events, peers)
    ensures ByAge(events, peers[1..])
  {}

  lemma ByAgeUnique(events: seq<Event>, peers: seq<Named>, j: nat, k: nat)
    requires ByAge(events, peers) && j < |peers| && k < |peers| && j != k
    ensures peers[j].id != peers[k].id
  {}

  /** An event that concerns none of the ids of a list leaves it as it is. */
  lemma ByAgeElsewhere(before: seq<Event>, e: Event, peers: seq<Named>)
    requires ByAge(before, peers)
    requires forall k :: 0 <= k < |peers| ==> e != Add(peers[k].id) && e != Remove(peers[k].id)
    ensures ByAge(before + [e], peers)
  {
    assert (before + [e])[..|before|] == before;
    forall k | 0 <= k < |peers|
      ensures AddedAt(before + [e], peers[k].id) == AddedAt(before, peers[k].id)
      ensures MadeAt(before + [e], peers[k].id) == MadeAt(before, peers[k].id)
    {}
  }

  lemma AddKeepsAge(before: seq<Event>, id: string, peers: seq<Named>)
    requires ByAge(before, peers) && (AddedAt(before, id).Some? ==> OnList(peers, id))
    ensures ByAge(before + [Add(id)], With(peers, id, Made(before)))
  {
    var events, named := before + [Add(id)], Named(id, Made(before));
    var i := WithIs(peers, id, Made(before));
    var q := With(peers, id, Made(before));
    assert events[..|before|] == before;
    assert MadeAt(events, id) == Some(Made(before));
    forall k | 0 <= k < |q|
      ensures q[k].id == if k == i then id else peers[k].id
      ensures MadeAt(events, q[k].id) == Some(q[k].peer) && AddedAt(events, q[k].id).Some?
      ensures k != i ==> AddedAt(events, q[k].id) == AddedAt(before, peers[k].id)
    {
      if k != i && i < |peers| { ByAgeUnique(before, peers, k, i); }
    }
    forall j, k | 0 <= j < k < |q| ensures AddedAt(events, q[j].id).value < AddedAt(events, q[k].id).value {
      if i < |peers| {
        assert AddedAt(events, id) == AddedAt(before, id);
      } else {
        assert !OnList(peers, id) && AddedAt(events, id) == Some(|before|);
        if j < |peers| { AddedBefore(before, peers[j].id); }
      }
    }
  }

  lemma {:induction false} MadeCounts(events: seq<Event>)
    ensures Exec(INITIAL, events).spawned == Made(events)
  {
    if events != [] { MadeCounts(events[..|events| - 1]); }
  }

  /** Every id that was added and not removed since is on the list, and no other. */
  ghost predicate Complete(events: seq<Event>, peers: seq<Named>) {
    forall id :: AddedAt(events, id).Some? <==> OnList(peers, id)
  }

  function NextPeers(peers: seq<Named>, e: Event, spawned: nat): seq<Named> {
    match e
    case Add(id) => With(peers, id, spawned)
    case Remove(id) => Without(peers, id)
    case _ => peers
  }

  lemma PeersNext(s: System, e: Event)
    ensures Next(s, e).peers == NextPeers(s.peers, e, s.spawned)
  {}

  lemma StepByAge(before: seq<Event>, e: Event, peers: seq<Named>)
    requires ByAge(before, peers) && Complete(before, peers)
    ensures ByAge(before + [e], NextPeers(peers, e, Made(before)))
    ensures Complete(before + [e], NextPeers(peers, e, Made(before)))
  {
    match e
    case Add(id) => AddKeepsAge(before, id, peers); AddKeepsList(before, id, peers);
    case Remove(id) => RemoveKeepsAge(before, id, peers);
    case _ =>
      ByAgeElsewhere(before, e, peers);
      assert (before + [e])[..|before|] == before;
  }

  /**
   * Over every run the list holds exactly the ids that were added and not removed since, each with
   * the object made for it last, and of two of them the one added earlier stands first.
   */
  lemma {:induction false} PeersByAge(events: seq<Event>)
    ensures ByAge(events, Exec(INITIAL, events).peers) && Complete(events, Exec(INITIAL, events).peers)
  {
    if events != [] {
      var before, e := events[..|events| - 1], events[|events| - 1];
      PeersByAge(before);
      MadeCounts(before);
      PeersNext(Exec(INITIAL, before), e);
      StepByAge(before, e, Exec(INITIAL, before).peers);
      assert events == before + [e];
    }
  }

  lemma AddKeepsList(before: seq<Event>, id: string, peers: seq<Named>)
    requires Complete(before, peers)
    ensures Complete(before + [Add(id)], With(peers, id, Made(before)))
  {
    var i := WithIs(peers, id, Made(before));
    var q := With(peers, id, Made(before));
    assert (before + [Add(id)])[..|before|] == before;
    assert q[i].id == id;
    forall x ensures AddedAt(before + [Add(id)], x).Some? <==> OnList(q, x) {
      assert AddedAt(before, x).Some? <==> OnList(peers, x);
      if x != id {
        if OnList(peers, x) { var k :| 0 <= k < |peers| && peers[k].id == x; assert q[k].id == x; }
        if OnList(q, x) { var k :| 0 <= k < |q| && q[k].id == x; assert peers[k].id == x; }
      }
    }
  }

  lemma RemoveKeepsAge(before: seq<Event>, id: string, peers: seq<Named>)
    requires ByAge(before, peers) && Complete(before, peers)
    ensures ByAge(before + [Remove(id)], Without(peers, id))
    ensures Complete(before + [Remove(id)], Without(peers, id))
  {
    var q := Without(peers, id);
    WithoutHas(peers, id);
    WithoutByAge(before, peers, id);
    assert forall k :: 0 <= k < |q| ==> q[k] in q;
    ByAgeElsewhere(before, Remove(id), q);
    assert (before + [Remove(id)])[..|before|] == before;
    forall x ensures AddedAt(before + [Remove(id)], x).Some? <==> OnList(q, x) {
      assert AddedAt(before, x).Some? <==> OnList(peers, x);
      if x != id {
        if OnList(peers, x) { var k :| 0 <= k < |peers| && peers[k].id == x; assert peers[k] in q; }
        if OnList(q, x) { var k :| 0 <= k < |q| && q[k].id == x; assert q[k] in peers; }
      }
    }
  }

  /** The call goes through these peers, in this order. */
  predicate GoesThrough(c: CallState, peers: seq<Named>) {
    |c.peers| == |peers| && forall k :: 0 <= k < |peers| ==> c.peers[k] == peers[k].peer
  }

  /** The call began at this event, with the peers there were. */
  predicate BeganAt(events: seq<Event>, c: CallState, k: nat) {
    k < |events| && events[k] == Begin(c.job) && GoesThrough(c, Exec(INITIAL, events[..k]).peers)
  }

  predicate Began(events: seq<Event>, c: CallState) {
    exists k: nat :: k < |events| && BeganAt(events, c, k)
  }

  /** A step changes neither the job nor the peers of a call that has begun. */
  lemma StepKeepsPeers(s: System, e: Event, i: nat)
    requires i < |s.calls|
    ensures var s' := Next(s, e);
      i < |s'.calls| && s'.calls[i].job == s.calls[i].job && s'.calls[i].peers == s.calls[i].peers
  {}

  lemma {:induction false} CallsBegan(events: seq<Event>, i: nat) returns (k: nat)
    requires i < |Exec(INITIAL, events).calls|
    ensures BeganAt(events, Exec(INITIAL, events).calls[i], k)
  {
    var before, e := events[..|events| - 1], events[|events| - 1];
    var s := Exec(INITIAL, before);
    if i < |s.calls| {
      k := CallsBegan(before, i);
      StepKeepsPeers(s, e, i);
      assert events[..k] == before[..k];
    } else {
      k := |events| - 1;
      OnlyBeginCalls(s, e);
    }
  }

  /** A new call is one that begins now. */
  lemma OnlyBeginCalls(s: System, e: Event)
    requires |Next(s, e).calls| > |s.calls|
    ensures e.Begin? && |Next(s, e).calls| == |s.calls| + 1
    ensures Next(s, e).calls[|s.calls|].job == e.job && GoesThrough(Next(s, e).calls[|s.calls|], s.peers)
  {
    RefsAre(s.peers);
  }

  // ---------------------------------------------------------------- the results

  lemma OnePeer(s: System, job: string, p: PeerRef, q: PeerRef)
    requires Distinct(s) && WasDelegated(s, job, p) && WasDelegated(s, job, q)
    ensures p == q
  {
    var i :| 0 <= i < |s.calls| && DelegatedTo(s.calls[i], job, p);
    var j :| 0 <= j < |s.calls| && DelegatedTo(s.calls[j], job, q);
    assert s.calls[i].job == s.calls[j].job;
  }

  lemma HeldIsRecorded(s: System, job: string, p: PeerRef)
    requires Recorded(s) && IsHeld(s, job, p)
    ensures job in s.jobs && s.jobs[job] == p
  {}

  lemma HeldExactly(s: System)
    requires Recorded(s) && RoutesInv(s)
    ensures forall job, p :: job in s.jobs && s.jobs[job] == p <==> IsHeld(s, job, p)
  {
    forall job, p ensures job in s.jobs && s.jobs[job] == p <==> IsHeld(s, job, p) {
      if IsHeld(s, job, p) { HeldIsRecorded(s, job, p); }
    }
  }

  lemma AllCallsBegan(events: seq<Event>)
    ensures var s := Exec(INITIAL, events);
      forall i :: 0 <= i < |s.calls| ==> Began(events, s.calls[i])
  {
    var s := Exec(INITIAL, events);
    forall i | 0 <= i < |s.calls| ensures Began(events, s.calls[i]) {
      var k := CallsBegan(events, i);
      assert BeganAt(events, s.calls[i], k);
    }
  }

  /**
   * With fresh job ids, over every interleaving: the map of jobs says exactly which calls were
   * delegated to which peer and did not finish successfully; the peer of a call was the first able
   * one of those on the list when the call began, in the order of the list; and a cancel request
   * only ever goes to the peer its job was delegated to.
   */
  lemma {:induction false} CancelRouting(events: seq<Event>)
    requires FreshRun(INITIAL, events)
    ensures var s := Exec(INITIAL, events);
      (&& (forall job, p :: job in s.jobs && s.jobs[job] == p <==> IsHeld(s, job, p))
       && (forall i :: 0 <= i < |s.calls| ==> CallInv(s.calls[i]))
       && (forall i :: 0 <= i < |s.calls| ==> Began(events, s.calls[i]))
       && (forall m <- s.sent :: WasDelegated(s, m.0, m.1))
       && (forall job, p, q :: WasDelegated(s, job, p) && WasDelegated(s, job, q) ==> p == q))
  {
    FreshRunExclusive(INITIAL, events);
    RunKeeps(INITIAL, events);
    RunRecords(INITIAL, events);
    var s := Exec(INITIAL, events);
    forall job, p, q | WasDelegated(s, job, p) && WasDelegated(s, job, q) ensures p == q { OnePeer(s, job, p, q); }
    HeldExactly(s);
    AllCallsBegan(events);
  }

  /** A peer that is not able is passed over for the next one, if there is any; one that is goes on. */
  lemma CallGoesOn(s: System, i: nat)
    requires i < |s.calls|
    ensures var c := s.calls[i]; var passed := c.(verdicts := c.verdicts + [false],
                                                  phase := if |c.verdicts| + 1 < |c.peers| then Asking else Unable);
      && (At(s, i, Asking) ==>
            && Next(s, Capable(i, false)).calls[i] == passed
            && Next(s, Capable(i, true)).calls[i] == c.(phase := Connecting))
      && (At(s, i, Connecting) ==>
            && Next(s, Connected(i, false)).calls[i] == passed
            && Next(s, Connected(i, true)).calls[i].phase == Running(c.peers[|c.verdicts|]))
  {}

  predicate HadError(events: seq<Event>, i: nat) {
    exists k :: 0 <= k < |events| && events[k] == AskFailed(i)
  }

  /** Only an error breaks a call off. */
  lemma {:induction false} BrokenByError(events: seq<Event>, i: nat)
    requires i < |Exec(INITIAL, events).calls| && Exec(INITIAL, events).calls[i].phase.Broken?
    ensures HadError(events, i)
  {
    var before, e := events[..|events| - 1], events[|events| - 1];
    var s := Exec(INITIAL, before);
    if i < |s.calls| && s.calls[i].phase.Broken? {
      BrokenByError(before, i);
      var k :| 0 <= k < |before| && before[k] == AskFailed(i);
      assert events[k] == AskFailed(i);
    } else {
      BreaksOnlyThen(s, e, i);
      assert events[|events| - 1] == AskFailed(i);
    }
  }

  lemma BreaksOnlyThen(s: System, e: Event, i: nat)
    requires i < |Next(s, e).calls| && Next(s, e).calls[i].phase.Broken?
    requires i < |s.calls| ==> !s.calls[i].phase.Broken?
    ensures e == AskFailed(i)
  {}

  /** A call that ended stays as it is. Asking is ended by an error as well: no further peer is asked. */
  lemma {:induction false} EndedStays(s: System, i: nat, events: seq<Event>)
    requires i < |s.calls| && !Active(s.calls[i])
    ensures i < |Exec(s, events).calls| && Exec(s, events).calls[i] == s.calls[i]
  {
    if events != [] { EndedStays(s, i, events[..|events| - 1]); }
  }

  lemma {:induction false} ErrorEndsCall(s: System, i: nat, events: seq<Event>)
    requires At(s, i, Asking) || At(s, i, Connecting)
    ensures var s' := Exec(Next(s, AskFailed(i)), events);
      i < |s'.calls| && s'.calls[i] == s.calls[i].(phase := Broken) && Next(s, AskFailed(i)).jobs == s.jobs
  {
    EndedStays(Next(s, AskFailed(i)), i, events);
  }

  // ---------------------------------------------------------------- job ids that are reused

  predicate WasTaken(c: CallState) { c.phase.Running? || c.phase.Returned? || c.phase.Threw? }

  /** The call is the last one with its job that was delegated to a peer. */
  predicate IsLatest(s: System, i: nat) {
    i < |s.calls| && WasTaken(s.calls[i]) &&
    forall j :: i < j < |s.calls| && s.calls[j].job == s.calls[i].job ==> !WasTaken(s.calls[j])
  }

  /** Only the last call with a job can be going on. */
  predicate ActiveIsLast(s: System) {
    forall i, j :: 0 <= i < j < |s.calls| && s.calls[i].job == s.calls[j].job ==> !Active(s.calls[i])
  }

  /** The entry of a job is that of the latest call with it: the peer, or nothing once it returned. */
  predicate EntryOf(s: System, i: nat)
    requires i < |s.calls|
  {
    var c := s.calls[i];
    match c.phase
    case Running(p) => c.job in s.jobs && s.jobs[c.job] == p
    case Threw(p) => c.job in s.jobs && s.jobs[c.job] == p
    case _ => c.job !in s.jobs
  }

  ghost predicate LatestInv(s: System) {
    && ActiveIsLast(s)
    && (forall i: nat :: IsLatest(s, i) ==> EntryOf(s, i))
    && (forall job <- s.jobs :: exists i: nat :: IsLatest(s, i) && s.calls[i].job == job)
  }

  /** A step that changes one call only, which keeps its job, and does not change which calls were taken. */
  lemma SameTaken(s: System, s': System)
    requires LatestInv(s) && s'.jobs == s.jobs && ActiveIsLast(s') && |s.calls| <= |s'.calls|
    requires forall i :: 0 <= i < |s.calls| ==> s'.calls[i].job == s.calls[i].job
    requires forall i :: 0 <= i < |s.calls| ==> (WasTaken(s'.calls[i]) <==> WasTaken(s.calls[i]))
    requires forall i :: 0 <= i < |s.calls| && WasTaken(s.calls[i]) ==>
      s'.calls[i].phase == s.calls[i].phase || (s.calls[i].phase.Running? && s'.calls[i].phase == Threw(s.calls[i].phase.peer))
    requires forall i :: |s.calls| <= i < |s'.calls| ==> !WasTaken(s'.calls[i])
    ensures LatestInv(s')
  {
    forall i: nat | IsLatest(s', i) ensures EntryOf(s', i) {
      forall j | i < j < |s.calls| && s.calls[j].job == s.calls[i].job ensures !WasTaken(s.calls[j]) {
        assert !WasTaken(s'.calls[j]);
      }
      assert IsLatest(s, i);
    }
    forall job <- s'.jobs ensures exists i: nat :: IsLatest(s', i) && s'.calls[i].job == job {
      var i: nat :| IsLatest(s, i) && s.calls[i].job == job;
      assert IsLatest(s', i);
    }
  }

  /** The call is taken by a peer, or returns: either way it is the latest with its job, and decides the entry. */
  lemma OwnEntry(s: System, s': System, i: nat)
    requires LatestInv(s) && i < |s.calls| && Active(s.calls[i])
    requires var c := s'.calls; |c| == |s.calls| && s'.calls == s.calls[i := c[i]] && c[i].job == s.calls[i].job
    requires WasTaken(s'.calls[i])
    requires EntryOf(s', i) && s'.jobs - {s.calls[i].job} == s.jobs - {s.calls[i].job}
    ensures LatestInv(s')
  {
    var job := s.calls[i].job;
    assert IsLatest(s', i);
    forall k: nat | IsLatest(s', k) ensures EntryOf(s', k) {
      if k != i {
        assert s.calls[k].job != job;
        forall j | k < j < |s.calls| && s.calls[j].job == s.calls[k].job ensures !WasTaken(s.calls[j]) {
          assert !WasTaken(s'.calls[j]);
        }
        assert IsLatest(s, k);
        assert s.calls[k].job in s.jobs <==> s.calls[k].job in s.jobs - {job};
        assert s.calls[k].job in s'.jobs <==> s.calls[k].job in s'.jobs - {job};
        assert s.calls[k].job in s.jobs ==>
          (s.jobs - {job})[s.calls[k].job] == s.jobs[s.calls[k].job] == (s'.jobs - {job})[s.calls[k].job];
      }
    }
    forall other <- s'.jobs ensures exists k: nat :: IsLatest(s', k) && s'.calls[k].job == other {
      if other != job {
        assert other in s'.jobs - {job};
        var k: nat :| IsLatest(s, k) && s.calls[k].job == other;
        assert IsLatest(s', k);
      }
    }
  }

  lemma TakenLatest(s: System, i: nat)
    requires LatestInv(s)
    ensures LatestInv(Next(s, Connected(i, true)))
  {
    var s' := Next(s, Connected(i, true));
    if s' != s { OwnEntry(s, s', i); }
  }

  lemma FinishedLatest(s: System, i: nat)
    requires LatestInv(s)
    ensures LatestInv(Next(s, Finished(i)))
  {
    var s' := Next(s, Finished(i));
    if s' != s { OwnEntry(s, s', i); }
  }

  lemma BeginLatest(s: System, job: string)
    requires LatestInv(s) && ExclusiveStep(s, Begin(job))
    ensures LatestInv(Next(s, Begin(job)))
  {
    SameTaken(s, Next(s, Begin(job)));
  }

  /** One call, at most, goes on asking, gives up, or throws. */
  lemma AskingLatest(s: System, e: Event)
    requires LatestInv(s) && (e.Capable? || e.AskFailed? || e.PeerThrew? || (e.Connected? && !e.yes))
    ensures LatestInv(Next(s, e))
  {
    if Next(s, e) != s {
      AskingShape(s, e);
      SameTaken(s, Next(s, e));
    }
  }

  lemma AskingShape(s: System, e: Event)
    requires (e.Capable? || e.AskFailed? || e.PeerThrew? || (e.Connected? && !e.yes)) && Next(s, e) != s
    ensures e.call < |s.calls| && Active(s.calls[e.call])
    ensures var s' := Next(s, e); var c := s.calls[e.call];
      && |s'.calls| == |s.calls| && s' == SetCall(s, e.call, s'.calls[e.call]) && s'.calls[e.call].job == c.job
      && (if c.phase.Running? then s'.calls[e.call].phase == Threw(c.phase.peer) else !WasTaken(s'.calls[e.call]))
  {}

  lemma LatestKept(s: System, e: Event)
    requires LatestInv(s) && ExclusiveStep(s, e)
    ensures LatestInv(Next(s, e))
  {
    match e
    case Connected(i, yes) => if yes { TakenLatest(s, i); } else { AskingLatest(s, e); }
    case Finished(i) => FinishedLatest(s, i);
    case Begin(job) => BeginLatest(s, job);
    case Capable(_, _) => AskingLatest(s, e);
    case AskFailed(_) => AskingLatest(s, e);
    case PeerThrew(_) => AskingLatest(s, e);
    case _ => SameTaken(s, Next(s, e));
  }

  lemma {:induction false} RunLatest(s: System, events: seq<Event>)
    requires LatestInv(s) && ExclusiveRun(s, events)
    ensures LatestInv(Exec(s, events))
  {
    if events != [] {
      RunLatest(s, events[..|events| - 1]);
      LatestKept(Exec(s, events[..|events| - 1]), events[|events| - 1]);
    }
  }

  /**
   * When a job id is reused one call after the other, as `execute` does for the children of a
   * document, the map of jobs still says exactly one thing: to which peer the latest call with the
   * job was delegated, as long as that one has not returned.
   */
  lemma {:induction false} JobsAreLatest(events: seq<Event>, job: string, p: PeerRef)
    requires ExclusiveRun(INITIAL, events)
    ensures var s := Exec(INITIAL, events);
      job in s.jobs && s.jobs[job] == p <==> exists i: nat :: IsLatest(s, i) && Holds(s.calls[i], job, p)
  {
    RunLatest(INITIAL, events);
    var s := Exec(INITIAL, events);
    if job in s.jobs {
      var i: nat :| IsLatest(s, i) && s.calls[i].job == job;
      assert EntryOf(s, i);
    }
  }

  /** Where a cancellation is addressed is settled when it is made. */
  lemma {:induction false} CancellationStays(s: System, events: seq<Event>, k: nat)
    requires k < |s.cancellations|
    ensures var s' := Exec(s, events);
      k < |s'.cancellations| && s'.cancellations[k].(decided := true) == s.cancellations[k].(decided := true)
  {
    if events != [] { CancellationStays(s, events[..|events| - 1], k); }
  }

  /**
   * Cancelling while a call runs reaches the peer that runs it: the peer is asked, and whatever
   * happens before it answers, even the end of the call, the request goes to it and to no other.
   */
  lemma {:induction false} CancelReachesRunningPeer(events: seq<Event>, i: nat, later: seq<Event>)
    requires ExclusiveRun(INITIAL, events)
    requires var s := Exec(INITIAL, events); i < |s.calls| && s.calls[i].phase.Running?
    ensures var s := Exec(INITIAL, events); var c, k := s.calls[i], |s.cancellations|;
      var asked := Next(s, Cancel(c.job)); var s' := Exec(asked, later);
      && asked.cancellations == s.cancellations + [Cancellation(c.job, c.phase.peer, false)]
      && k < |s'.cancellations|
      && (!s'.cancellations[k].decided ==>
            && Next(s', CanCancel(k, true)).sent == s'.sent + [(c.job, c.phase.peer)]
            && Next(s', CanCancel(k, false)).sent == s'.sent)
  {
    RunKeeps(INITIAL, events);
    var s := Exec(INITIAL, events);
    var k := |s.cancellations|;
    CancellationStays(Next(s, Cancel(s.calls[i].job)), later, k);
  }

  lemma ExecSnoc(s: System, events: seq<Event>, e: Event)
    ensures Exec(s, events + [e]) == Next(Exec(s, events), e)
  {
    assert (events + [e])[..|events|] == events;
  }

  const DELEGATED := [Add("p"), Begin("jo"), Capable(0, true), Connected(0, true)]

  lemma OneDelegated()
    ensures Exec(INITIAL, DELEGATED) ==
      System([Named("p", 0)], 1, map["jo" := 0], [CallState("jo", [0], [true], Running(0))], [], [])
  {
    var e1 := [] + [Add("p")];
    var e2 := e1 + [Begin("jo")];
    var e3 := e2 + [Capable(0, true)];
    ExecSnoc(INITIAL, [], Add("p"));
    ExecSnoc(INITIAL, e1, Begin("jo"));
    ExecSnoc(INITIAL, e2, Capable(0, true));
    ExecSnoc(INITIAL, e3, Connected(0, true));
    assert e3 + [Connected(0, true)] == DELEGATED;
    var s1 := INITIAL.(peers := [Named("p", 0)], spawned := 1);
    assert Exec(INITIAL, e1) == s1;
    assert Refs([Named("p", 0)]) == [0];
    assert Exec(INITIAL, e2) == s1.(calls := [CallState("jo", [0], [], Asking)]);
    assert Exec(INITIAL, e3) == s1.(calls := [CallState("jo", [0], [], Connecting)]);
    assert [] + [true] == [true];
  }

  /**
   * A peer that throws leaves its entry behind. If the job id is then reused, as by the next child
   * after a capability error, a cancellation that comes before the next delegation is addressed to
   * the peer that threw.
   */
  lemma ThrowLeavesEntry()
    ensures var thrown := Exec(INITIAL, DELEGATED + [PeerThrew(0)]);
      var s := Exec(INITIAL, DELEGATED + [PeerThrew(0)] + [Begin("jo")]);
      && ExclusiveStep(thrown, Begin("jo"))
      && s.jobs == map["jo" := 0]
      && s.calls == [CallState("jo", [0], [true], Threw(0)), CallState("jo", [0], [], Asking)]
      && Next(s, Cancel("jo")).cancellations == [Cancellation("jo", 0, false)]
  {
    OneDelegated();
    ExecSnoc(INITIAL, DELEGATED, PeerThrew(0));
    ExecSnoc(INITIAL, DELEGATED + [PeerThrew(0)], Begin("jo"));
    assert Exec(INITIAL, DELEGATED + [PeerThrew(0)]).calls == [CallState("jo", [0], [true], Threw(0))];
    assert Refs([Named("p", 0)]) == [0];
  }
}
