/** The `Delegator` of src/base/Delegator.ts: the steps of delegation, carried out in place. */
module DelegatorClass {
  import opened Values
  import opened Delegation

  lemma {:induction false} WithoutSnoc(peers: seq<Named>, n: Named, id: string)
    ensures Without(peers + [n], id) == if n.id == id then Without(peers, id) else Without(peers, id) + [n]
  {
    if peers == [] {
      assert [n][1..] == [] && [] + [n] == [n];
    } else {
      assert (peers + [n])[1..] == peers[1..] + [n];
      WithoutSnoc(peers[1..], n, id);
    }
  }

  lemma {:induction false} RefsSnoc(peers: seq<Named>, n: Named)
    ensures Refs(peers + [n]) == Refs(peers) + [n.peer]
  {
    if peers == [] {
      assert [n][1..] == [] && [] + [n] == [n];
    } else {
      assert (peers + [n])[1..] == peers[1..] + [n];
      RefsSnoc(peers[1..], n);
    }
  }

  /** The list up to the first entry with the id, in one step. */
  lemma {:induction false} WithAt(peers: seq<Named>, i: nat, id: string, peer: PeerRef)
    requires i <= |peers| && forall j :: 0 <= j < i ==> peers[j].id != id
    requires i < |peers| ==> peers[i].id == id
    ensures With(peers, id, peer) == if i < |peers| then peers[i := Named(id, peer)] else peers + [Named(id, peer)]
  {
    if i > 0 { WithAt(peers[1..], i - 1, id, peer); }
  }

  class Delegator {
    var peers: seq<Named>
    var spawned: nat
    var jobs: map<string, PeerRef>
    var calls: seq<CallState>
    var cancellations: seq<Cancellation>
    var sent: seq<(string, PeerRef)>

    function State(): System
      reads this
    {
      System(peers, spawned, jobs, calls, cancellations, sent)
    }

    /** Who was chosen for each call, and that jobs and cancellations lead there. */
    ghost predicate Valid()
      reads this
    {
      Inv(State()) && LatestInv(State())
    }

    constructor ()
      ensures State() == INITIAL && Valid()
    {
      peers, spawned, jobs, calls, cancellations, sent := [], 0, map[], [], [], [];
    }

    /** Every step keeps that, as long as a job id is not reused while a call with it goes on. */
    lemma KeepValid(e: Event)
      ensures Valid() && ExclusiveStep(State(), e) ==> Inv(Next(State(), e)) && LatestInv(Next(State(), e))
    {
      if Valid() && ExclusiveStep(State(), e) {
        StepKeeps(State(), e);
        LatestKept(State(), e);
      }
    }

    method Position(id: string) returns (i: nat)
      ensures i <= |peers| && (forall j :: 0 <= j < i ==> peers[j].id != id)
      ensures i < |peers| ==> peers[i].id == id
    {
      i := 0;
      while i < |peers| && peers[i].id != id
        invariant i <= |peers| && forall j :: 0 <= j < i ==> peers[j].id != id
      {
        i := i + 1;
      }
    }

    /** Also what `update` does with an id it does not know. */
    method AddPeer(id: string)
      modifies this`peers, this`spawned
      ensures State() == Next(old(State()), Add(id))
      ensures old(Valid()) ==> Valid()
    {
      KeepValid(Add(id));
      var i := Position(id);
      WithAt(peers, i, id, spawned);
      var named := Named(id, spawned);
      peers := if i < |peers| then peers[i := named] else peers + [named];
      spawned := spawned + 1;
    }

    method RemovePeer(id: string)
      modifies this`peers
      ensures State() == Next(old(State()), Remove(id))
      ensures old(Valid()) ==> Valid()
    {
      KeepValid(Remove(id));
      var kept, all: seq<Named> := [], peers;
      for i := 0 to |all|
        invariant kept == Without(all[..i], id)
      {
        WithoutSnoc(all[..i], all[i], id);
        assert all[..i + 1] == all[..i] + [all[i]];
        if all[i].id != id { kept := kept + [all[i]]; }
      }
      assert all[..|all|] == all;
      peers := kept;
    }

    /** `call` up to its first `await`: it goes through the peers there are now. */
    method BeginCall(job: string) returns (call: nat)
      modifies this`calls
      ensures State() == Next(old(State()), Begin(job)) && call == |old(calls)|
      ensures old(Valid() && ExclusiveStep(State(), Begin(job))) ==> Valid()
    {
      KeepValid(Begin(job));
      var refs: seq<PeerRef> := [];
      for i := 0 to |peers|
        invariant calls == old(calls)
        invariant refs == Refs(peers[..i])
      {
        RefsSnoc(peers[..i], peers[i]);
        assert peers[..i + 1] == peers[..i] + [peers[i]];
        refs := refs + [peers[i].peer];
      }
      assert peers[..|peers|] == peers;
      call := |calls|;
      calls := calls + [CallState(job, refs, [], if refs == [] then Unable else Asking)];
    }

    method OnCapable(call: nat, yes: bool)
      requires At(State(), call, Asking)
      modifies this`calls
      ensures State() == Next(old(State()), Capable(call, yes))
      ensures old(Valid()) ==> Valid()
    {
      KeepValid(Capable(call, yes));
      var c := calls[call];
      calls := calls[call := if yes then c.(phase := Connecting) else Pass(c)];
    }

    method OnConnected(call: nat, yes: bool)
      requires At(State(), call, Connecting)
      modifies this`calls, this`jobs
      ensures State() == Next(old(State()), Connected(call, yes))
      ensures old(Valid()) ==> Valid()
    {
      KeepValid(Connected(call, yes));
      var c := calls[call];
      if !yes {
        calls := calls[call := Pass(c)];
        return;
      }
      var peer := c.peers[|c.verdicts|];
      jobs := jobs[c.job := peer];
      calls := calls[call := c.(verdicts := c.verdicts + [true], phase := Running(peer))];
    }

    /** Asking or connecting threw: so does the call, and no other peer is asked. */
    method OnAskFailed(call: nat)
      requires At(State(), call, Asking) || At(State(), call, Connecting)
      modifies this`calls
      ensures State() == Next(old(State()), AskFailed(call))
      ensures old(Valid()) ==> Valid()
    {
      KeepValid(AskFailed(call));
      calls := calls[call := calls[call].(phase := Broken)];
    }

    /** The peer's result arrived, or its error: only a result clears the entry. */
    method OnAnswer(call: nat, threw: bool)
      requires call < |calls| && calls[call].phase.Running?
      modifies this`calls, this`jobs
      ensures State() == Next(old(State()), if threw then PeerThrew(call) else Finished(call))
      ensures old(Valid()) ==> Valid()
    {
      KeepValid(if threw then PeerThrew(call) else Finished(call));
      var c := calls[call];
      if threw {
        calls := calls[call := c.(phase := Threw(c.phase.peer))];
        return;
      }
      jobs := jobs - {c.job};
      calls := calls[call := c.(phase := Returned(c.phase.peer))];
    }

    method BeginCancel(job: string) returns (known: bool)
      modifies this`cancellations
      ensures State() == Next(old(State()), Cancel(job)) && known == (job in jobs)
      ensures old(Valid()) ==> Valid()
    {
      KeepValid(Cancel(job));
      known := job in jobs;
      if known { cancellations := cancellations + [Cancellation(job, jobs[job], false)]; }
    }

    method OnCanCancel(which: nat, yes: bool)
      requires which < |cancellations| && !cancellations[which].decided
      modifies this`cancellations, this`sent
      ensures State() == Next(old(State()), CanCancel(which, yes))
      ensures old(Valid()) ==> Valid()
    {
      KeepValid(CanCancel(which, yes));
      var c := cancellations[which];
      if yes { sent := sent + [(c.job, c.peer)]; }
      cancellations := cancellations[which := c.(decided := true)];
    }
  }
}
