/** The `Queuer` of src/base/Queuer.ts: the steps of the job queue, carried out in place. */
module QueuerClass {
  import opened Values
  import opened JobQueue
  import opened QueueSafety
  import opened QueueStop
  import opened QueueClean

  lemma {:induction false} RejectEachSnoc(s: System, jobs: seq<Job>, job: Job, message: string)
    ensures RejectEach(s, jobs + [job], message) == Wrapper(RejectEach(s, jobs, message), job, Rejected(message))
    decreases |jobs|
  {
    if jobs == [] {
      assert [job][1..] == [];
      assert [] + [job] == [job];
    } else {
      assert (jobs + [job])[1..] == jobs[1..] + [job];
      RejectEachSnoc(Wrapper(s, jobs[0], Rejected(message)), jobs[1..], job, message);
    }
  }

  lemma {:induction false} StaleSnoc(c: Config, now: nat, jobs: seq<Job>, job: Job)
    ensures Stale(c, now, jobs + [job]) ==
      if IsStale(c, now, job) then Stale(c, now, jobs) + [job] else Stale(c, now, jobs)
  {
    if jobs == [] {
      assert [] + [job] == [job];
      assert Stale(c, now, [job][1..]) == [];
    } else {
      assert (jobs + [job])[1..] == jobs[1..] + [job];
      StaleSnoc(c, now, jobs[1..], job);
    }
  }

  lemma CleanFacts(c: Config, s: System)
    ensures DistinctIds(s.queue) ==> Next(c, s, Event.Clean).queue == NotStale(c, s.clock, s.queue)
    ensures Inv(c, s) ==> Inv(c, Next(c, s, Event.Clean))
  {
    if DistinctIds(s.queue) { CleanIsFilter(c, s); }
    if Inv(c, s) { StepKeeps(c, s, Event.Clean); }
  }

  lemma StopFacts(c: Config, s: System)
    ensures DistinctIds(s.queue) ==> Next(c, s, Event.Stop).queue == Odds(s.queue)
    ensures Inv(c, s) ==> Inv(c, Next(c, s, Event.Stop))
  {
    if DistinctIds(s.queue) {
      StopQueue(s, 0);
      assert s.queue[0..] == s.queue && s.queue[..0] == [];
    }
    if Inv(c, s) { StepKeeps(c, s, Event.Stop); }
  }

  class Queuer {
    const config: Config
    var queue: seq<Job>
    var clock: nat
    var accepted: seq<Job>
    var pending: seq<Settlement>
    var settled: map<nat, Outcome>
    var reductions: seq<Reduction>
    ghost var cancelled: set<nat>

    ghost function State(): System
      reads this
    {
      System(queue, accepted, cancelled, pending, settled, reductions, clock)
    }

    /** The bound, the order of acceptance, and the account of every accepted job. */
    ghost predicate Valid()
      reads this
    {
      Inv(config, State())
    }

    constructor (config: Config)
      ensures this.config == config && State() == INITIAL && Valid()
    {
      this.config := config;
      queue, accepted, cancelled, pending, settled, reductions, clock := [], [], {}, [], map[], [], 0;
    }

    /** The ticket of the promise, or None for the capability error of a full queue. */
    method Call(id: string, request: Request) returns (ticket: Option<nat>)
      modifies this
      ensures State() == Next(config, old(State()), Event.Call(id, request))
      ensures ticket == if |old(queue)| >= config.queueLength then None else Some(|old(accepted)|)
      ensures old(Valid() && FreshStep(State(), Event.Call(id, request))) ==> Valid()
    {
      ghost var before := State();
      if Inv(config, before) && FreshStep(before, Event.Call(id, request)) { StepKeeps(config, before, Event.Call(id, request)); }
      if |queue| >= config.queueLength { return None; }
      var job := Job(|accepted|, id, request, clock);
      queue, accepted := queue + [job], accepted + [job];
      ticket := Some(job.ticket);
    }

    method Position(id: string) returns (i: int)
      ensures i == FindIndex(queue, id)
    {
      i := 0;
      while i < |queue|
        invariant 0 <= i <= |queue|
        invariant forall j :: 0 <= j < i ==> queue[j].id != id
      {
        if queue[i].id == id { return; }
        i := i + 1;
      }
      i := -1;
    }

    /** `asked` tells a caller's own cancellation from the one that every wrapper performs. */
    method Cancel(id: string, ghost asked: bool) returns (removed: bool)
      modifies this`queue, this`cancelled
      ensures removed <==> exists job :: job in old(queue) && job.id == id
      ensures asked ==> State() == Next(config, old(State()), Event.Cancel(id))
      ensures !asked ==> queue == Remove(old(queue), id) && cancelled == old(cancelled)
      ensures old(asked && Valid()) ==> Valid()
    {
      ghost var before := State();
      if Inv(config, before) { StepKeeps(config, before, Event.Cancel(id)); }
      var i := Position(id);
      removed := i >= 0;
      if i >= 0 {
        if asked { cancelled := cancelled + {queue[i].ticket}; }
        queue := queue[..i] + queue[i + 1..];
      }
    }

    /** The synchronous half of a job's `resolve` and `reject`. */
    method Offer(job: Job, outcome: Outcome)
      modifies this`queue, this`cancelled, this`pending
      ensures State() == Wrapper(old(State()), job, outcome)
    {
      var _ := Cancel(job.id, false);
      pending := pending + [Settlement(job.ticket, outcome)];
    }

    /** The other half, after the `await`: only the first settlement of a promise counts. */
    method Settle(which: nat)
      requires which < |pending|
      modifies this`pending, this`settled
      ensures State() == Next(config, old(State()), Event.Settle(which))
      ensures old(Valid()) ==> Valid()
    {
      ghost var before := State();
      if Inv(config, before) { StepKeeps(config, before, Event.Settle(which)); }
      var Settlement(ticket, outcome) := pending[which];
      pending := pending[..which] + pending[which + 1..];
      if ticket !in settled { settled := settled[ticket := outcome]; }
    }

    method Clean()
      modifies this`queue, this`cancelled, this`pending
      ensures State() == Next(config, old(State()), Event.Clean)
      ensures DistinctIds(old(queue)) ==> queue == NotStale(config, clock, old(queue))
      ensures old(Valid()) ==> Valid()
    {
      var now, snapshot := clock, queue;
      ghost var before := State();
      for i := 0 to |snapshot|
        invariant State() == RejectEach(before, Stale(config, now, snapshot[..i]), STALE)
        invariant clock == now
      {
        StaleSnoc(config, now, snapshot[..i], snapshot[i]);
        assert snapshot[..i + 1] == snapshot[..i] + [snapshot[i]];
        if IsStale(config, now, snapshot[i]) {
          RejectEachSnoc(before, Stale(config, now, snapshot[..i]), snapshot[i], STALE);
          Offer(snapshot[i], Rejected(STALE));
        }
      }
      assert snapshot[..|snapshot|] == snapshot;
      CleanFacts(config, before);
    }

    method Stop()
      modifies this`queue, this`cancelled, this`pending
      ensures State() == Next(config, old(State()), Event.Stop)
      ensures DistinctIds(old(queue)) ==> queue == Odds(old(queue))
      ensures old(Valid()) ==> Valid()
    {
      ghost var before := State();
      var i := 0;
      while i < |queue|
        invariant StopFrom(State(), i) == StopFrom(before, 0)
        decreases |queue| - i
      {
        var job := queue[i];
        i := i + 1;
        Offer(job, Rejected(STOPPING));
      }
      StopFacts(config, before);
    }

    /** `reduce` up to its first `await`: it takes a snapshot of the queue. */
    method StartReduce() returns (reduction: nat)
      modifies this`reductions
      ensures State() == Next(config, old(State()), Event.StartReduce)
      ensures reduction == |old(reductions)|
      ensures old(Valid()) ==> Valid()
    {
      ghost var before := State();
      if Inv(config, before) { StepKeeps(config, before, Event.StartReduce); }
      reduction := |reductions|;
      reductions := reductions + [Reduction(queue, 0)];
    }

    /** `reduce` from one `await` to the next; it returns its count when the snapshot is exhausted. */
    method ResumeReduce(r: nat, answer: Answer) returns (result: Option<nat>)
      requires r < |reductions| && reductions[r].rest != []
      modifies this
      ensures State() == Next(config, old(State()), Event.Resume(r, answer))
      ensures r < |reductions|
      ensures result == if reductions[r].rest == [] then Some(reductions[r].resolved) else None
      ensures old(Valid()) ==> Valid()
    {
      ghost var before := State();
      if Inv(config, before) { StepKeeps(config, before, Event.Resume(r, answer)); }
      var Reduction(rest, resolved) := reductions[r];
      match answer {
        case Failure(message) => Offer(rest[0], Rejected(message));
        case Value(v) =>
          Offer(rest[0], Resolved(v));
          resolved := resolved + 1;
        case _ =>
      }
      reductions := reductions[r := Reduction(rest[1..], resolved)];
      result := if rest[1..] == [] then Some(resolved) else None;
    }
  }
}
