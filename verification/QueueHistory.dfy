/** What the events of a run say about the jobs of the queue: which calls made them, when, and how old they are. */
module QueueHistory {
  import opened Values
  import opened JobQueue
  import opened QueueSafety
  import opened QueueStop
  import opened QueueClean

  /** The time that passed during the events. */
  function Ticks(events: seq<Event>): nat {
    if events == [] then 0
    else Ticks(events[..|events| - 1]) + if events[|events| - 1].Tick? then events[|events| - 1].elapsed else 0
  }

  /** The calls that found room on the queue, in order. */
  function Accepting(c: Config, events: seq<Event>): seq<nat> {
    if events == [] then []
    else
      var before := events[..|events| - 1];
      Accepting(c, before) +
        if events[|events| - 1].Call? && |Exec(c, INITIAL, before).queue| < c.queueLength then [|before|] else []
  }

  lemma {:induction false} RejectEachFrame(s: System, jobs: seq<Job>, message: string)
    ensures RejectEach(s, jobs, message).accepted == s.accepted && RejectEach(s, jobs, message).clock == s.clock
    decreases |jobs|
  {
    if jobs != [] { RejectEachFrame(Wrapper(s, jobs[0], Rejected(message)), jobs[1..], message); }
  }

  lemma {:induction false} StopFrame(s: System, i: nat)
    ensures StopFrom(s, i).accepted == s.accepted && StopFrom(s, i).clock == s.clock
    decreases |s.queue| - i
  {
    if i < |s.queue| { StopFrame(Wrapper(s, s.queue[i], Rejected(STOPPING)), i + 1); }
  }

  /** One step: only ticks move the clock, and only calls that find room make a job. */
  lemma StepHistory(c: Config, s: System, e: Event)
    ensures var s' := Next(c, s, e);
      && s'.clock == s.clock + (if e.Tick? then e.elapsed else 0)
      && s'.accepted == s.accepted +
           if e.Call? && |s.queue| < c.queueLength then [Job(|s.accepted|, e.id, e.request, s.clock)] else []
  {
    match e
    case Clean => RejectEachFrame(s, Stale(c, s.clock, s.queue), STALE);
    case Stop => StopFrame(s, 0);
    case _ =>
  }

  /** The job is the one that this call made, and its date is the time of the call. */
  predicate MadeBy(events: seq<Event>, job: Job, n: nat, k: nat) {
    k < |events| && events[k].Call? && job == Job(n, events[k].id, events[k].request, Ticks(events[..k]))
  }

  /** Over every run the accepted jobs are those of the calls that found room, in order. */
  lemma {:induction false} JobsAreCalls(c: Config, events: seq<Event>)
    ensures var s, calls := Exec(c, INITIAL, events), Accepting(c, events);
      && s.clock == Ticks(events)
      && |calls| == |s.accepted|
      && forall n: nat :: n < |calls| ==> MadeBy(events, s.accepted[n], n, calls[n])
  {
    if events != [] {
      var before, e := events[..|events| - 1], events[|events| - 1];
      var s, calls := Exec(c, INITIAL, before), Accepting(c, before);
      JobsAreCalls(c, before);
      StepHistory(c, s, e);
      forall n: nat | n < |Accepting(c, events)|
        ensures MadeBy(events, Exec(c, INITIAL, events).accepted[n], n, Accepting(c, events)[n])
      {
        if n < |calls| {
          assert MadeBy(before, s.accepted[n], n, calls[n]);
          assert events[..calls[n]] == before[..calls[n]];
        }
      }
    }
  }

  lemma {:induction false} NotStaleExactly(c: Config, now: nat, queue: seq<Job>)
    ensures forall job :: job in NotStale(c, now, queue) <==> job in queue && !IsStale(c, now, job)
  {
    if queue != [] {
      NotStaleExactly(c, now, queue[1..]);
      assert queue == [queue[0]] + queue[1..];
    }
  }

  lemma StaleByAge(c: Config, now: nat, job: Job)
    requires job.date <= now
    ensures IsStale(c, now, job) <==> (now - job.date) as real >= 1000.0 * c.queueStale
  {}

  /** Cleaning, for one queued job: it stays, or it is rejected for being stale. */
  lemma CleanOne(c: Config, s: System, job: Job)
    requires Inv(c, s) && job in s.queue
    ensures var s' := Next(c, s, Clean);
      if IsStale(c, s.clock, job) then !Queued(s', job.ticket) && Settlement(job.ticket, Rejected("Job has become stale")) in s'.pending
      else Queued(s', job.ticket)
  {
    QueueIdsDistinct(s);
    CleanIsFilter(c, s);
    NotStaleExactly(c, s.clock, s.queue);
    StaleExactly(c, s.clock, s.queue);
    var s', stale := Next(c, s, Clean), Stale(c, s.clock, s.queue);
    if IsStale(c, s.clock, job) {
      OnlyJob(s, s', job);
      RejectionsAt(stale, STALE);
      var i :| 0 <= i < |stale| && stale[i] == job;
      assert Rejections(stale, STALE)[i] == Settlement(job.ticket, Rejected(STALE));
    } else {
      var k :| 0 <= k < |s'.queue| && s'.queue[k] == job;
    }
  }

  /** If a job is not among some of the queued jobs, its ticket is not either. */
  lemma OnlyJob(s: System, s': System, job: Job)
    requires InOrder(s) && job in s.queue && job !in s'.queue && forall j <- s'.queue :: j in s.queue
    ensures !Queued(s', job.ticket)
  {
    var j :| 0 <= j < |s.queue| && s.queue[j] == job;
    forall k | 0 <= k < |s'.queue| ensures s'.queue[k].ticket != job.ticket {
      assert s'.queue[k] in s.queue;
      var i :| 0 <= i < |s.queue| && s.queue[i] == s'.queue[k];
      assert AcceptedJob(s, s.queue[i]) && AcceptedJob(s, s.queue[j]);
    }
  }

  lemma {:induction false} TicksConcat(a: seq<Event>, b: seq<Event>)
    ensures Ticks(a + b) == Ticks(a) + Ticks(b)
  {
    if b == [] {
      assert a + b == a;
    } else {
      assert (a + b)[..|a + b| - 1] == a + b[..|b| - 1];
      TicksConcat(a, b[..|b| - 1]);
    }
  }

  /** The age of a queued job is the time since its own call. */
  lemma {:induction false} JobAge(c: Config, events: seq<Event>, n: nat) returns (job: Job)
    requires FreshRun(c, INITIAL, events) && Queued(Exec(c, INITIAL, events), n)
    ensures n < |Accepting(c, events)| && Accepting(c, events)[n] < |events|
    ensures var s := Exec(c, INITIAL, events);
      job in s.queue && job.ticket == n && s.clock - job.date == Ticks(events[Accepting(c, events)[n]..])
  {
    var s := Exec(c, INITIAL, events);
    RunKeeps(c, INITIAL, events);
    JobsAreCalls(c, events);
    var i :| 0 <= i < |s.queue| && s.queue[i].ticket == n;
    job := s.queue[i];
    assert AcceptedJob(s, job);
    var k := Accepting(c, events)[n];
    assert MadeBy(events, s.accepted[n], n, k);
    assert events == events[..k] + events[k..];
    TicksConcat(events[..k], events[k..]);
  }

  /**
   * Over every run: cleaning rejects a queued job as stale if and only if the time that passed since
   * its own call is the configured number of seconds or more.
   */
  lemma {:induction false} CleanByAge(c: Config, events: seq<Event>, n: nat)
    requires FreshRun(c, INITIAL, events) && Queued(Exec(c, INITIAL, events), n)
    ensures n < |Accepting(c, events)| && Accepting(c, events)[n] < |events|
    ensures var s' := Next(c, Exec(c, INITIAL, events), Clean); var since := events[Accepting(c, events)[n]..];
      if Ticks(since) as real >= 1000.0 * c.queueStale
      then !Queued(s', n) && Settlement(n, Rejected("Job has become stale")) in s'.pending
      else Queued(s', n)
  {
    var s := Exec(c, INITIAL, events);
    var job := JobAge(c, events, n);
    RunKeeps(c, INITIAL, events);
    StaleByAge(c, s.clock, job);
    CleanOne(c, s, job);
  }
}
