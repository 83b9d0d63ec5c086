/** What every interleaving of the steps of the job queue keeps. */
module QueueSafety {
  import opened Values
  import opened JobQueue

  predicate HasTicket(queue: seq<Job>, t: nat) {
    exists k :: 0 <= k < |queue| && queue[k].ticket == t
  }

  predicate Queued(s: System, t: nat) { HasTicket(s.queue, t) }

  predicate Pending(s: System, t: nat) {
    exists k :: 0 <= k < |s.pending| && s.pending[k].ticket == t
  }

  predicate Settling(s: System, t: nat) { Pending(s, t) && t !in s.settled }

  predicate CancelledUnsettled(s: System, t: nat) {
    t in s.cancelled && !Pending(s, t) && t !in s.settled
  }

  predicate AcceptedJob(s: System, job: Job) {
    job.ticket < |s.accepted| && job == s.accepted[job.ticket]
  }

  /** The history of accepted jobs: tickets count up, dates never decrease. */
  predicate History(s: System) {
    && (forall i :: 0 <= i < |s.accepted| ==> s.accepted[i].ticket == i && s.accepted[i].date <= s.clock)
    && (forall i, j :: 0 <= i < j < |s.accepted| ==>
          s.accepted[i].date <= s.accepted[j].date)
  }

  /** The queue is a subsequence of the acceptance order. */
  predicate InOrder(s: System) {
    && (forall k :: 0 <= k < |s.queue| ==> AcceptedJob(s, s.queue[k]))
    && Increasing(s.queue)
  }

  predicate Known(s: System) {
    && (forall r, k :: 0 <= r < |s.reductions| && 0 <= k < |s.reductions[r].rest| ==>
          AcceptedJob(s, s.reductions[r].rest[k]))
    && (forall k :: 0 <= k < |s.pending| ==> s.pending[k].ticket < |s.accepted|)
    && (forall t <- s.settled :: t < |s.accepted|)
    && (forall t <- s.cancelled :: t < |s.accepted|)
  }

  /** No other job on the queue has the job's id. */
  predicate Unambiguous(queue: seq<Job>, job: Job) {
    forall k :: 0 <= k < |queue| && queue[k].id == job.id ==> queue[k] == job
  }

  /** So it is for the jobs on the queue, and those still to be dispatched. */
  predicate Distinguished(s: System) {
    && (forall k :: 0 <= k < |s.queue| ==> Unambiguous(s.queue, s.queue[k]))
    && (forall r, k :: 0 <= r < |s.reductions| && 0 <= k < |s.reductions[r].rest| ==>
          Unambiguous(s.queue, s.reductions[r].rest[k]))
  }

  predicate Accounted(s: System, t: nat) {
    Queued(s, t) <==> !(Pending(s, t) || t in s.settled || t in s.cancelled)
  }

  predicate AllAccounted(s: System) { forall t: nat :: t < |s.accepted| ==> Accounted(s, t) }

  /** What holds whatever the ids are. */
  predicate Base(c: Config, s: System) {
    |s.queue| <= c.queueLength && History(s) && InOrder(s) && Known(s)
  }

  predicate Inv(c: Config, s: System) { Base(c, s) && Distinguished(s) && AllAccounted(s) }

  /** A call never brings the id of a job that is on the queue, or still to be dispatched by a reduction. */
  predicate FreshStep(s: System, e: Event) {
    e.Call? ==>
      && (forall k :: 0 <= k < |s.queue| ==> s.queue[k].id != e.id)
      && (forall r, k :: 0 <= r < |s.reductions| && 0 <= k < |s.reductions[r].rest| ==>
            s.reductions[r].rest[k].id != e.id)
  }

  predicate FreshRun(c: Config, s: System, events: seq<Event>) {
    events == [] ||
    (FreshRun(c, s, events[..|events| - 1]) &&
     FreshStep(Exec(c, s, events[..|events| - 1]), events[|events| - 1]))
  }

  // ---------------------------------------------------------------- removal

  predicate Increasing(queue: seq<Job>) {
    forall j, k :: 0 <= j < k < |queue| ==> queue[j].ticket < queue[k].ticket
  }

  lemma JobsAssociate(a: seq<Job>, b: seq<Job>, c: seq<Job>)
    ensures a + b + c == a + (b + c)
  {}

  lemma OnlyThere(queue: seq<Job>, i: int, k: nat)
    requires Increasing(queue) && 0 <= i < |queue| && k < |queue| && queue[i] == queue[k]
    ensures i == k
  {}

  lemma SpliceAt(queue: seq<Job>, i: nat, k: nat)
    requires i < |queue| && k < |queue| - 1
    ensures Splice(queue, i)[k] == queue[if k < i then k else k + 1]
  {}

  lemma SpliceTickets(queue: seq<Job>, i: nat)
    requires i < |queue| && Increasing(queue)
    ensures forall k :: 0 <= k < |queue| - 1 ==> Splice(queue, i)[k] == queue[if k < i then k else k + 1]
    ensures forall t: nat :: HasTicket(Splice(queue, i), t) <==> HasTicket(queue, t) && t != queue[i].ticket
  {
    var q := Splice(queue, i);
    forall t: nat | HasTicket(queue, t) && t != queue[i].ticket ensures HasTicket(q, t) {
      var k :| 0 <= k < |queue| && queue[k].ticket == t;
      assert q[if k < i then k else k - 1].ticket == t;
    }
    forall t: nat | HasTicket(q, t) ensures HasTicket(queue, t) && t != queue[i].ticket {
      var k :| 0 <= k < |q| && q[k].ticket == t;
      assert queue[if k < i then k else k + 1].ticket == t;
    }
  }

  /** A wrapper of the job cuts off the job itself, or nothing. */
  predicate Hits(queue: seq<Job>, job: Job) {
    var i := FindIndex(queue, job.id);
    i >= 0 ==> queue[i] == job
  }

  /** If it cuts off nothing, the job is not on the queue. */
  lemma FindAccepted(s: System, job: Job)
    requires InOrder(s) && AcceptedJob(s, job) && FindIndex(s.queue, job.id) < 0
    ensures !HasTicket(s.queue, job.ticket)
  {
    forall k | 0 <= k < |s.queue| && s.queue[k].ticket == job.ticket ensures s.queue[k] == job {
      assert AcceptedJob(s, s.queue[k]);
    }
  }

  lemma RemoveInOrder(s: System, id: string)
    requires InOrder(s)
    ensures |Remove(s.queue, id)| <= |s.queue| && InOrder(s.(queue := Remove(s.queue, id)))
  {
    var i := FindIndex(s.queue, id);
    if i >= 0 {
      SpliceTickets(s.queue, i);
      var q := Splice(s.queue, i);
      forall k | 0 <= k < |q| ensures AcceptedJob(s, q[k]) {
        assert AcceptedJob(s, s.queue[if k < i then k else k + 1]);
      }
    }
  }

  /** Such a wrapper takes one ticket off the queue and no other. */
  lemma RemoveOne(s: System, job: Job)
    requires InOrder(s) && AcceptedJob(s, job) && Hits(s.queue, job)
    ensures var q := Remove(s.queue, job.id);
      && |q| <= |s.queue|
      && InOrder(s.(queue := q))
      && forall t: nat :: HasTicket(q, t) <==> HasTicket(s.queue, t) && t != job.ticket
  {
    var i := FindIndex(s.queue, job.id);
    RemoveInOrder(s, job.id);
    if i >= 0 { SpliceTickets(s.queue, i); } else { FindAccepted(s, job); }
  }

  /** Cutting the queue makes no id ambiguous. */
  lemma RemoveDistinguishes(queue: seq<Job>, id: string, job: Job)
    requires Unambiguous(queue, job)
    ensures Unambiguous(Remove(queue, id), job)
  {
    var i := FindIndex(queue, id);
    if i >= 0 {
      forall k | 0 <= k < |queue| - 1 && Splice(queue, i)[k].id == job.id ensures Splice(queue, i)[k] == job {
        SpliceAt(queue, i, k);
      }
    }
  }

  lemma RemoveKeepsDistinguished(s: System, id: string)
    requires Distinguished(s)
    ensures Distinguished(s.(queue := Remove(s.queue, id)))
  {
    var q := Remove(s.queue, id);
    var i := FindIndex(s.queue, id);
    forall k | 0 <= k < |q| ensures Unambiguous(q, q[k]) {
      if i >= 0 { SpliceAt(s.queue, i, k); }
      RemoveDistinguishes(s.queue, id, q[k]);
    }
    forall r, k | 0 <= r < |s.reductions| && 0 <= k < |s.reductions[r].rest|
      ensures Unambiguous(q, s.reductions[r].rest[k])
    {
      RemoveDistinguishes(s.queue, id, s.reductions[r].rest[k]);
    }
  }

  lemma WrapperBase(c: Config, s: System, job: Job, outcome: Outcome)
    requires Base(c, s) && AcceptedJob(s, job)
    ensures Base(c, Wrapper(s, job, outcome))
  {
    RemoveInOrder(s, job.id);
  }

  lemma WrapperAccounts(s: System, job: Job, outcome: Outcome)
    requires InOrder(s) && AcceptedJob(s, job) && Hits(s.queue, job) && AllAccounted(s)
    ensures AllAccounted(Wrapper(s, job, outcome))
  {
    RemoveOne(s, job);
    var s' := Wrapper(s, job, outcome);
    assert s'.pending[|s.pending|].ticket == job.ticket;
    forall t: nat | t < |s.accepted| ensures Accounted(s', t) {
      assert Accounted(s, t);
      if Pending(s, t) {
        var k :| 0 <= k < |s.pending| && s.pending[k].ticket == t;
        assert s'.pending[k].ticket == t;
      }
    }
  }

  lemma WrapperKeeps(c: Config, s: System, job: Job, outcome: Outcome)
    requires Inv(c, s) && AcceptedJob(s, job) && Unambiguous(s.queue, job)
    ensures Inv(c, Wrapper(s, job, outcome))
  {
    WrapperBase(c, s, job, outcome);
    WrapperAccounts(s, job, outcome);
    RemoveKeepsDistinguished(s, job.id);
  }

  lemma RejectEachKeeps(c: Config, s: System, jobs: seq<Job>, message: string)
    requires Inv(c, s) && forall k :: 0 <= k < |jobs| ==> AcceptedJob(s, jobs[k]) && Unambiguous(s.queue, jobs[k])
    ensures Inv(c, RejectEach(s, jobs, message))
    decreases |jobs|
  {
    if jobs != [] {
      var s' := Wrapper(s, jobs[0], Rejected(message));
      WrapperKeeps(c, s, jobs[0], Rejected(message));
      forall k | 0 <= k < |jobs| - 1 ensures Unambiguous(s'.queue, jobs[1..][k]) {
        RemoveDistinguishes(s.queue, jobs[0].id, jobs[k + 1]);
      }
      RejectEachKeeps(c, s', jobs[1..], message);
    }
  }

  lemma StopKeeps(c: Config, s: System, i: nat)
    requires Inv(c, s)
    ensures Inv(c, StopFrom(s, i))
    decreases |s.queue| - i
  {
    if i < |s.queue| {
      WrapperKeeps(c, s, s.queue[i], Rejected(STOPPING));
      StopKeeps(c, Wrapper(s, s.queue[i], Rejected(STOPPING)), i + 1);
    }
  }

  lemma StaleIn(c: Config, now: nat, jobs: seq<Job>)
    ensures forall k :: 0 <= k < |Stale(c, now, jobs)| ==> Stale(c, now, jobs)[k] in jobs
  {}

  // ---------------------------------------------------------------- one step

  lemma CallAccounts(c: Config, s: System, id: string, request: Request)
    requires Base(c, s) && AllAccounted(s) && |s.queue| < c.queueLength
    ensures var s' := Next(c, s, Call(id, request)); forall t: nat :: t < |s'.accepted| ==> Accounted(s', t)
  {
    var s', n := Next(c, s, Call(id, request)), |s.accepted|;
    assert s'.queue[|s.queue|].ticket == n;
    forall t: nat | t < |s'.accepted| ensures Accounted(s', t) {
      if t < n {
        assert Accounted(s, t);
        if Queued(s, t) {
          var k :| 0 <= k < |s.queue| && s.queue[k].ticket == t;
          assert s'.queue[k].ticket == t;
        }
      }
    }
  }

  lemma CallDistinguishes(c: Config, s: System, id: string, request: Request)
    requires Distinguished(s) && FreshStep(s, Call(id, request)) && |s.queue| < c.queueLength
    ensures Distinguished(Next(c, s, Call(id, request)))
  {
    var s' := Next(c, s, Call(id, request));
    forall k | 0 <= k < |s'.queue| ensures Unambiguous(s'.queue, s'.queue[k]) {
      if k < |s.queue| { assert Unambiguous(s.queue, s.queue[k]); }
    }
    forall r, k | 0 <= r < |s.reductions| && 0 <= k < |s.reductions[r].rest|
      ensures Unambiguous(s'.queue, s.reductions[r].rest[k])
    {
      assert Unambiguous(s.queue, s.reductions[r].rest[k]);
    }
  }

  lemma CallKeeps(c: Config, s: System, id: string, request: Request)
    requires Inv(c, s) && FreshStep(s, Call(id, request))
    ensures Inv(c, Next(c, s, Call(id, request)))
  {
    if |s.queue| < c.queueLength {
      CallAccounts(c, s, id, request);
      CallDistinguishes(c, s, id, request);
    }
  }

  lemma CancelAccounts(c: Config, s: System, id: string)
    requires InOrder(s) && AllAccounted(s)
    ensures AllAccounted(Next(c, s, Cancel(id)))
  {
    var i := FindIndex(s.queue, id);
    if i >= 0 {
      SpliceTickets(s.queue, i);
      forall t: nat | t < |s.accepted| ensures Accounted(Next(c, s, Cancel(id)), t) { assert Accounted(s, t); }
    }
  }

  lemma CancelKeeps(c: Config, s: System, id: string)
    requires Inv(c, s)
    ensures Inv(c, Next(c, s, Cancel(id)))
  {
    RemoveInOrder(s, id);
    RemoveKeepsDistinguished(s, id);
    CancelAccounts(c, s, id);
  }

  lemma ResumeKeeps(c: Config, s: System, r: nat, answer: Answer)
    requires Inv(c, s)
    ensures Inv(c, Next(c, s, Resume(r, answer)))
  {
    if r < |s.reductions| && s.reductions[r].rest != [] {
      var job := s.reductions[r].rest[0];
      assert AcceptedJob(s, job) && Unambiguous(s.queue, job);
      AnswerKeeps(c, s, job, answer);
      var s' := Next(c, s, Resume(r, answer));
      ReductionsMove(c, AfterAnswer(s, job, answer), s'.reductions);
    }
  }

  lemma AnswerKeeps(c: Config, s: System, job: Job, answer: Answer)
    requires Inv(c, s) && AcceptedJob(s, job) && Unambiguous(s.queue, job)
    ensures Inv(c, AfterAnswer(s, job, answer))
    ensures forall other :: Unambiguous(s.queue, other) ==> Unambiguous(AfterAnswer(s, job, answer).queue, other)
    ensures AfterAnswer(s, job, answer).reductions == s.reductions
    ensures AfterAnswer(s, job, answer).accepted == s.accepted
  {
    if answer.Value? { WrapperKeeps(c, s, job, Resolved(answer.value)); }
    if answer.Failure? { WrapperKeeps(c, s, job, Rejected(answer.message)); }
    forall other | Unambiguous(s.queue, other) ensures Unambiguous(AfterAnswer(s, job, answer).queue, other) {
      RemoveDistinguishes(s.queue, job.id, other);
    }
  }

  lemma ReductionsMove(c: Config, s: System, reductions: seq<Reduction>)
    requires Inv(c, s)
    requires forall r, k :: 0 <= r < |reductions| && 0 <= k < |reductions[r].rest| ==>
      AcceptedJob(s, reductions[r].rest[k]) && Unambiguous(s.queue, reductions[r].rest[k])
    ensures Inv(c, s.(reductions := reductions))
  {
    forall t: nat | t < |s.accepted| ensures Accounted(s.(reductions := reductions), t) { assert Accounted(s, t); }
  }

  /** Settling takes one settlement off the list, and only its promise may no longer have any. */
  lemma SettlePending(c: Config, s: System, k: nat, t: nat)
    requires k < |s.pending|
    ensures Pending(Next(c, s, Settle(k)), t) ==> Pending(s, t)
    ensures Pending(s, t) && t != s.pending[k].ticket ==> Pending(Next(c, s, Settle(k)), t)
  {
    var s' := Next(c, s, Settle(k));
    if Pending(s, t) && t != s.pending[k].ticket {
      var j :| 0 <= j < |s.pending| && s.pending[j].ticket == t;
      assert s'.pending[if j < k then j else j - 1].ticket == t;
    }
    if Pending(s', t) {
      var j :| 0 <= j < |s'.pending| && s'.pending[j].ticket == t;
      assert s.pending[if j < k then j else j + 1].ticket == t;
    }
  }

  lemma SettleAccounts(c: Config, s: System, k: nat)
    requires AllAccounted(s)
    ensures AllAccounted(Next(c, s, Settle(k)))
  {
    if k < |s.pending| {
      var s', p := Next(c, s, Settle(k)), s.pending[k].ticket;
      assert Pending(s, p) && p in s'.settled;
      forall t: nat | t < |s.accepted| ensures Accounted(s', t) {
        assert Accounted(s, t);
        SettlePending(c, s, k, t);
      }
    }
  }

  lemma SettleKeeps(c: Config, s: System, k: nat)
    requires Inv(c, s)
    ensures Inv(c, Next(c, s, Settle(k)))
  {
    SettleAccounts(c, s, k);
  }

  lemma StepKeeps(c: Config, s: System, e: Event)
    requires Inv(c, s) && FreshStep(s, e)
    ensures Inv(c, Next(c, s, e))
  {
    var s' := Next(c, s, e);
    match e
    case Call(id, request) => CallKeeps(c, s, id, request);
    case Cancel(id) => CancelKeeps(c, s, id);
    case Tick(elapsed) =>
      forall t: nat | t < |s.accepted| ensures Accounted(s', t) { assert Accounted(s, t); }
    case Clean =>
      StaleIn(c, s.clock, s.queue);
      RejectEachKeeps(c, s, Stale(c, s.clock, s.queue), STALE);
    case Stop => StopKeeps(c, s, 0);
    case StartReduce =>
      forall t: nat | t < |s.accepted| ensures Accounted(s', t) { assert Accounted(s, t); }
    case Resume(r, answer) => ResumeKeeps(c, s, r, answer);
    case Settle(k) => SettleKeeps(c, s, k);
  }

  // ---------------------------------------------------------------- every run

  lemma {:induction false} RunKeeps(c: Config, s: System, events: seq<Event>)
    requires Inv(c, s) && FreshRun(c, s, events)
    ensures Inv(c, Exec(c, s, events))
  {
    if events != [] {
      RunKeeps(c, s, events[..|events| - 1]);
      StepKeeps(c, Exec(c, s, events[..|events| - 1]), events[|events| - 1]);
    }
  }

  function Truths(a: bool, b: bool, c: bool, d: bool): nat {
    (if a then 1 else 0) + (if b then 1 else 0) + (if c then 1 else 0) + (if d then 1 else 0)
  }

  /**
   * Over every interleaving of calls, cancellations, cleaning, stops, settlements and any
   * number of overlapping reductions: the queue never outgrows its bound, it keeps the order of
   * acceptance, and every accepted job is in exactly one of four places.
   */
  lemma QueueSafety(c: Config, events: seq<Event>)
    requires FreshRun(c, INITIAL, events)
    ensures var s := Exec(c, INITIAL, events);
      && |s.queue| <= c.queueLength
      && InOrder(s)
      && forall t: nat :: t < |s.accepted| ==>
           Truths(Queued(s, t), Settling(s, t), t in s.settled, CancelledUnsettled(s, t)) == 1
  {
    RunKeeps(c, INITIAL, events);
    var s := Exec(c, INITIAL, events);
    forall t: nat | t < |s.accepted|
      ensures Truths(Queued(s, t), Settling(s, t), t in s.settled, CancelledUnsettled(s, t)) == 1
    {
      assert Accounted(s, t);
    }
  }
}
