/** When a job of the queue is lost, and which promises never settle. Nothing here depends on fresh ids. */
module QueueLoss {
  import opened Values
  import opened JobQueue
  import opened QueueSafety
  import opened QueueStop
  import opened QueueClean

  // ---------------------------------------------------------------- one wrapper

  /** Nothing will come of the promise any more, unless a reduction still holds its job. */
  predicate Out(s: System, t: nat) { !Queued(s, t) && !Pending(s, t) && t !in s.settled }

  predicate Lost(s: System, t: nat) { t < |s.accepted| && Out(s, t) && t !in s.cancelled }

  lemma LostIsUnaccounted(s: System, t: nat)
    requires Lost(s, t)
    ensures !AllAccounted(s)
  {
    assert !Accounted(s, t);
  }

  lemma WrapperOut(s: System, job: Job, outcome: Outcome, t: nat)
    requires InOrder(s) && Out(s, t) && job.ticket != t
    ensures Out(Wrapper(s, job, outcome), t)
  {
    var i := FindIndex(s.queue, job.id);
    if i >= 0 { SpliceTickets(s.queue, i); }
    WrapperPending(s, job, outcome, t);
  }

  lemma WrapperPending(s: System, job: Job, outcome: Outcome, t: nat)
    ensures Pending(Wrapper(s, job, outcome), t) <==> Pending(s, t) || t == job.ticket
  {
    var s' := Wrapper(s, job, outcome);
    assert s'.pending[|s.pending|].ticket == job.ticket;
    if Pending(s, t) {
      var k :| 0 <= k < |s.pending| && s.pending[k].ticket == t;
      assert s'.pending[k].ticket == t;
    }
  }

  /** A wrapper that cuts off another job loses that one. */
  lemma MissLoses(s: System, job: Job, outcome: Outcome)
    requires InOrder(s) && AllAccounted(s) && AcceptedJob(s, job) && !Hits(s.queue, job)
    ensures Lost(Wrapper(s, job, outcome), s.queue[FindIndex(s.queue, job.id)].ticket)
  {
    var i := FindIndex(s.queue, job.id);
    var x := s.queue[i];
    assert AcceptedJob(s, x) && Accounted(s, x.ticket);
    assert x.ticket != job.ticket;
    SpliceTickets(s.queue, i);
    WrapperPending(s, job, outcome, x.ticket);
  }

  /** The jobs stay accounted for exactly if the wrapper cuts off its own job, or nothing. */
  lemma WrapperExactly(s: System, job: Job, outcome: Outcome)
    requires InOrder(s) && AllAccounted(s) && AcceptedJob(s, job)
    ensures AllAccounted(Wrapper(s, job, outcome)) <==> Hits(s.queue, job)
  {
    if Hits(s.queue, job) {
      WrapperAccounts(s, job, outcome);
    } else {
      MissLoses(s, job, outcome);
      LostIsUnaccounted(Wrapper(s, job, outcome), s.queue[FindIndex(s.queue, job.id)].ticket);
    }
  }

  // ---------------------------------------------------------------- cleaning

  lemma CutFirst(s: System, outcome: Outcome)
    requires s.queue != []
    ensures Hits(s.queue, s.queue[0]) && Wrapper(s, s.queue[0], outcome).queue == s.queue[1..]
  {
    assert Splice(s.queue, 0) == s.queue[1..];
  }

  /** Rejecting the first jobs of the queue, in order, always cuts them off themselves. */
  lemma {:induction false} RejectPrefix(c: Config, s: System, n: nat, message: string)
    requires Base(c, s) && n <= |s.queue|
    ensures Base(c, RejectEach(s, s.queue[..n], message))
    ensures AllAccounted(s) ==> AllAccounted(RejectEach(s, s.queue[..n], message))
    decreases n
  {
    if n > 0 {
      var s' := Wrapper(s, s.queue[0], Rejected(message));
      CutFirst(s, Rejected(message));
      assert AcceptedJob(s, s.queue[0]);
      WrapperBase(c, s, s.queue[0], Rejected(message));
      if AllAccounted(s) { WrapperAccounts(s, s.queue[0], Rejected(message)); }
      RejectPrefix(c, s', n - 1, message);
      assert s.queue[..n][1..] == s'.queue[..n - 1];
    }
  }

  /** The stale jobs are a prefix, so cleaning loses nothing. */
  lemma CleanAccounts(c: Config, s: System)
    requires Base(c, s)
    ensures Base(c, Next(c, s, Clean))
    ensures AllAccounted(s) ==> AllAccounted(Next(c, s, Clean))
  {
    QueueSorted(s);
    StaleIsPrefix(c, s.clock, s.queue);
    RejectPrefix(c, s, |Stale(c, s.clock, s.queue)|, STALE);
  }

  // ---------------------------------------------------------------- stopping

  lemma {:induction false} StopBase(c: Config, s: System, i: nat)
    requires Base(c, s)
    ensures Base(c, StopFrom(s, i)) && StopFrom(s, i).accepted == s.accepted
    decreases |s.queue| - i
  {
    if i < |s.queue| {
      assert AcceptedJob(s, s.queue[i]);
      WrapperBase(c, s, s.queue[i], Rejected(STOPPING));
      StopBase(c, Wrapper(s, s.queue[i], Rejected(STOPPING)), i + 1);
    }
  }

  lemma {:induction false} StopOut(c: Config, s: System, i: nat, t: nat)
    requires Base(c, s) && Out(s, t)
    ensures Out(StopFrom(s, i), t) && StopFrom(s, i).cancelled == s.cancelled
    decreases |s.queue| - i
  {
    if i < |s.queue| {
      assert AcceptedJob(s, s.queue[i]);
      WrapperBase(c, s, s.queue[i], Rejected(STOPPING));
      WrapperOut(s, s.queue[i], Rejected(STOPPING), t);
      StopOut(c, Wrapper(s, s.queue[i], Rejected(STOPPING)), i + 1, t);
    }
  }

  /** The iteration at index `i` left position `j` on the queue, or will, and is to reach position `k`. */
  predicate Meets(i: nat, j: nat, k: nat) { i <= k && (k - i) % 2 == 0 && (j < i || (j - i) % 2 == 1) }

  /** No job that it is to reach has the id of one that is left on the queue before. */
  predicate Clear(queue: seq<Job>, i: nat) {
    forall j: nat, k: nat :: j < k < |queue| && Meets(i, j, k) ==> queue[j].id != queue[k].id
  }

  lemma ClearForward(queue: seq<Job>, i: nat)
    requires i < |queue| && Clear(queue, i)
    ensures Clear(Splice(queue, i), i + 1)
  {
    var q := Splice(queue, i);
    forall j: nat, k: nat | j < k < |q| && Meets(i + 1, j, k) ensures q[j].id != q[k].id {
      SpliceAt(queue, i, j);
      SpliceAt(queue, i, k);
      assert Meets(i, if j < i then j else j + 1, k + 1);
    }
  }

  lemma ClearBackward(queue: seq<Job>, i: nat)
    requires Increasing(queue) && i < |queue| && Hits(queue, queue[i]) && Clear(Splice(queue, i), i + 1)
    ensures Clear(queue, i)
  {
    var q := Splice(queue, i);
    OnlyThere(queue, FindIndex(queue, queue[i].id), i);
    forall j: nat, k: nat | j < k < |queue| && Meets(i, j, k) ensures queue[j].id != queue[k].id {
      if k > i { ClearPair(queue, i, j, k); }
    }
  }

  lemma ClearPair(queue: seq<Job>, i: nat, j: nat, k: nat)
    requires i < |queue| && Clear(Splice(queue, i), i + 1) && j < k < |queue| && Meets(i, j, k) && k > i
    ensures queue[j].id != queue[k].id
  {
    var j' := if j < i then j else j - 1;
    SpliceAt(queue, i, j');
    SpliceAt(queue, i, k - 1);
    assert Meets(i + 1, j', k - 1);
  }

  lemma ClearHits(queue: seq<Job>, i: nat)
    requires i < |queue| && Clear(queue, i)
    ensures Hits(queue, queue[i])
  {
    var f := FindIndex(queue, queue[i].id);
    assert f <= i && Meets(i, f, i) == (f < i);
  }

  /** A hit at index `i` cuts that job off, and the iteration is as clear as before. */
  lemma StopHit(c: Config, s: System, i: nat)
    requires Base(c, s) && AllAccounted(s) && i < |s.queue| && Hits(s.queue, s.queue[i])
    ensures var s' := Wrapper(s, s.queue[i], Rejected(STOPPING));
      Base(c, s') && AllAccounted(s') && (Clear(s'.queue, i + 1) <==> Clear(s.queue, i))
  {
    assert AcceptedJob(s, s.queue[i]);
    WrapperBase(c, s, s.queue[i], Rejected(STOPPING));
    WrapperAccounts(s, s.queue[i], Rejected(STOPPING));
    OnlyThere(s.queue, FindIndex(s.queue, s.queue[i].id), i);
    if Clear(s.queue, i) { ClearForward(s.queue, i); }
    if Clear(Splice(s.queue, i), i + 1) { ClearBackward(s.queue, i); }
  }

  /** A miss loses a job for good: the rest of the iteration does not bring it back. */
  lemma StopMiss(c: Config, s: System, i: nat)
    requires Base(c, s) && AllAccounted(s) && i < |s.queue| && !Hits(s.queue, s.queue[i])
    ensures !AllAccounted(StopFrom(s, i)) && !Clear(s.queue, i)
  {
    var s' := Wrapper(s, s.queue[i], Rejected(STOPPING));
    var x := s.queue[FindIndex(s.queue, s.queue[i].id)].ticket;
    assert AcceptedJob(s, s.queue[i]);
    WrapperBase(c, s, s.queue[i], Rejected(STOPPING));
    MissLoses(s, s.queue[i], Rejected(STOPPING));
    StopOut(c, s', i + 1, x);
    StopBase(c, s', i + 1);
    LostIsUnaccounted(StopFrom(s, i), x);
    if Clear(s.queue, i) { ClearHits(s.queue, i); }
  }

  lemma {:induction false} StopExactly(c: Config, s: System, i: nat)
    requires Base(c, s) && AllAccounted(s)
    ensures AllAccounted(StopFrom(s, i)) <==> Clear(s.queue, i)
    decreases |s.queue| - i
  {
    if i < |s.queue| {
      if Hits(s.queue, s.queue[i]) {
        StopHit(c, s, i);
        StopExactly(c, Wrapper(s, s.queue[i], Rejected(STOPPING)), i + 1);
      } else {
        StopMiss(c, s, i);
      }
    }
  }

  // ---------------------------------------------------------------- one step

  /**
   * The steps that lose no job, as can be told before they are taken: a reduction settles a job
   * whose id the queue has first at the job itself, or not at all; and when stopping, no job at an
   * even position has the id of one at an odd position before it.
   */
  predicate Harmless(s: System, e: Event) {
    match e
    case Stop => Clear(s.queue, 0)
    case Resume(r, answer) =>
      r < |s.reductions| && s.reductions[r].rest != [] && !(answer.Undefined? || answer.Incapable?) ==>
        Hits(s.queue, s.reductions[r].rest[0])
    case _ => true
  }

  lemma ResumeBase(c: Config, s: System, r: nat, answer: Answer)
    requires Base(c, s)
    ensures Base(c, Next(c, s, Resume(r, answer)))
  {
    if r < |s.reductions| && s.reductions[r].rest != [] {
      var job := s.reductions[r].rest[0];
      assert AcceptedJob(s, job);
      AnswerBase(c, s, job, answer);
      MovedBase(c, AfterAnswer(s, job, answer), r, Next(c, s, Resume(r, answer)).reductions[r].resolved);
    }
  }

  lemma AnswerBase(c: Config, s: System, job: Job, answer: Answer)
    requires Base(c, s) && AcceptedJob(s, job)
    ensures Base(c, AfterAnswer(s, job, answer))
    ensures AfterAnswer(s, job, answer).reductions == s.reductions && AfterAnswer(s, job, answer).accepted == s.accepted
  {
    if answer.Value? { WrapperBase(c, s, job, Resolved(answer.value)); }
    if answer.Failure? { WrapperBase(c, s, job, Rejected(answer.message)); }
  }

  lemma MovedBase(c: Config, s: System, r: nat, resolved: nat)
    requires Base(c, s) && r < |s.reductions| && s.reductions[r].rest != []
    ensures Base(c, s.(reductions := s.reductions[r := Reduction(s.reductions[r].rest[1..], resolved)]))
  {}

  lemma QueueBase(c: Config, s: System, e: Event)
    requires Base(c, s) && (e.Cancel? || e.StartReduce?)
    ensures Base(c, Next(c, s, e))
  {
    if e.Cancel? { RemoveInOrder(s, e.id); }
  }

  lemma CallBase(c: Config, s: System, id: string, request: Request)
    requires Base(c, s)
    ensures Base(c, Next(c, s, Call(id, request)))
  {}

  lemma SettleBase(c: Config, s: System, k: nat)
    requires Base(c, s)
    ensures Base(c, Next(c, s, Settle(k)))
  {}

  lemma BaseKept(c: Config, s: System, e: Event)
    requires Base(c, s)
    ensures Base(c, Next(c, s, e))
  {
    match e
    case Clean => CleanAccounts(c, s);
    case Stop => StopBase(c, s, 0);
    case Resume(r, answer) => ResumeBase(c, s, r, answer);
    case Settle(k) => SettleBase(c, s, k);
    case Call(id, request) => CallBase(c, s, id, request);
    case Tick(_) =>
    case _ => QueueBase(c, s, e);
  }

  lemma SameAccounts(s: System, s': System)
    requires s'.queue == s.queue && s'.pending == s.pending && s'.settled == s.settled
    requires s'.cancelled == s.cancelled && s'.accepted == s.accepted
    ensures AllAccounted(s') <==> AllAccounted(s)
  {
    forall t: nat ensures Accounted(s', t) <==> Accounted(s, t) {}
  }

  lemma ResumeExactly(c: Config, s: System, r: nat, answer: Answer)
    requires Base(c, s) && AllAccounted(s)
    ensures AllAccounted(Next(c, s, Resume(r, answer))) <==> Harmless(s, Resume(r, answer))
  {
    if r < |s.reductions| && s.reductions[r].rest != [] {
      var job := s.reductions[r].rest[0];
      assert AcceptedJob(s, job);
      if answer.Value? { WrapperExactly(s, job, Resolved(answer.value)); }
      if answer.Failure? { WrapperExactly(s, job, Rejected(answer.message)); }
      SameAccounts(AfterAnswer(s, job, answer), Next(c, s, Resume(r, answer)));
    }
  }

  lemma StepExactly(c: Config, s: System, e: Event)
    requires Base(c, s) && AllAccounted(s)
    ensures AllAccounted(Next(c, s, e)) <==> Harmless(s, e)
  {
    match e
    case Call(id, request) => if |s.queue| < c.queueLength { CallAccounts(c, s, id, request); }
    case Cancel(id) => CancelAccounts(c, s, id);
    case Clean => CleanAccounts(c, s);
    case Stop => StopExactly(c, s, 0);
    case Resume(r, answer) => ResumeExactly(c, s, r, answer);
    case Settle(k) => SettleAccounts(c, s, k);
    case Tick(_) => SameAccounts(s, Next(c, s, e));
    case StartReduce => SameAccounts(s, Next(c, s, e));
  }

  // ---------------------------------------------------------------- every run

  lemma {:induction false} BaseThroughout(c: Config, s: System, events: seq<Event>)
    requires Base(c, s)
    ensures Base(c, Exec(c, s, events))
  {
    if events != [] {
      BaseThroughout(c, s, events[..|events| - 1]);
      BaseKept(c, Exec(c, s, events[..|events| - 1]), events[|events| - 1]);
    }
  }

  predicate AccountedThroughout(c: Config, s: System, events: seq<Event>) {
    AllAccounted(Exec(c, s, events)) && (events == [] || AccountedThroughout(c, s, events[..|events| - 1]))
  }

  predicate HarmlessRun(c: Config, s: System, events: seq<Event>) {
    events == [] ||
    (HarmlessRun(c, s, events[..|events| - 1]) &&
     Harmless(Exec(c, s, events[..|events| - 1]), events[|events| - 1]))
  }

  lemma {:induction false} LossExactly(c: Config, s: System, events: seq<Event>)
    requires Base(c, s) && AllAccounted(s)
    ensures AccountedThroughout(c, s, events) <==> HarmlessRun(c, s, events)
  {
    if events != [] {
      var init := events[..|events| - 1];
      LossExactly(c, s, init);
      BaseThroughout(c, s, init);
      if HarmlessRun(c, s, init) { StepExactly(c, Exec(c, s, init), events[|events| - 1]); }
    }
  }

  /**
   * Over every run, whatever the ids: each accepted job is accounted for at all times if and only if
   * every step is harmless.
   */
  lemma {:induction false} JobsLostExactly(c: Config, events: seq<Event>)
    ensures AccountedThroughout(c, INITIAL, events) <==> HarmlessRun(c, INITIAL, events)
  {
    LossExactly(c, INITIAL, events);
  }

  // ---------------------------------------------------------------- promises that never settle

  /** A reduction has yet to dispatch the job. */
  predicate HeldBy(reductions: seq<Reduction>, t: nat) {
    exists r, k :: 0 <= r < |reductions| && 0 <= k < |reductions[r].rest| && reductions[r].rest[k].ticket == t
  }

  predicate Held(s: System, t: nat) { HeldBy(s.reductions, t) }

  predicate Gone(s: System, t: nat) { t < |s.accepted| && Out(s, t) && !Held(s, t) }

  lemma {:induction false} RejectPrefixOut(c: Config, s: System, n: nat, message: string, t: nat)
    requires Base(c, s) && n <= |s.queue| && Out(s, t)
    ensures var s' := RejectEach(s, s.queue[..n], message); Out(s', t) && s'.reductions == s.reductions && s'.accepted == s.accepted
    decreases n
  {
    if n > 0 {
      var s' := Wrapper(s, s.queue[0], Rejected(message));
      CutFirst(s, Rejected(message));
      assert AcceptedJob(s, s.queue[0]);
      WrapperBase(c, s, s.queue[0], Rejected(message));
      WrapperOut(s, s.queue[0], Rejected(message), t);
      RejectPrefixOut(c, s', n - 1, message, t);
      assert s.queue[..n][1..] == s'.queue[..n - 1];
    }
  }

  lemma {:induction false} StopReductions(s: System, i: nat)
    ensures StopFrom(s, i).reductions == s.reductions
    decreases |s.queue| - i
  {
    if i < |s.queue| { StopReductions(Wrapper(s, s.queue[i], Rejected(STOPPING)), i + 1); }
  }

  lemma ResumeHolds(reductions: seq<Reduction>, r: nat, resolved: nat, t: nat)
    requires r < |reductions| && reductions[r].rest != []
    ensures HeldBy(reductions[r := Reduction(reductions[r].rest[1..], resolved)], t) ==> HeldBy(reductions, t)
  {
    var after := reductions[r := Reduction(reductions[r].rest[1..], resolved)];
    if HeldBy(after, t) {
      var q, k :| 0 <= q < |after| && 0 <= k < |after[q].rest| && after[q].rest[k].ticket == t;
      assert reductions[q].rest[if q == r then k + 1 else k].ticket == t;
    }
  }

  lemma StartHolds(reductions: seq<Reduction>, queue: seq<Job>, t: nat)
    ensures HeldBy(reductions + [Reduction(queue, 0)], t) ==> HeldBy(reductions, t) || HasTicket(queue, t)
  {
    var after := reductions + [Reduction(queue, 0)];
    if HeldBy(after, t) {
      var q, k :| 0 <= q < |after| && 0 <= k < |after[q].rest| && after[q].rest[k].ticket == t;
      if q < |reductions| { assert reductions[q].rest[k].ticket == t; } else { assert queue[k].ticket == t; }
    }
  }

  lemma ResumeGone(c: Config, s: System, r: nat, answer: Answer, t: nat)
    requires Base(c, s) && Gone(s, t)
    ensures Gone(Next(c, s, Resume(r, answer)), t)
  {
    if r < |s.reductions| && s.reductions[r].rest != [] {
      var job, s' := s.reductions[r].rest[0], Next(c, s, Resume(r, answer));
      assert job.ticket != t;
      if answer.Value? { WrapperOut(s, job, Resolved(answer.value), t); }
      if answer.Failure? { WrapperOut(s, job, Rejected(answer.message), t); }
      SameOut(AfterAnswer(s, job, answer), s', t);
      ResumeHolds(s.reductions, r, s'.reductions[r].resolved, t);
    }
  }

  lemma SameOut(s: System, s': System, t: nat)
    requires s'.queue == s.queue && s'.pending == s.pending && s'.settled == s.settled && Out(s, t)
    ensures Out(s', t)
  {}

  lemma AppendedTicket(queue: seq<Job>, job: Job, t: nat)
    ensures HasTicket(queue + [job], t) ==> HasTicket(queue, t) || t == job.ticket
  {
    var after := queue + [job];
    if HasTicket(after, t) {
      var k :| 0 <= k < |after| && after[k].ticket == t;
      if k < |queue| { assert queue[k].ticket == t; }
    }
  }

  lemma QueueGone(c: Config, s: System, e: Event, t: nat)
    requires Base(c, s) && Gone(s, t) && (e.Call? || e.Cancel? || e.StartReduce?)
    ensures Gone(Next(c, s, e), t)
  {
    match e
    case Call(id, request) => AppendedTicket(s.queue, Job(|s.accepted|, id, request, s.clock), t);
    case Cancel(id) =>
      var i := FindIndex(s.queue, id);
      if i >= 0 { SpliceTickets(s.queue, i); }
    case StartReduce => StartHolds(s.reductions, s.queue, t);
  }

  lemma GoneStays(c: Config, s: System, e: Event, t: nat)
    requires Base(c, s) && Gone(s, t)
    ensures Gone(Next(c, s, e), t)
  {
    match e
    case Clean =>
      QueueSorted(s);
      StaleIsPrefix(c, s.clock, s.queue);
      RejectPrefixOut(c, s, |Stale(c, s.clock, s.queue)|, STALE, t);
    case Stop =>
      StopOut(c, s, 0, t);
      StopBase(c, s, 0);
      StopReductions(s, 0);
    case Resume(r, answer) => ResumeGone(c, s, r, answer, t);
    case Settle(k) => if k < |s.pending| { SettlePending(c, s, k, t); assert s.pending[k].ticket == t ==> Pending(s, t); }
    case Tick(_) => SameOut(s, Next(c, s, e), t);
    case _ => QueueGone(c, s, e, t);
  }

  lemma {:induction false} GoneForever(c: Config, s: System, events: seq<Event>, t: nat)
    requires Base(c, s) && Gone(s, t)
    ensures Gone(Exec(c, s, events), t)
  {
    if events != [] {
      var init := events[..|events| - 1];
      GoneForever(c, s, init, t);
      BaseThroughout(c, s, init);
      GoneStays(c, Exec(c, s, init), events[|events| - 1], t);
    }
  }

  /** The caller of a cancelled job waits forever, unless it was settling before, or a reduction holds the job. */
  lemma {:induction false} CancelledNeverSettles(c: Config, before: seq<Event>, after: seq<Event>, t: nat)
    requires FreshRun(c, INITIAL, before)
    requires CancelledUnsettled(Exec(c, INITIAL, before), t) && !Held(Exec(c, INITIAL, before), t)
    ensures t !in Exec(c, Exec(c, INITIAL, before), after).settled
  {
    var s := Exec(c, INITIAL, before);
    RunKeeps(c, INITIAL, before);
    assert Accounted(s, t);
    GoneForever(c, s, after, t);
  }

  lemma {:induction false} ExecCons(c: Config, s: System, e: Event, events: seq<Event>)
    ensures Exec(c, s, [e] + events) == Exec(c, Next(c, s, e), events)
  {
    var all := [e] + events;
    if events == [] {
      assert all[..0] == [] && all == [e];
    } else {
      assert all[..|all| - 1] == [e] + events[..|events| - 1];
      ExecCons(c, s, e, events[..|events| - 1]);
    }
  }

  /** If a reduction does hold it, the promise can still settle. */
  lemma {:induction false} HeldCanSettle(c: Config, s: System, r: nat, k: nat) returns (events: seq<Event>)
    requires r < |s.reductions| && k < |s.reductions[r].rest|
    ensures s.reductions[r].rest[k].ticket in Exec(c, s, events).settled
    decreases k
  {
    if k == 0 {
      var job, n := s.reductions[r].rest[0], |s.pending|;
      var s1 := Next(c, s, Resume(r, Value(Null)));
      assert s1.pending[n].ticket == job.ticket;
      events := [Resume(r, Value(Null))] + ([Settle(n)] + []);
      ExecCons(c, s, Resume(r, Value(Null)), [Settle(n)] + []);
      ExecCons(c, s1, Settle(n), []);
    } else {
      var s1 := Next(c, s, Resume(r, Undefined));
      var rest := HeldCanSettle(c, s1, r, k - 1);
      events := [Resume(r, Undefined)] + rest;
      ExecCons(c, s, Resume(r, Undefined), rest);
    }
  }
}
