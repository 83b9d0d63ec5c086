/** `reduce` of the job queue, run once and undisturbed, filters its snapshot. */
module QueueReduce {
  import opened Values
  import opened JobQueue
  import opened QueueSafety

  /** The answers that the events of one reduction bring, in order. */
  function Answers(events: seq<Event>): seq<Answer> {
    if events == [] then []
    else
      var e := events[|events| - 1];
      Answers(events[..|events| - 1]) + if e.Resume? then [e.answer] else []
  }

  predicate Keeps(answer: Answer) { answer.Undefined? || answer.Incapable? }

  /** The jobs whose dispatch gave no value, or a capability error. */
  function Kept(jobs: seq<Job>, answers: seq<Answer>): seq<Job>
    requires |jobs| == |answers|
  {
    if jobs == [] then []
    else
      var n := |jobs| - 1;
      Kept(jobs[..n], answers[..n]) + if Keeps(answers[n]) then [jobs[n]] else []
  }

  function DefinedResults(answers: seq<Answer>): nat {
    if answers == [] then 0
    else DefinedResults(answers[..|answers| - 1]) + if answers[|answers| - 1].Value? then 1 else 0
  }

  function Failures(answers: seq<Answer>): nat {
    if answers == [] then 0
    else Failures(answers[..|answers| - 1]) + if answers[|answers| - 1].Failure? then 1 else 0
  }

  /** The promise is settled with `outcome`, or that is all it is ever offered. */
  predicate Heading(pending: seq<Settlement>, settled: map<nat, Outcome>, t: nat, outcome: Outcome) {
    && (t in settled ==> settled[t] == outcome)
    && (t in settled || Settlement(t, outcome) in pending)
    && forall p <- pending :: p.ticket == t ==> p.outcome == outcome
  }

  predicate Answered(s: System, job: Job, answer: Answer) {
    match answer
    case Value(v) => Heading(s.pending, s.settled, job.ticket, Resolved(v))
    case Failure(message) => Heading(s.pending, s.settled, job.ticket, Rejected(message))
    case _ => true
  }

  predicate AllAnswered(s: System, jobs: seq<Job>, answers: seq<Answer>)
    requires |answers| <= |jobs|
  {
    forall k :: 0 <= k < |answers| ==> Answered(s, jobs[k], answers[k])
  }

  /** Arrivals, the passing of time and settlements: what may happen while `reduce` awaits. */
  predicate Undisturbed(e: Event, r: nat) {
    e.Call? || e.Tick? || e.Settle? || (e.Resume? && e.reduction == r)
  }

  /** Where a reduction stands that was started in `s0` and has had these answers. */
  predicate ReductionAt(s0: System, s: System, answers: seq<Answer>) {
    var n, r := |answers|, |s0.reductions|;
    && n <= |s0.queue|
    && |s0.accepted| <= |s.accepted|
    && s.accepted[..|s0.accepted|] == s0.accepted
    && r < |s.reductions|
    && s.reductions[r] == Reduction(s0.queue[n..], DefinedResults(answers))
    && s.queue == Kept(s0.queue[..n], answers) + s0.queue[n..] + s.accepted[|s0.accepted|..]
  }

  // ---------------------------------------------------------------- one answer

  /** The job being dispatched stands right behind the kept ones, so its wrapper cuts it out there. */
  lemma CutsItsJob(s: System, job: Job, kept: seq<Job>, tail: seq<Job>)
    requires Distinguished(s) && InOrder(s) && s.queue == kept + [job] + tail
    ensures AcceptedJob(s, job) && HasTicket(s.queue, job.ticket)
    ensures Remove(s.queue, job.id) == kept + tail
  {
    assert s.queue[|kept|] == job && Unambiguous(s.queue, s.queue[|kept|]);
    OnlyThere(s.queue, FindIndex(s.queue, job.id), |kept|);
    SpliceMiddle(kept, job, tail);
  }

  lemma SpliceMiddle(kept: seq<Job>, job: Job, tail: seq<Job>)
    ensures Splice(kept + [job] + tail, |kept|) == kept + tail
  {
    var queue := kept + [job] + tail;
    assert queue[..|kept|] == kept && queue[|kept| + 1..] == tail;
  }

  lemma QueueAfterAnswer(s: System, job: Job, answer: Answer, kept: seq<Job>, tail: seq<Job>)
    requires Distinguished(s) && InOrder(s) && s.queue == kept + [job] + tail
    ensures AfterAnswer(s, job, answer).queue == kept + (if Keeps(answer) then [job] else []) + tail
  {
    CutsItsJob(s, job, kept, tail);
    assert kept + [] + tail == kept + tail;
  }

  lemma KeptSnoc(jobs: seq<Job>, answers: seq<Answer>, answer: Answer)
    requires |answers| < |jobs|
    ensures Kept(jobs[..|answers| + 1], answers + [answer]) ==
      Kept(jobs[..|answers|], answers) + (if Keeps(answer) then [jobs[|answers|]] else [])
    ensures DefinedResults(answers + [answer]) == DefinedResults(answers) + (if answer.Value? then 1 else 0)
  {
    var n := |answers|;
    assert jobs[..n + 1][..n] == jobs[..n];
    assert (answers + [answer])[..n] == answers;
  }

  lemma AnswerLeaves(s: System, job: Job, answer: Answer)
    ensures AfterAnswer(s, job, answer).accepted == s.accepted
    ensures AfterAnswer(s, job, answer).reductions == s.reductions
  {}

  lemma ResumeQueue(s0: System, s: System, answers: seq<Answer>, answer: Answer)
    requires Distinguished(s) && InOrder(s) && ReductionAt(s0, s, answers) && |answers| < |s0.queue|
    ensures AfterAnswer(s, s0.queue[|answers|], answer).queue ==
      Kept(s0.queue[..|answers| + 1], answers + [answer]) + s0.queue[|answers| + 1..] + s.accepted[|s0.accepted|..]
  {
    var n, job := |answers|, s0.queue[|answers|];
    var kept, others := Kept(s0.queue[..n], answers), s0.queue[n + 1..];
    var arrivals := s.accepted[|s0.accepted|..];
    assert s0.queue[n..] == [job] + others;
    JobsAssociate(kept, [job], others);
    JobsAssociate(kept + [job], others, arrivals);
    QueueAfterAnswer(s, job, answer, kept, others + arrivals);
    KeptSnoc(s0.queue, answers, answer);
    JobsAssociate(Kept(s0.queue[..n + 1], answers + [answer]), others, arrivals);
  }

  lemma ResumeAdvances(c: Config, s0: System, s: System, answers: seq<Answer>, answer: Answer)
    requires Distinguished(s) && InOrder(s) && ReductionAt(s0, s, answers) && |answers| < |s0.queue|
    ensures ReductionAt(s0, Next(c, s, Resume(|s0.reductions|, answer)), answers + [answer])
  {
    var n := |answers|;
    ResumeQueue(s0, s, answers, answer);
    AnswerLeaves(s, s0.queue[n], answer);
    KeptSnoc(s0.queue, answers, answer);
    var rest := s.reductions[|s0.reductions|].rest;
    assert rest[0] == s0.queue[n] && rest[1..] == s0.queue[n + 1..];
  }

  lemma CallAppends(c: Config, s0: System, s: System, answers: seq<Answer>, id: string, request: Request)
    requires ReductionAt(s0, s, answers)
    ensures ReductionAt(s0, Next(c, s, Call(id, request)), answers)
  {
    var s' := Next(c, s, Call(id, request));
    if |s.queue| < c.queueLength {
      var job := s'.accepted[|s.accepted|];
      assert s'.accepted[|s0.accepted|..] == s.accepted[|s0.accepted|..] + [job];
      assert s'.accepted[..|s0.accepted|] == s.accepted[..|s0.accepted|];
    }
  }

  // ---------------------------------------------------------------- promises

  lemma WrapperHeads(c: Config, s: System, job: Job, outcome: Outcome)
    requires Inv(c, s) && AcceptedJob(s, job) && Queued(s, job.ticket)
    ensures var s' := Wrapper(s, job, outcome); Heading(s'.pending, s'.settled, job.ticket, outcome)
  {
    assert Accounted(s, job.ticket);
    var s' := Wrapper(s, job, outcome);
    assert s'.pending[|s.pending|] == Settlement(job.ticket, outcome);
    forall p <- s'.pending | p.ticket == job.ticket ensures p.outcome == outcome {
      var k :| 0 <= k < |s'.pending| && s'.pending[k] == p;
      if k < |s.pending| { assert Pending(s, job.ticket); }
    }
  }

  lemma OthersKeepHeading(s: System, job: Job, other: Outcome, t: nat, outcome: Outcome)
    requires t != job.ticket && Heading(s.pending, s.settled, t, outcome)
    ensures var s' := Wrapper(s, job, other); Heading(s'.pending, s'.settled, t, outcome)
  {}

  lemma AnsweredAfter(s: System, job: Job, answer: Answer, other: Job, a: Answer)
    requires other.ticket != job.ticket && Answered(s, other, a)
    ensures Answered(AfterAnswer(s, job, answer), other, a)
  {
    match a {
      case Value(v) =>
        if answer.Value? { OthersKeepHeading(s, job, Resolved(answer.value), other.ticket, Resolved(v)); }
        if answer.Failure? { OthersKeepHeading(s, job, Rejected(answer.message), other.ticket, Resolved(v)); }
      case Failure(m) =>
        if answer.Value? { OthersKeepHeading(s, job, Resolved(answer.value), other.ticket, Rejected(m)); }
        if answer.Failure? { OthersKeepHeading(s, job, Rejected(answer.message), other.ticket, Rejected(m)); }
      case _ =>
    }
  }

  lemma OwnAnswer(c: Config, s: System, job: Job, answer: Answer)
    requires Inv(c, s) && AcceptedJob(s, job) && Queued(s, job.ticket)
    ensures Answered(AfterAnswer(s, job, answer), job, answer)
  {
    if answer.Value? { WrapperHeads(c, s, job, Resolved(answer.value)); }
    if answer.Failure? { WrapperHeads(c, s, job, Rejected(answer.message)); }
  }

  /** The job being dispatched is still queued. */
  lemma CurrentIsQueued(s0: System, s: System, answers: seq<Answer>)
    requires Distinguished(s) && InOrder(s) && ReductionAt(s0, s, answers) && |answers| < |s0.queue|
    ensures var job := s0.queue[|answers|]; AcceptedJob(s, job) && Queued(s, job.ticket)
  {
    var n, job := |answers|, s0.queue[|answers|];
    assert s0.queue[n..] == [job] + s0.queue[n + 1..];
    var kept := Kept(s0.queue[..n], answers);
    CutsItsJob(s, job, kept, s0.queue[n + 1..] + s.accepted[|s0.accepted|..]);
  }

  lemma EarlierStayAnswered(s: System, jobs: seq<Job>, answers: seq<Answer>, answer: Answer)
    requires Increasing(jobs) && |answers| < |jobs| && AllAnswered(s, jobs, answers)
    ensures AllAnswered(AfterAnswer(s, jobs[|answers|], answer), jobs, answers)
  {
    var s' := AfterAnswer(s, jobs[|answers|], answer);
    forall k | 0 <= k < |answers| ensures Answered(s', jobs[k], answers[k]) {
      assert Answered(s, jobs[k], answers[k]);
      AnsweredAfter(s, jobs[|answers|], answer, jobs[k], answers[k]);
    }
  }

  lemma ResumeAnswers(c: Config, s0: System, s: System, answers: seq<Answer>, answer: Answer)
    requires Inv(c, s) && InOrder(s0) && ReductionAt(s0, s, answers) && |answers| < |s0.queue|
    requires AllAnswered(s, s0.queue, answers)
    ensures AllAnswered(Next(c, s, Resume(|s0.reductions|, answer)), s0.queue, answers + [answer])
  {
    var job := s0.queue[|answers|];
    CurrentIsQueued(s0, s, answers);
    OwnAnswer(c, s, job, answer);
    EarlierStayAnswered(s, s0.queue, answers, answer);
    assert AllAnswered(AfterAnswer(s, job, answer), s0.queue, answers + [answer]);
    SamePromises(AfterAnswer(s, job, answer), Next(c, s, Resume(|s0.reductions|, answer)), s0.queue, answers + [answer]);
  }

  lemma SettleKeepsHeading(c: Config, s: System, k: nat, t: nat, outcome: Outcome)
    requires Heading(s.pending, s.settled, t, outcome)
    ensures var s' := Next(c, s, Settle(k)); Heading(s'.pending, s'.settled, t, outcome)
  {
    if k < |s.pending| {
      var p := s.pending[k];
      var rest := s.pending[..k] + s.pending[k + 1..];
      assert s.pending == s.pending[..k] + [p] + s.pending[k + 1..];
      assert forall q :: q in s.pending <==> q in rest || q == p;
    }
  }

  lemma SettleAnswers(c: Config, s: System, k: nat, jobs: seq<Job>, answers: seq<Answer>)
    requires |answers| <= |jobs| && AllAnswered(s, jobs, answers)
    ensures AllAnswered(Next(c, s, Settle(k)), jobs, answers)
  {
    forall i | 0 <= i < |answers| ensures Answered(Next(c, s, Settle(k)), jobs[i], answers[i]) {
      assert Answered(s, jobs[i], answers[i]);
      match answers[i]
      case Value(v) => SettleKeepsHeading(c, s, k, jobs[i].ticket, Resolved(v));
      case Failure(m) => SettleKeepsHeading(c, s, k, jobs[i].ticket, Rejected(m));
      case _ =>
    }
  }

  // ---------------------------------------------------------------- the whole reduction

  lemma ReductionStep(c: Config, s0: System, s: System, answers: seq<Answer>, e: Event)
    requires Inv(c, s) && InOrder(s0) && ReductionAt(s0, s, answers) && AllAnswered(s, s0.queue, answers)
    requires Undisturbed(e, |s0.reductions|) && (e.Resume? ==> |answers| < |s0.queue|)
    ensures var a := if e.Resume? then answers + [e.answer] else answers;
      ReductionAt(s0, Next(c, s, e), a) && AllAnswered(Next(c, s, e), s0.queue, a)
  {
    match e
    case Resume(r, answer) =>
      ResumeAdvances(c, s0, s, answers, answer);
      ResumeAnswers(c, s0, s, answers, answer);
    case Settle(k) => SettleAnswers(c, s, k, s0.queue, answers);
    case Call(id, request) =>
      CallAppends(c, s0, s, answers, id, request);
      SamePromises(s, Next(c, s, e), s0.queue, answers);
    case Tick(_) => SamePromises(s, Next(c, s, e), s0.queue, answers);
  }

  lemma SamePromises(s: System, s': System, jobs: seq<Job>, answers: seq<Answer>)
    requires |answers| <= |jobs| && AllAnswered(s, jobs, answers)
    requires s'.pending == s.pending && s'.settled == s.settled
    ensures AllAnswered(s', jobs, answers)
  {
    forall k | 0 <= k < |answers| ensures Answered(s', jobs[k], answers[k]) { assert Answered(s, jobs[k], answers[k]); }
  }

  lemma {:induction false} ReductionInvariant(c: Config, s0: System, events: seq<Event>)
    requires Inv(c, s0) && FreshRun(c, Next(c, s0, StartReduce), events)
    requires forall e <- events :: Undisturbed(e, |s0.reductions|)
    requires |Answers(events)| <= |s0.queue|
    ensures ReductionAt(s0, Exec(c, Next(c, s0, StartReduce), events), Answers(events))
    ensures AllAnswered(Exec(c, Next(c, s0, StartReduce), events), s0.queue, Answers(events))
    decreases |events|
  {
    var s1 := Next(c, s0, StartReduce);
    if events == [] {
      assert s0.queue == [] + s0.queue + s1.accepted[|s0.accepted|..];
    } else {
      var init, e := events[..|events| - 1], events[|events| - 1];
      assert e in events;
      var a := Answers(init);
      assert a + [] == a;
      ReductionInvariant(c, s0, init);
      StepKeeps(c, s0, StartReduce);
      RunKeeps(c, s1, init);
      ReductionStep(c, s0, Exec(c, s1, init), a, e);
    }
  }

  lemma {:induction false} KeptCount(jobs: seq<Job>, answers: seq<Answer>)
    requires |jobs| == |answers|
    ensures |Kept(jobs, answers)| + DefinedResults(answers) + Failures(answers) == |jobs|
  {
    if jobs != [] { KeptCount(jobs[..|jobs| - 1], answers[..|jobs| - 1]); }
  }

  /**
   * One undisturbed reduction, from any reachable state and with any arrivals while it awaits,
   * filters its snapshot: what is left are the jobs that got no value or a capability error, in
   * order, and then the arrivals. Each other promise gets its own answer. The number returned is
   * that of the defined results, which is the amount by which the snapshot shrank (as documented)
   * if and only if no dispatch failed.
   */
  lemma ReduceRefinesFilter(c: Config, before: seq<Event>, during: seq<Event>)
    requires FreshRun(c, INITIAL, before)
    requires var s0 := Exec(c, INITIAL, before);
      (&& FreshRun(c, Next(c, s0, StartReduce), during)
       && (forall e <- during :: Undisturbed(e, |s0.reductions|))
       && |Answers(during)| == |s0.queue|)
    ensures var s0 := Exec(c, INITIAL, before); var s := Exec(c, Next(c, s0, StartReduce), during);
      var a, r := Answers(during), |s0.reductions|;
      (&& r < |s.reductions| && |s0.accepted| <= |s.accepted|
       && s.queue == Kept(s0.queue, a) + s.accepted[|s0.accepted|..]
       && AllAnswered(s, s0.queue, a)
       && s.reductions[r] == Reduction([], DefinedResults(a))
       && |s0.queue| - |Kept(s0.queue, a)| == DefinedResults(a) + Failures(a)
       && (s.reductions[r].resolved == |s0.queue| - |Kept(s0.queue, a)| <==> Failures(a) == 0))
  {
    var s0 := Exec(c, INITIAL, before);
    RunKeeps(c, INITIAL, before);
    ReductionInvariant(c, s0, during);
    ReductionOver(s0, Exec(c, Next(c, s0, StartReduce), during), Answers(during));
  }

  lemma ReductionOver(s0: System, s: System, a: seq<Answer>)
    requires ReductionAt(s0, s, a) && |a| == |s0.queue|
    ensures s.queue == Kept(s0.queue, a) + s.accepted[|s0.accepted|..]
    ensures s.reductions[|s0.reductions|] == Reduction([], DefinedResults(a))
    ensures |s0.queue| - |Kept(s0.queue, a)| == DefinedResults(a) + Failures(a)
  {
    KeptCount(s0.queue, a);
    assert s0.queue[..|a|] == s0.queue && s0.queue[|a|..] == [];
    var kept := Kept(s0.queue, a);
    assert kept + [] == kept;
  }

  // ---------------------------------------------------------------- a promise settles once

  lemma RejectEachSettlesNone(s: System, jobs: seq<Job>, message: string)
    ensures RejectEach(s, jobs, message).settled == s.settled
    decreases |jobs|
  {
    if jobs != [] { RejectEachSettlesNone(Wrapper(s, jobs[0], Rejected(message)), jobs[1..], message); }
  }

  lemma StopSettlesNone(s: System, i: nat)
    ensures StopFrom(s, i).settled == s.settled
    decreases |s.queue| - i
  {
    if i < |s.queue| { StopSettlesNone(Wrapper(s, s.queue[i], Rejected(STOPPING)), i + 1); }
  }

  /** A settled promise keeps its outcome, whatever happens afterwards and whatever the ids. */
  lemma {:induction false} SettledForever(c: Config, s: System, events: seq<Event>, t: nat)
    requires t in s.settled
    ensures t in Exec(c, s, events).settled && Exec(c, s, events).settled[t] == s.settled[t]
  {
    if events != [] {
      var m := Exec(c, s, events[..|events| - 1]);
      SettledForever(c, s, events[..|events| - 1], t);
      match events[|events| - 1]
      case Clean => RejectEachSettlesNone(m, Stale(c, m.clock, m.queue), STALE);
      case Stop => StopSettlesNone(m, 0);
      case _ =>
    }
  }

  // ---------------------------------------------------------------- distinct ids are needed

  lemma ExecSnoc(c: Config, s: System, events: seq<Event>, e: Event)
    ensures Exec(c, s, events + [e]) == Next(c, Exec(c, s, events), e)
  {
    assert (events + [e])[..|events|] == events;
  }

  const TWO: Config := Config(2, 60.0)

  /** Two jobs with one id, of which the first was given back by the executor of a reduction. */
  lemma TwoOfOneId(request: Request)
    ensures var j0, j1 := Job(0, "a", request, 0), Job(1, "a", request, 0);
      Exec(TWO, INITIAL, [Call("a", request), Call("a", request), StartReduce, Resume(0, Incapable)]) ==
        System([j0, j1], [j0, j1], {}, [], map[], [Reduction([j1], 0)], 0)
  {
    var call := Call("a", request);
    var e1 := [] + [call];
    var e2 := e1 + [call];
    var e3 := e2 + [StartReduce];
    ExecSnoc(TWO, INITIAL, [], call);
    ExecSnoc(TWO, INITIAL, e1, call);
    ExecSnoc(TWO, INITIAL, e2, StartReduce);
    ExecSnoc(TWO, INITIAL, e3, Resume(0, Incapable));
    assert e3 + [Resume(0, Incapable)] == [call, call, StartReduce, Resume(0, Incapable)];
    var j0, j1 := Job(0, "a", request, 0), Job(1, "a", request, 0);
    assert Exec(TWO, INITIAL, e1) == INITIAL.(queue := [j0], accepted := [j0]);
    assert Exec(TWO, INITIAL, e2) == INITIAL.(queue := [j0, j1], accepted := [j0, j1]);
    assert [j0, j1][1..] == [j1];
  }

  /**
   * Then the second one's success takes the first one off the queue, whose promise is neither
   * queued, nor settling, nor settled, nor cancelled.
   */
  lemma DuplicateIdLosesAJob(request: Request, v: Json)
    ensures var s := Exec(TWO, INITIAL, [Call("a", request), Call("a", request), StartReduce,
                                         Resume(0, Incapable), Resume(0, Value(v))]);
      (&& |s.accepted| == 2
       && !Queued(s, 0) && !Pending(s, 0) && 0 !in s.settled && 0 !in s.cancelled
       && Queued(s, 1) && Settling(s, 1))
  {
    var e4 := [Call("a", request), Call("a", request), StartReduce, Resume(0, Incapable)];
    TwoOfOneId(request);
    ExecSnoc(TWO, INITIAL, e4, Resume(0, Value(v)));
    assert e4 + [Resume(0, Value(v))] ==
      [Call("a", request), Call("a", request), StartReduce, Resume(0, Incapable), Resume(0, Value(v))];
    var s4 := Exec(TWO, INITIAL, e4);
    assert FindIndex(s4.queue, "a") == 0;
    var s5 := Next(TWO, s4, Resume(0, Value(v)));
    assert s5.queue == [s4.queue[1]] && s5.pending == [Settlement(1, Resolved(v))];
    assert s5.queue[0].ticket == 1 && s5.pending[0].ticket == 1;
  }
}
