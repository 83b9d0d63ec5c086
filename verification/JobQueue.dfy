/**
 * The job queue of src/base/Queuer.ts.
 *
 * JavaScript runs everything between two `await`s as one atomic step, so the queue is
 * modelled as a transition system: `Next` is one such step, `Exec` is a run. The class
 * `Queuer`, in QueuerClass.dfy, carries out the same steps in place.
 */
module JobQueue {
  import opened Values

  datatype Config = Config(queueLength: nat, queueStale: real)

  datatype Request = Request(methodName: string, params: Params)

  /** A queued job. Its ticket identifies its promise: `call` hands out 0, 1, 2, ... */
  datatype Job = Job(ticket: nat, id: string, request: Request, date: nat)

  /** How the promise of a call settles. */
  datatype Outcome = Resolved(value: Json) | Rejected(message: string)

  /** The suspended second half of a wrapper: the promise will be offered `outcome`. */
  datatype Settlement = Settlement(ticket: nat, outcome: Outcome)

  /** What awaiting `executor.dispatch` gives for a job. */
  datatype Answer = Value(value: Json) | Undefined | Incapable | Failure(message: string)

  /** A call of `reduce`: `rest[0]` is being dispatched, and the call is over when `rest` is empty. */
  datatype Reduction = Reduction(rest: seq<Job>, resolved: nat)

  datatype System = System(
    queue: seq<Job>,
    accepted: seq<Job>,            // history: every job ever put on the queue, in order
    cancelled: set<nat>,           // history: the tickets that `cancel` took off the queue
    pending: seq<Settlement>,      // wrappers suspended at their `await`
    settled: map<nat, Outcome>,    // settled promises
    reductions: seq<Reduction>,    // every call of `reduce` so far
    clock: nat)                    // milliseconds

  datatype Event =
    | Call(id: string, request: Request)
    | Cancel(id: string)
    | Tick(elapsed: nat)
    | Clean
    | Stop
    | StartReduce
    | Resume(reduction: nat, answer: Answer)
    | Settle(which: nat)

  const STALE: string := "Job has become stale"
  const STOPPING: string := "Executor is stopping"

  const INITIAL: System := System([], [], {}, [], map[], [], 0)

  // ---------------------------------------------------------------- the steps

  /** The position of the first job with this id, or -1. */
  function FindIndex(queue: seq<Job>, id: string): (i: int)
    ensures -1 <= i < |queue|
    ensures i >= 0 ==> queue[i].id == id && forall j :: 0 <= j < i ==> queue[j].id != id
    ensures i < 0 ==> forall j :: 0 <= j < |queue| ==> queue[j].id != id
  {
    if queue == [] then -1
    else if queue[0].id == id then 0
    else
      var i := FindIndex(queue[1..], id);
      if i < 0 then -1 else i + 1
  }

  function Splice(queue: seq<Job>, i: nat): seq<Job>
    requires i < |queue|
  {
    queue[..i] + queue[i + 1..]
  }

  function Remove(queue: seq<Job>, id: string): seq<Job> {
    var i := FindIndex(queue, id);
    if i >= 0 then Splice(queue, i) else queue
  }

  /** Calling a job's `resolve` or `reject`: the queue is cut at once, the promise is offered the outcome later. */
  function Wrapper(s: System, job: Job, outcome: Outcome): System {
    s.(queue := Remove(s.queue, job.id), pending := s.pending + [Settlement(job.ticket, outcome)])
  }

  function RejectEach(s: System, jobs: seq<Job>, message: string): System
    decreases |jobs|
  {
    if jobs == [] then s
    else RejectEach(Wrapper(s, jobs[0], Rejected(message)), jobs[1..], message)
  }

  predicate IsStale(c: Config, now: nat, job: Job) {
    (now - job.date) as real / 1000.0 >= c.queueStale
  }

  function Stale(c: Config, now: nat, jobs: seq<Job>): seq<Job> {
    if jobs == [] then []
    else (if IsStale(c, now, jobs[0]) then [jobs[0]] else []) + Stale(c, now, jobs[1..])
  }

  function NotStale(c: Config, now: nat, jobs: seq<Job>): seq<Job> {
    if jobs == [] then []
    else (if IsStale(c, now, jobs[0]) then [] else [jobs[0]]) + NotStale(c, now, jobs[1..])
  }

  /**
   * The loop of `stop`. It iterates over the live queue: the iterator holds an index into
   * an array that each `reject` shortens.
   */
  function StopFrom(s: System, i: nat): System
    decreases |s.queue| - i
  {
    if i >= |s.queue| then s
    else
      var s' := Wrapper(s, s.queue[i], Rejected(STOPPING));
      StopFrom(s', i + 1)
  }

  function AfterAnswer(s: System, job: Job, answer: Answer): System {
    match answer
    case Value(v) => Wrapper(s, job, Resolved(v))
    case Failure(message) => Wrapper(s, job, Rejected(message))
    case Undefined => s
    case Incapable => s
  }

  function Next(c: Config, s: System, e: Event): System {
    match e
    case Call(id, request) =>
      if |s.queue| >= c.queueLength then s
      else
        var job := Job(|s.accepted|, id, request, s.clock);
        s.(queue := s.queue + [job], accepted := s.accepted + [job])
    case Cancel(id) =>
      var i := FindIndex(s.queue, id);
      if i >= 0 then s.(queue := Splice(s.queue, i), cancelled := s.cancelled + {s.queue[i].ticket}) else s
    case Tick(elapsed) => s.(clock := s.clock + elapsed)
    case Clean => RejectEach(s, Stale(c, s.clock, s.queue), STALE)
    case Stop => StopFrom(s, 0)
    case StartReduce => s.(reductions := s.reductions + [Reduction(s.queue, 0)])
    case Resume(r, answer) =>
      if r >= |s.reductions| || s.reductions[r].rest == [] then s
      else
        var reduction := s.reductions[r];
        var resolved := reduction.resolved + if answer.Value? then 1 else 0;
        AfterAnswer(s, reduction.rest[0], answer)
          .(reductions := s.reductions[r := Reduction(reduction.rest[1..], resolved)])
    case Settle(k) =>
      if k >= |s.pending| then s
      else
        var Settlement(ticket, outcome) := s.pending[k];
        s.(pending := s.pending[..k] + s.pending[k + 1..],
           settled := if ticket in s.settled then s.settled else s.settled[ticket := outcome])
  }

  /** A run: every interleaving of steps is some sequence of events. */
  function Exec(c: Config, s: System, events: seq<Event>): System {
    if events == [] then s
    else Next(c, Exec(c, s, events[..|events| - 1]), events[|events| - 1])
  }
}
