/** Loops over a snapshot of the job queue: `clean`, and the `stop` that its comment describes. */
module QueueClean {
  import opened Values
  import opened JobQueue
  import opened QueueSafety
  import opened QueueStop

  function Ids(jobs: seq<Job>): set<string> { set job <- jobs :: job.id }

  /** The jobs of `queue` whose id is none of `ids`. */
  function Without(queue: seq<Job>, ids: set<string>): seq<Job> {
    if queue == [] then []
    else (if queue[0].id in ids then [] else [queue[0]]) + Without(queue[1..], ids)
  }

  lemma WithoutNone(queue: seq<Job>)
    ensures Without(queue, {}) == queue
  {}

  lemma {:induction false} WithoutIn(queue: seq<Job>, ids: set<string>)
    ensures forall job <- Without(queue, ids) :: job in queue
    ensures DistinctIds(queue) ==> DistinctIds(Without(queue, ids))
  {
    if queue != [] {
      WithoutIn(queue[1..], ids);
      var rest := Without(queue[1..], ids);
      forall job | job in rest ensures job in queue { assert job in queue[1..]; }
      if DistinctIds(queue) {
        forall j | 0 <= j < |rest| ensures rest[j].id != queue[0].id { assert rest[j] in queue[1..]; }
      }
    }
  }

  lemma {:induction false} WithoutBoth(queue: seq<Job>, a: set<string>, b: set<string>)
    ensures Without(Without(queue, a), b) == Without(queue, a + b)
  {
    if queue != [] {
      WithoutBoth(queue[1..], a, b);
      var rest := Without(queue[1..], a);
      if queue[0].id in a {
        assert Without(queue, a) == rest;
      } else {
        assert Without(queue, a) == [queue[0]] + rest;
        assert Without(queue, a)[1..] == rest;
      }
    }
  }

  lemma {:induction false} RemoveIsWithout(queue: seq<Job>, id: string)
    requires DistinctIds(queue)
    ensures Remove(queue, id) == Without(queue, {id})
  {
    if queue != [] {
      RemoveIsWithout(queue[1..], id);
      RemoveCons(queue, id);
    }
  }

  lemma RemoveCons(queue: seq<Job>, id: string)
    requires queue != [] && DistinctIds(queue)
    ensures Remove(queue, id) == (if queue[0].id == id then [] else [queue[0]]) + Remove(queue[1..], id)
  {
    var rest := queue[1..];
    var i := FindIndex(rest, id);
    assert queue == [queue[0]] + rest;
    if i >= 0 { assert rest[i] == queue[i + 1]; }
    if queue[0].id == id {
      assert i < 0;
      assert Splice(queue, 0) == rest;
    } else if i >= 0 {
      assert Splice(queue, i + 1) == [queue[0]] + Splice(rest, i);
    }
  }

  /** Rejecting each job of a list takes exactly their ids off the queue. */
  lemma {:induction false} RejectEachLaw(s: System, jobs: seq<Job>, message: string)
    requires DistinctIds(s.queue)
    ensures RejectEach(s, jobs, message) ==
      s.(queue := Without(s.queue, Ids(jobs)), pending := s.pending + Rejections(jobs, message))
    decreases |jobs|
  {
    if jobs == [] {
      WithoutNone(s.queue);
      assert Ids(jobs) == {};
      assert s.pending + [] == s.pending;
    } else {
      var id := jobs[0].id;
      RemoveIsWithout(s.queue, id);
      WithoutIn(s.queue, {id});
      RejectEachLaw(Wrapper(s, jobs[0], Rejected(message)), jobs[1..], message);
      WithoutBoth(s.queue, {id}, Ids(jobs[1..]));
      IdsCons(jobs);
      PendingCons(s.pending, jobs, message);
    }
  }

  lemma IdsCons(jobs: seq<Job>)
    requires jobs != []
    ensures Ids(jobs) == {jobs[0].id} + Ids(jobs[1..])
  {
    assert jobs == [jobs[0]] + jobs[1..];
  }

  lemma PendingCons(pending: seq<Settlement>, jobs: seq<Job>, message: string)
    requires jobs != []
    ensures pending + [Settlement(jobs[0].ticket, Rejected(message))] + Rejections(jobs[1..], message)
         == pending + Rejections(jobs, message)
  {}

  lemma {:induction false} StaleExactly(c: Config, now: nat, queue: seq<Job>)
    ensures forall job :: job in Stale(c, now, queue) <==> job in queue && IsStale(c, now, job)
  {
    if queue != [] {
      StaleExactly(c, now, queue[1..]);
      assert queue == [queue[0]] + queue[1..];
    }
  }

  lemma {:induction false} WithoutStale(c: Config, now: nat, queue: seq<Job>, ids: set<string>)
    requires forall job <- queue :: job.id in ids <==> IsStale(c, now, job)
    ensures Without(queue, ids) == NotStale(c, now, queue)
  {
    if queue != [] { WithoutStale(c, now, queue[1..], ids); }
  }

  /** Cleaning is filtering: the stale jobs, and only they, are rejected and leave the queue. */
  lemma CleanIsFilter(c: Config, s: System)
    requires DistinctIds(s.queue)
    ensures Next(c, s, Clean) == s.(
      queue := NotStale(c, s.clock, s.queue),
      pending := s.pending + Rejections(Stale(c, s.clock, s.queue), STALE))
  {
    var stale := Stale(c, s.clock, s.queue);
    RejectEachLaw(s, stale, STALE);
    StaleExactly(c, s.clock, s.queue);
    forall job <- s.queue ensures job.id in Ids(stale) <==> IsStale(c, s.clock, job) {
      if job.id in Ids(stale) {
        var other :| other in stale && other.id == job.id;
        assert other == job;
      }
    }
    WithoutStale(c, s.clock, s.queue, Ids(stale));
  }

  lemma {:induction false} NoneStale(c: Config, now: nat, queue: seq<Job>)
    requires forall job <- queue :: !IsStale(c, now, job)
    ensures Stale(c, now, queue) == [] && NotStale(c, now, queue) == queue
  {
    if queue != [] { NoneStale(c, now, queue[1..]); }
  }

  /** On a queue sorted by date the stale jobs are a prefix, the others the remaining suffix. */
  lemma {:induction false} StaleIsPrefix(c: Config, now: nat, queue: seq<Job>)
    requires forall i, j :: 0 <= i < j < |queue| ==> queue[i].date <= queue[j].date
    ensures |Stale(c, now, queue)| <= |queue|
    ensures Stale(c, now, queue) == queue[..|Stale(c, now, queue)|]
    ensures NotStale(c, now, queue) == queue[|Stale(c, now, queue)|..]
    ensures forall k :: 0 <= k < |queue| ==> (IsStale(c, now, queue[k]) <==> k < |Stale(c, now, queue)|)
  {
    if queue != [] {
      if IsStale(c, now, queue[0]) {
        StaleIsPrefix(c, now, queue[1..]);
        var n := |Stale(c, now, queue[1..])|;
        assert queue[..n + 1] == [queue[0]] + queue[1..][..n];
        forall k | 0 < k < |queue| ensures IsStale(c, now, queue[k]) <==> k < n + 1 {
          assert queue[k] == queue[1..][k - 1];
        }
      } else {
        forall k | 0 <= k < |queue| ensures !IsStale(c, now, queue[k]) {}
        NoneStale(c, now, queue);
      }
    }
  }

  lemma QueueSorted(s: System)
    requires History(s) && InOrder(s)
    ensures forall i, j :: 0 <= i < j < |s.queue| ==> s.queue[i].date <= s.queue[j].date
  {
    forall i, j | 0 <= i < j < |s.queue| ensures s.queue[i].date <= s.queue[j].date {
      assert AcceptedJob(s, s.queue[i]) && AcceptedJob(s, s.queue[j]);
    }
  }

  lemma CleanCutsPrefix(c: Config, s: System)
    requires History(s) && InOrder(s) && Distinguished(s)
    ensures var n := |Stale(c, s.clock, s.queue)|;
      (&& n <= |s.queue|
       && Next(c, s, Clean) == s.(queue := s.queue[n..], pending := s.pending + Rejections(s.queue[..n], STALE)))
  {
    QueueIdsDistinct(s);
    QueueSorted(s);
    CleanIsFilter(c, s);
    StaleIsPrefix(c, s.clock, s.queue);
  }

  lemma CleanTwice(c: Config, s: System)
    requires DistinctIds(s.queue) && Next(c, s, Clean).queue == NotStale(c, s.clock, s.queue)
    requires Next(c, s, Clean).clock == s.clock
    ensures Next(c, Next(c, s, Clean), Clean) == Next(c, s, Clean)
  {
    NotStaleExactly(c, s.clock, s.queue);
    NoneStale(c, s.clock, NotStale(c, s.clock, s.queue));
  }

  lemma {:induction false} NotStaleExactly(c: Config, now: nat, queue: seq<Job>)
    ensures forall job <- NotStale(c, now, queue) :: !IsStale(c, now, job)
  {
    if queue != [] { NotStaleExactly(c, now, queue[1..]); }
  }

  /** In every reachable state cleaning removes a prefix of the queue, and doing it again changes nothing. */
  lemma CleanRemovesPrefix(c: Config, events: seq<Event>)
    requires FreshRun(c, INITIAL, events)
    ensures var s := Exec(c, INITIAL, events); var s' := Next(c, s, Clean); var n := |s.queue| - |s'.queue|;
      (&& 0 <= n
       && s'.queue == s.queue[n..]
       && s'.pending == s.pending + Rejections(s.queue[..n], STALE)
       && (forall k :: 0 <= k < |s.queue| ==>
             ((s.clock - s.queue[k].date) as real >= 1000.0 * c.queueStale <==> k < n))
       && Next(c, s', Clean) == s')
  {
    RunKeeps(c, INITIAL, events);
    var s := Exec(c, INITIAL, events);
    CleanCutsPrefix(c, s);
    QueueIdsDistinct(s);
    CleanIsFilter(c, s);
    CleanTwice(c, s);
    QueueSorted(s);
    StaleIsPrefix(c, s.clock, s.queue);
    forall k | 0 <= k < |s.queue|
      ensures (s.clock - s.queue[k].date) as real >= 1000.0 * c.queueStale <==> k < |Stale(c, s.clock, s.queue)|
    {
      assert IsStale(c, s.clock, s.queue[k]) <==> k < |Stale(c, s.clock, s.queue)|;
    }
  }

  lemma {:induction false} WithoutAll(queue: seq<Job>, ids: set<string>)
    requires Ids(queue) <= ids
    ensures Without(queue, ids) == []
  {
    if queue != [] {
      IdsCons(queue);
      WithoutAll(queue[1..], ids);
    }
  }

  /**
   * `stop` is documented to reject every outstanding job, which a loop over a snapshot would do.
   * The loop over the live queue does the same if and only if at most one job is queued.
   */
  lemma StopMeetsItsComment(c: Config, s: System)
    requires DistinctIds(s.queue)
    ensures RejectEach(s, s.queue, STOPPING) == s.(queue := [], pending := s.pending + Rejections(s.queue, STOPPING))
    ensures Next(c, s, Stop) == RejectEach(s, s.queue, STOPPING) <==> |s.queue| <= 1
  {
    RejectEachLaw(s, s.queue, STOPPING);
    WithoutAll(s.queue, Ids(s.queue));
    StopHalves(c, s);
    if |s.queue| == 1 {
      assert StopFrom(s, 0) == Wrapper(s, s.queue[0], Rejected(STOPPING));
      assert Rejections(s.queue, STOPPING) == [Settlement(s.queue[0].ticket, Rejected(STOPPING))];
    }
    if |s.queue| == 0 { assert s.pending + [] == s.pending; }
  }
}
