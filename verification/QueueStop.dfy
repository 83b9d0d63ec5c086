/** `stop` of the job queue: a loop over the live queue that its own body shortens. */
module QueueStop {
  import opened Values
  import opened JobQueue
  import opened QueueSafety
  import opened Arithmetic

  predicate DistinctIds(queue: seq<Job>) {
    forall i, j :: 0 <= i < j < |queue| ==> queue[i].id != queue[j].id
  }

  lemma QueueIdsDistinct(s: System)
    requires InOrder(s) && Distinguished(s)
    ensures DistinctIds(s.queue)
  {
    forall i, j | 0 <= i < j < |s.queue| ensures s.queue[i].id != s.queue[j].id {
      assert Unambiguous(s.queue, s.queue[i]);
    }
  }

  function Rejections(jobs: seq<Job>, message: string): seq<Settlement> {
    if jobs == [] then [] else [Settlement(jobs[0].ticket, Rejected(message))] + Rejections(jobs[1..], message)
  }

  function Evens(jobs: seq<Job>): (r: seq<Job>)
    ensures |r| == (|jobs| + 1) / 2
  {
    if |jobs| < 2 then jobs else [jobs[0]] + Evens(jobs[2..])
  }

  function Odds(jobs: seq<Job>): (r: seq<Job>)
    ensures |r| == |jobs| / 2
  {
    if |jobs| < 2 then [] else [jobs[1]] + Odds(jobs[2..])
  }

  lemma {:induction false} OddsAt(jobs: seq<Job>, k: nat)
    requires k < |Odds(jobs)|
    ensures Odds(jobs)[k] == jobs[2 * k + 1]
  {
    if k > 0 { OddsAt(jobs[2..], k - 1); }
  }

  lemma {:induction false} EvensAt(jobs: seq<Job>, k: nat)
    requires k < |Evens(jobs)|
    ensures Evens(jobs)[k] == jobs[2 * k]
  {
    if k > 0 { EvensAt(jobs[2..], k - 1); }
  }

  lemma {:induction false} RejectionsAt(jobs: seq<Job>, message: string)
    ensures |Rejections(jobs, message)| == |jobs|
    ensures forall k :: 0 <= k < |jobs| ==>
      Rejections(jobs, message)[k] == Settlement(jobs[k].ticket, Rejected(message))
  {
    if jobs != [] { RejectionsAt(jobs[1..], message); }
  }

  lemma SpliceDistinct(queue: seq<Job>, i: nat)
    requires DistinctIds(queue) && i < |queue|
    ensures DistinctIds(Splice(queue, i)) && FindIndex(queue, queue[i].id) == i
  {
    var q := Splice(queue, i);
    forall j, k | 0 <= j < k < |q| ensures q[j].id != q[k].id {
      SpliceAt(queue, i, j);
      SpliceAt(queue, i, k);
    }
    FoundAt(queue, i);
  }

  lemma FoundAt(queue: seq<Job>, i: nat)
    requires DistinctIds(queue) && i < |queue|
    ensures FindIndex(queue, queue[i].id) == i
  {
    var f := FindIndex(queue, queue[i].id);
    assert f == i;
  }

  lemma Halve(q: seq<Job>, i: nat)
    requires i + 1 < |q|
    ensures Odds(q[i..]) == [q[i + 1]] + Odds(q[i + 2..])
    ensures Evens(q[i..]) == [q[i]] + Evens(q[i + 2..])
    ensures Splice(q, i)[..i + 1] == q[..i] + [q[i + 1]]
    ensures Splice(q, i)[i + 1..] == q[i + 2..]
  {
    assert q[i..][2..] == q[i + 2..];
  }

  /** The state after the iteration has rejected the job at index `i`. */
  function Cut(s: System, i: nat): System
    requires i < |s.queue|
  {
    s.(queue := Splice(s.queue, i),
       pending := s.pending + [Settlement(s.queue[i].ticket, Rejected(STOPPING))])
  }

  lemma PendingAssociate(a: seq<Settlement>, b: seq<Settlement>, c: seq<Settlement>)
    ensures a + b + c == a + (b + c)
  {}

  lemma {:induction false} StopQueue(s: System, i: nat)
    requires DistinctIds(s.queue) && i <= |s.queue|
    ensures StopFrom(s, i).queue == s.queue[..i] + Odds(s.queue[i..])
    decreases |s.queue| - i
  {
    var q := s.queue;
    if i == |q| {
    } else {
      SpliceDistinct(q, i);
      assert StopFrom(s, i) == StopFrom(Cut(s, i), i + 1);
      if i + 1 < |q| {
        StopQueue(Cut(s, i), i + 1);
        Halve(q, i);
        JobsAssociate(q[..i], [q[i + 1]], Odds(q[i + 2..]));
      }
    }
  }

  lemma {:induction false} StopPending(s: System, i: nat)
    requires DistinctIds(s.queue) && i <= |s.queue|
    ensures StopFrom(s, i).pending == s.pending + Rejections(Evens(s.queue[i..]), STOPPING)
    decreases |s.queue| - i
  {
    var q := s.queue;
    if i == |q| {
    } else {
      SpliceDistinct(q, i);
      assert StopFrom(s, i) == StopFrom(Cut(s, i), i + 1);
      var first := [Settlement(q[i].ticket, Rejected(STOPPING))];
      if i + 1 == |q| {
        assert q[i..] == [q[i]];
        assert Rejections([q[i]], STOPPING) == first;
      } else {
        StopPending(Cut(s, i), i + 1);
        Halve(q, i);
        var evens := Evens(q[i + 2..]);
        assert ([q[i]] + evens)[1..] == evens;
        PendingAssociate(s.pending, first, Rejections(evens, STOPPING));
      }
    }
  }

  /** One `stop` rejects exactly the even-indexed jobs and keeps the odd-indexed ones, in order. */
  lemma StopHalves(c: Config, s: System)
    requires DistinctIds(s.queue)
    ensures var n := |s.queue|; var q, p := Next(c, s, Stop).queue, Next(c, s, Stop).pending;
      (&& |q| == n / 2
       && (forall k :: 0 <= k < n / 2 ==> q[k] == s.queue[2 * k + 1])
       && |p| == |s.pending| + (n + 1) / 2
       && p[..|s.pending|] == s.pending
       && (forall k :: 0 <= k < (n + 1) / 2 ==>
            p[|s.pending| + k] == Settlement(s.queue[2 * k].ticket, Rejected("Executor is stopping"))))
  {
    StopQueue(s, 0);
    StopPending(s, 0);
    assert s.queue[0..] == s.queue && s.queue[..0] == [];
    assert Next(c, s, Stop).queue == Odds(s.queue);
    forall k | 0 <= k < |s.queue| / 2 { OddsAt(s.queue, k); }
    forall k | 0 <= k < (|s.queue| + 1) / 2 { EvensAt(s.queue, k); }
    RejectionsAt(Evens(s.queue), STOPPING);
    assert Next(c, s, Stop).pending == s.pending + Rejections(Evens(s.queue), STOPPING);
  }

  function Power2(k: nat): nat
    ensures Power2(k) > 0
  {
    if k == 0 then 1 else 2 * Power2(k - 1)
  }

  /** Stopping `k` times, with no arrivals. */
  function StopTimes(c: Config, s: System, k: nat): System
    decreases k
  {
    if k == 0 then s else StopTimes(c, Next(c, s, Stop), k - 1)
  }

  /** The surviving position `j` after the first of several stops. */
  lemma Survivor(p: nat, j: nat, n: nat)
    requires p > 0 && j < n / 2 / p
    ensures var i := (j + 1) * p - 1; 0 <= i < n / 2 && 2 * i + 1 == (j + 1) * (2 * p) - 1
  {
    var d := n / 2 / p;
    assert p * d <= n / 2;
    Scale(p, j + 1, d);
    Scale(p, 1, j + 1);
    assert (j + 1) * p == p * (j + 1);
    assert (j + 1) * (2 * p) == 2 * ((j + 1) * p);
  }

  predicate NthAt(q: seq<Job>, of: seq<Job>, p: nat, j: nat) {
    j < |q| && 0 <= (j + 1) * p - 1 < |of| && q[j] == of[(j + 1) * p - 1]
  }

  predicate EveryNth(q: seq<Job>, of: seq<Job>, p: nat)
    requires p > 0
  {
    |q| == |of| / p && forall j: nat :: j < |q| ==> NthAt(q, of, p, j)
  }

  lemma NthOfHalf(q: seq<Job>, half: seq<Job>, of: seq<Job>, p: nat, j: nat)
    requires p > 0 && j < |of| / 2 / p && NthAt(q, half, p, j) && |half| == |of| / 2
    requires forall k :: 0 <= k < |half| ==> half[k] == of[2 * k + 1]
    ensures NthAt(q, of, 2 * p, j)
  {
    Survivor(p, j, |of|);
    var i := (j + 1) * p - 1;
    assert half[i] == of[2 * i + 1];
  }

  lemma EveryNthOfHalf(q: seq<Job>, half: seq<Job>, of: seq<Job>, p: nat)
    requires p > 0 && EveryNth(q, half, p) && |half| == |of| / 2
    requires forall k :: 0 <= k < |half| ==> half[k] == of[2 * k + 1]
    ensures EveryNth(q, of, 2 * p)
  {
    DivideTwice(|of|, 2, p);
    forall j: nat | j < |q| ensures NthAt(q, of, 2 * p, j) { NthOfHalf(q, half, of, p, j); }
  }

  /** After `k` stops exactly floor(n / 2^k) jobs remain: every 2^k-th one. */
  lemma {:induction false} StopTimesLaw(c: Config, s: System, k: nat)
    requires DistinctIds(s.queue)
    ensures |StopTimes(c, s, k).queue| == |s.queue| / Power2(k)
    ensures EveryNth(StopTimes(c, s, k).queue, s.queue, Power2(k))
    decreases k
  {
    if k > 0 {
      var m := Next(c, s, Stop);
      StopHalves(c, s);
      forall i, j | 0 <= i < j < |m.queue| ensures m.queue[i].id != m.queue[j].id {
        assert m.queue[i] == s.queue[2 * i + 1] && m.queue[j] == s.queue[2 * j + 1];
      }
      StopTimesLaw(c, m, k - 1);
      EveryNthOfHalf(StopTimes(c, s, k).queue, m.queue, s.queue, Power2(k - 1));
    }
  }
}
