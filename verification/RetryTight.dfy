/** The bound 2m - 1 of the module RetryBound is reached, for every cap m >= 1. */
module RetryTight {
  import opened Prelude
  import opened JobTables
  import opened QueueMachine
  import opened RetryBound

  /** A run whose job 0 is born in step 0 with cap m and then lives one life. */
  ghost predicate Witness(qs: seq<Queue>, acts: seq<QAct>, m: int) {
    && QRun(qs, acts) && |acts| >= 1
    && BornAt(qs, acts, 0, 0, m) && OneLife(qs, acts, 0)
  }

  function Last(qs: seq<Queue>): Queue
    requires |qs| > 0
  {
    qs[|qs| - 1]
  }

  lemma Extend(qs: seq<Queue>, acts: seq<QAct>, m: int, a: QAct) returns (qs': seq<Queue>, acts': seq<QAct>)
    requires Witness(qs, acts, m)
    requires QEnabled(Last(qs), a) && AtomicReap(Last(qs), a) && NonnegativeLease(a) && !a.Replay?
    ensures Witness(qs', acts', m) && Last(qs') == QDo(Last(qs), a)
  {
    qs', acts' := qs + [QDo(Last(qs), a)], acts + [a];
  }

  /** Only job 0 exists, with this status and count; executions lo..hi-1 are still at work on it. */
  ghost predicate Pile(q: Queue, m: int, status: Status, attempts: nat, lo: nat, hi: nat) {
    && q.tables.jobs.Keys == {0} && q.tables.dead == map[]
    && q.tables.jobs[0].status == status && q.tables.jobs[0].attempts == attempts
    && q.tables.jobs[0].maxAttempts == m
    && q.tables.jobs[0].runAt <= q.clock
    && (status == Inflight ==> q.tables.jobs[0].leasedUntil == Some(q.clock + 1))
    && hi <= q.nextExec
    && (forall i :: lo <= i < hi ==>
          i in q.execs && q.execs[i].job == 0 && q.execs[i].attempts == i + 1
          && q.execs[i].maxAttempts == m && q.execs[i].phase == Working)
  }

  /** One claim whose lease runs out: the reaper requeues the job, the execution stays outstanding. */
  lemma LoseLease(qs: seq<Queue>, acts: seq<QAct>, m: int, k: nat) returns (qs': seq<Queue>, acts': seq<QAct>)
    requires Witness(qs, acts, m) && k < m && Last(qs).nextExec == k
    requires Pile(Last(qs), m, Inflight, k, 0, k)
    ensures Witness(qs', acts', m) && Pile(Last(qs'), m, Queued, k, 0, k) && Last(qs').nextExec == k
  {
    qs', acts' := Extend(qs, acts, m, Tick(2));
    var q := Last(qs');
    assert Doomed(q.tables.jobs, q.clock) == {};
    qs', acts' := Extend(qs', acts', m, ReapFirst);
    assert Last(qs').tables == q.tables;
    qs', acts' := Extend(qs', acts', m, ReapSecond);
  }

  /** m - 1 claims, each lost to an expired lease, leave m - 1 stale executions. */
  lemma {:induction false} PileUp(m: int, k: nat) returns (qs: seq<Queue>, acts: seq<QAct>)
    requires k < m
    ensures Witness(qs, acts, m) && Pile(Last(qs), m, Queued, k, 0, k) && Last(qs).nextExec == k
    decreases k
  {
    if k == 0 {
      var q := Queue(0, Tables(map[], map[]), map[], 0, [], map[], {}, None);
      var a := Enqueue(Unknown, 0, 0, m);
      qs, acts := [q, QDo(q, a)], [a];
    } else {
      qs, acts := PileUp(m, k - 1);
      qs, acts := Extend(qs, acts, m, Claim(0, 1));
      assert Pile(Last(qs), m, Inflight, k, 0, k);
      qs, acts := LoseLease(qs, acts, m, k);
    }
  }

  /** Each stale execution then buys one more claim. */
  lemma {:induction false} Drain(m: int, k: nat) returns (qs: seq<Queue>, acts: seq<QAct>)
    requires k < m
    ensures Witness(qs, acts, m) && Pile(Last(qs), m, Inflight, m + k, k, m - 1)
    decreases k
  {
    if k == 0 {
      qs, acts := PileUp(m, m - 1);
      qs, acts := Extend(qs, acts, m, Claim(0, 1));
    } else {
      qs, acts := Drain(m, k - 1);
      qs, acts := StaleRetry(qs, acts, m, k);
      qs, acts := Extend(qs, acts, m, Claim(0, 1));
    }
  }

  /** The stale execution k - 1 fails at last and requeues the job under another's lease. */
  lemma StaleRetry(qs: seq<Queue>, acts: seq<QAct>, m: int, k: nat) returns (qs': seq<Queue>, acts': seq<QAct>)
    requires 0 < k < m && Witness(qs, acts, m) && Pile(Last(qs), m, Inflight, m + k - 1, k - 1, m - 1)
    ensures Witness(qs', acts', m) && Pile(Last(qs'), m, Queued, m + k - 1, k, m - 1)
  {
    qs', acts' := Extend(qs, acts, m, Return(k - 1, false));
    assert Pile(Last(qs'), m, Inflight, m + k - 1, k, m - 1);
    qs', acts' := Extend(qs', acts', m, Retry(k - 1, Last(qs').clock));
  }

  /** For every cap there is a one-life run in which the job is claimed 2m - 1 times. */
  lemma BoundIsReached(m: int) returns (qs: seq<Queue>, acts: seq<QAct>)
    requires m >= 1
    ensures Witness(qs, acts, m)
    ensures 0 in Last(qs).tables.jobs && Last(qs).tables.jobs[0].attempts == 2 * m - 1
  {
    qs, acts := Drain(m, m - 1);
  }

  // --------------------------------------------- the reaper's clock must stand still

  /** A one-life run with timely workers whose reaper statements may see different clocks. */
  ghost predicate SplitReap(qs: seq<Queue>, acts: seq<QAct>, m: int) {
    && QRun(qs, acts) && |acts| >= 1 && BornAt(qs, acts, 0, 0, m)
    && (forall i :: 0 <= i < |acts| ==> !acts[i].Replay? && NonnegativeLease(acts[i]) && Timely(qs[i], acts[i]))
  }

  lemma ExtendSplit(qs: seq<Queue>, acts: seq<QAct>, m: int, a: QAct) returns (qs': seq<Queue>, acts': seq<QAct>)
    requires SplitReap(qs, acts, m) && QEnabled(Last(qs), a) && NonnegativeLease(a) && Actor(a) == None && !a.Replay?
    ensures SplitReap(qs', acts', m) && Last(qs') == QDo(Last(qs), a)
  {
    qs', acts' := qs + [QDo(Last(qs), a)], acts + [a];
  }

  /**
   If a lease can run out between the reaper's two statements, the count is not
   bounded at all, even with timely workers: for every n some run claims the job
   n times.
   */
  lemma {:induction false} SplitReapUnbounded(m: int, n: nat) returns (qs: seq<Queue>, acts: seq<QAct>)
    ensures SplitReap(qs, acts, m) && Pile(Last(qs), m, Queued, n, 0, 0)
    decreases n
  {
    if n == 0 {
      var q := Queue(0, Tables(map[], map[]), map[], 0, [], map[], {}, None);
      var a := Enqueue(Unknown, 0, 0, m);
      qs, acts := [q, QDo(q, a)], [a];
    } else {
      qs, acts := SplitReapUnbounded(m, n - 1);
      qs, acts := SlipThrough(qs, acts, m, n);
    }
  }

  /** One claim whose lease runs out between the reaper's statements. */
  lemma SlipThrough(qs: seq<Queue>, acts: seq<QAct>, m: int, n: nat) returns (qs': seq<Queue>, acts': seq<QAct>)
    requires n > 0 && SplitReap(qs, acts, m) && Pile(Last(qs), m, Queued, n - 1, 0, 0)
    ensures SplitReap(qs', acts', m) && Pile(Last(qs'), m, Queued, n, 0, 0)
  {
    qs', acts' := ExtendSplit(qs, acts, m, Claim(0, 1));
    assert Doomed(Last(qs').tables.jobs, Last(qs').clock) == {};
    qs', acts' := ExtendSplit(qs', acts', m, ReapFirst);
    qs', acts' := ExtendSplit(qs', acts', m, Tick(2));
    assert Pile(Last(qs').(clock := Last(qs').clock - 2), m, Inflight, n, 0, 0);
    qs', acts' := ExtendSplit(qs', acts', m, ReapSecond);
  }
}
