/** The job repository as it is called: methods that update the two tables in place. */
module JobRepository {
  import opened Prelude
  import opened JobTables
  import opened QueueSafety

  datatype Claimed = Claimed(id: nat, job: Job)

  datatype ReplayResult = Revived | NotFound | Conflict

  datatype QueueStats = QueueStats(queued: nat, inflight: nat, done: nat, dead: nat)

  /** ORDER BY priority DESC, run_at ASC. */
  predicate AtLeastAsUrgent(a: Job, b: Job) {
    a.priority > b.priority || (a.priority == b.priority && a.runAt <= b.runAt)
  }

  /** Rows that a claim may take: runnable and not locked by another claim. */
  function Candidates(jobs: map<nat, Job>, now: int, locked: set<nat>): set<nat> {
    set id | id in jobs && Runnable(jobs[id], now) && id !in locked
  }

  lemma PickedIsUrgent(jobs: map<nat, Job>, now: int, locked: set<nat>, best: Option<nat>)
    requires best.None? ==> Candidates(jobs, now, locked) == {}
    requires best.Some? ==>
      && best.value in Candidates(jobs, now, locked)
      && forall id :: id in Candidates(jobs, now, locked) ==> AtLeastAsUrgent(jobs[best.value], jobs[id])
    ensures best.None? ==>
      forall id :: id in jobs && id !in locked && jobs[id].status == Queued ==> jobs[id].runAt > now
    ensures best.Some? ==>
      && best.value in jobs && best.value !in locked
      && jobs[best.value].status == Queued && jobs[best.value].runAt <= now
      && forall id :: id in jobs && id !in locked && jobs[id].status == Queued && jobs[id].runAt <= now ==>
           || jobs[best.value].priority > jobs[id].priority
           || (jobs[best.value].priority == jobs[id].priority && jobs[best.value].runAt <= jobs[id].runAt)
  {
    assert forall id :: id in jobs && id !in locked && jobs[id].status == Queued && jobs[id].runAt <= now ==>
        id in Candidates(jobs, now, locked);
  }

  class JobRepository {
    var jobs: map<nat, Job>
    var dead: map<nat, DeadLetter>

    ghost function State(): Tables
      reads this
    {
      Tables(jobs, dead)
    }

    constructor ()
      ensures State() == Tables(map[], map[])
    {
      jobs, dead := map[], map[];
    }

    /** INSERT: refused by the primary key if the id is taken. */
    method Enqueue(id: nat, kind: Kind, priority: int, runAt: int, maxAttempts: int) returns (ok: bool)
      modifies this
      ensures ok <==> id !in old(jobs)
      ensures State() == if ok then InsertJob(old(State()), id, NewJob(kind, priority, runAt, maxAttempts))
                         else old(State())
      ensures ok ==> jobs == old(jobs)[id := Job(kind, priority, runAt, Queued, 0, maxAttempts, None)]
    {
      ok := id !in jobs;
      if ok {
        jobs := jobs[id := NewJob(kind, priority, runAt, maxAttempts)];
      }
    }

    /** The subquery of Claim: the most urgent candidate, if there is one. */
    method Pick(now: int, locked: set<nat>) returns (best: Option<nat>)
      ensures best.None? ==>
        forall id :: id in jobs && id !in locked && jobs[id].status == Queued ==> jobs[id].runAt > now
      ensures best.Some? ==>
        && best.value in jobs && best.value !in locked
        && jobs[best.value].status == Queued && jobs[best.value].runAt <= now
        && forall id :: id in jobs && id !in locked && jobs[id].status == Queued && jobs[id].runAt <= now ==>
             || jobs[best.value].priority > jobs[id].priority
             || (jobs[best.value].priority == jobs[id].priority && jobs[best.value].runAt <= jobs[id].runAt)
    {
      best := None;
      var todo := Candidates(jobs, now, locked);
      while todo != {}
        invariant todo <= Candidates(jobs, now, locked)
        invariant best.None? ==> todo == Candidates(jobs, now, locked)
        invariant best.Some? ==> best.value in Candidates(jobs, now, locked)
        invariant best.Some? ==>
          forall id :: id in Candidates(jobs, now, locked) - todo ==> AtLeastAsUrgent(jobs[best.value], jobs[id])
        decreases |todo|
      {
        var id :| id in todo;
        if best.None? || !AtLeastAsUrgent(jobs[best.value], jobs[id]) {
          best := Some(id);
        }
        todo := todo - {id};
      }
      PickedIsUrgent(jobs, now, locked, best);
    }

    /** Leases the most urgent runnable row that no other claim has locked, or returns nothing. */
    method Claim(now: int, lease: int, locked: set<nat>) returns (r: Option<Claimed>)
      modifies this
      ensures r.None? ==> State() == old(State())
      ensures r.Some? ==>
        var id := r.value.id;
        id in old(jobs) && State() == ClaimJob(old(State()), id, now, lease) && r.value.job == jobs[id]
      ensures r.None? ==>
        forall k :: k in old(jobs) && k !in locked && old(jobs)[k].status == Queued ==> old(jobs)[k].runAt > now
      ensures r.Some? ==>
        var id := r.value.id;
        && id in old(jobs) && id !in locked && old(jobs)[id].status == Queued && old(jobs)[id].runAt <= now
        && (forall k :: k in old(jobs) && k !in locked && old(jobs)[k].status == Queued && old(jobs)[k].runAt <= now ==>
              || old(jobs)[id].priority > old(jobs)[k].priority
              || (old(jobs)[id].priority == old(jobs)[k].priority && old(jobs)[id].runAt <= old(jobs)[k].runAt))
        && jobs == old(jobs)[id := old(jobs)[id].(status := Inflight, leasedUntil := Some(now + lease),
                                                  attempts := old(jobs)[id].attempts + 1)]
        && dead == old(dead)
    {
      var best := Pick(now, locked);
      match best
      case None => r := None;
      case Some(id) =>
        jobs := jobs[id := Leased(jobs[id], now, lease)];
        r := Some(Claimed(id, jobs[id]));
    }

    method Complete(id: nat)
      modifies this
      ensures State() == CompleteJob(old(State()), id)
      ensures dead == old(dead) && jobs == if id !in old(jobs) then old(jobs)
        else old(jobs)[id := old(jobs)[id].(status := Done, leasedUntil := None)]
    {
      if id in jobs {
        jobs := jobs[id := jobs[id].(status := Done, leasedUntil := None)];
      }
    }

    method Retry(id: nat, runAt: int)
      modifies this
      ensures State() == RetryJob(old(State()), id, runAt)
      ensures dead == old(dead) && jobs == if id !in old(jobs) then old(jobs)
        else old(jobs)[id := old(jobs)[id].(status := Queued, runAt := runAt, leasedUntil := None)]
    {
      if id in jobs {
        jobs := jobs[id := jobs[id].(status := Queued, runAt := runAt, leasedUntil := None)];
      }
    }

    /** Two statements; if the first clashes the second does not run. */
    method MoveToDead(c: Claimed) returns (ok: bool)
      modifies this
      ensures ok <==> c.id !in old(dead)
      ensures State() == if ok
        then DeleteJob(InsertDead(old(State()), c.id, DeadLetter(c.job.kind, c.job.attempts)), c.id)
        else old(State())
      ensures ok ==>
        jobs == old(jobs) - {c.id} && dead == old(dead)[c.id := DeadLetter(c.job.kind, c.job.attempts)]
    {
      ok := c.id !in dead;
      if ok {
        dead := dead[c.id := DeadLetter(c.job.kind, c.job.attempts)];
        jobs := jobs - {c.id};
      }
    }

    /** Both statements of ReapExpired at one clock value; a clash in the first skips the second. */
    method ReapExpired(now: int) returns (ok: bool, requeued: nat, moved: nat)
      modifies this
      ensures ok <==> !ReapClashes(old(State()), now)
      ensures !ok ==> State() == old(State()) && requeued == 0 && moved == 0
      ensures ok ==>
        && State() == ReapRequeue(ReapDead(old(State()), now), now)
        && moved == |Doomed(old(jobs), now)|
        && requeued == |Lapsed(old(jobs), now) - Doomed(old(jobs), now)|
        && Lapsed(jobs, now) == {}
      ensures ok ==>
        && (forall id :: id in old(jobs) ==>
              var j := old(jobs)[id];
              if !(j.status == Inflight && j.leasedUntil.Some? && j.leasedUntil.value < now) then
                id in jobs && jobs[id] == j
              else if j.attempts < j.maxAttempts then
                id in jobs && jobs[id] == j.(status := Queued, leasedUntil := None)
              else
                id !in jobs && id in dead && dead[id] == DeadLetter(j.kind, j.attempts))
        && (forall id :: id in jobs ==> id in old(jobs))
        && (forall id :: id in old(dead) ==> id in dead && dead[id] == old(dead)[id])
    {
      var doomed := Doomed(jobs, now);
      ok, requeued, moved := doomed !! dead.Keys, 0, 0;
      if ok {
        moved := |doomed|;
        dead := dead + map id | id in doomed :: DeadLetter(jobs[id].kind, jobs[id].attempts);
        jobs := jobs - doomed;
        requeued := |Lapsed(jobs, now)|;
        assert Lapsed(jobs, now) == Lapsed(old(jobs), now) - doomed;
        jobs := map id | id in jobs :: Requeued(jobs[id], now);
      }
    }

    /** DELETE from dead_letters and INSERT into jobs, as one statement. */
    method Replay(id: nat, now: int) returns (r: ReplayResult)
      modifies this
      ensures r.NotFound? <==> id !in old(dead)
      ensures r.Conflict? <==> id in old(dead) && id in old(jobs)
      ensures State() == if r.Revived? then ReplayJob(old(State()), id, now) else old(State())
      ensures r.Revived? ==>
        && jobs == old(jobs)[id := Job(old(dead)[id].kind, 0, now, Queued, 0, 5, None)]
        && dead == old(dead) - {id}
    {
      if id !in dead {
        r := NotFound;
      } else if id in jobs {
        r := Conflict;
      } else {
        jobs := jobs[id := Job(dead[id].kind, 0, now, Queued, 0, DEFAULT_MAX_ATTEMPTS, None)];
        dead := dead - {id};
        r := Revived;
      }
    }

    /** The four counts; the first three add up to the size of the jobs table. */
    method Stats() returns (s: QueueStats)
      ensures s.queued + s.inflight + s.done == |jobs| && s.dead == |dead|
      ensures s.queued == |set id | id in jobs && jobs[id].status == Queued|
      ensures s.inflight == |set id | id in jobs && jobs[id].status == Inflight|
      ensures s.done == |set id | id in jobs && jobs[id].status == Done|
    {
      StatusesPartition(jobs);
      var queued := set id | id in jobs && jobs[id].status == Queued;
      var inflight := set id | id in jobs && jobs[id].status == Inflight;
      var done := set id | id in jobs && jobs[id].status == Done;
      assert queued == WithStatus(jobs, Queued) && inflight == WithStatus(jobs, Inflight);
      assert done == WithStatus(jobs, Done);
      s := QueueStats(|queued|, |inflight|, |done|, |dead|);
    }

    method HasActive(kind: Kind) returns (active: bool)
      ensures active <==> JobTables.HasActive(jobs, kind)
      ensures !active <==> forall id :: id in jobs && jobs[id].kind == kind ==> jobs[id].status == Done
    {
      var found := set id | id in jobs && jobs[id].kind == kind && jobs[id].status in {Queued, Inflight};
      assert forall id :: id in jobs && jobs[id].kind == kind && jobs[id].status != Done ==> id in found;
      active := |found| > 0;
      if active {
        ghost var id :| id in found;
      }
    }
  }

  /** Rows whose lease has run out. */
  function Lapsed(jobs: map<nat, Job>, now: int): set<nat> {
    set id | id in jobs && Expired(jobs[id], now)
  }

  // ------------------------------------------------------------------- process

  function Pow2(n: nat): nat {
    if n == 0 then 1 else 2 * Pow2(n - 1)
  }

  /** Seconds of backoff after this many attempts: doubling, capped at 300. */
  function Backoff(attempts: nat): int {
    if Pow2(attempts) < 300 then Pow2(attempts) else 300
  }

  lemma {:induction false} BackoffGrows(a: nat, b: nat)
    requires a <= b
    ensures 1 <= Backoff(a) <= Backoff(b) <= 300
    ensures Backoff(a) < 300 ==> Backoff(a + 1) == 2 * Backoff(a) || Backoff(a + 1) == 300
    decreases b
  {
    Pow2Positive(a);
    if a < b {
      BackoffGrows(a, b - 1);
      Pow2Positive(b - 1);
    }
  }

  /** Seconds of backoff, attempt by attempt: powers of two up to 256, then 300. */
  lemma BackoffSeconds(attempts: nat)
    ensures Backoff(0) == 1 && Backoff(1) == 2 && Backoff(2) == 4 && Backoff(3) == 8 && Backoff(4) == 16
    ensures Backoff(5) == 32 && Backoff(6) == 64 && Backoff(7) == 128 && Backoff(8) == 256
    ensures attempts >= 9 ==> Backoff(attempts) == 300
  {
    assert Pow2(4) == 16 && Pow2(8) == 16 * Pow2(4);
    if attempts >= 9 {
      assert Pow2(9) == 2 * Pow2(8);
      BackoffGrows(9, attempts);
    }
  }

  lemma {:induction false} Pow2Positive(n: nat)
    ensures Pow2(n) >= 1
  {
    if n > 0 {
      Pow2Positive(n - 1);
    }
  }

  /** What the worker does with the outcome of a handler, deciding by the snapshot it claimed. */
  method Process(repo: JobRepository, c: Claimed, failed: bool, now: int)
    modifies repo
    ensures repo.jobs == if c.id !in old(repo.jobs) then old(repo.jobs)
      else if !failed then
        old(repo.jobs)[c.id := old(repo.jobs)[c.id].(status := Done, leasedUntil := None)]
      else if c.job.attempts < c.job.maxAttempts then
        old(repo.jobs)[c.id := old(repo.jobs)[c.id].(status := Queued, leasedUntil := None,
                                                     runAt := now + 1000 * Backoff(c.job.attempts))]
      else if c.id in old(repo.dead) then old(repo.jobs) else old(repo.jobs) - {c.id}
    ensures !failed ==> repo.State() == CompleteJob(old(repo.State()), c.id)
    ensures failed && c.job.attempts < c.job.maxAttempts ==>
      repo.State() == RetryJob(old(repo.State()), c.id, now + 1000 * Backoff(c.job.attempts))
    ensures failed && c.job.attempts >= c.job.maxAttempts ==>
      repo.State() == if c.id in old(repo.dead) then old(repo.State())
                      else DeleteJob(InsertDead(old(repo.State()), c.id, DeadLetter(c.job.kind, c.job.attempts)), c.id)
  {
    if !failed {
      repo.Complete(c.id);
    } else if c.job.attempts >= c.job.maxAttempts {
      var ok := repo.MoveToDead(c);
    } else {
      repo.Retry(c.id, now + 1000 * Backoff(c.job.attempts));
    }
  }
}
