/**
 The `jobs` and `dead_letters` tables and the SQL statements of the job
 repository, one function per statement.  Every uuid is a natural number.
 */
module JobTables {
  import opened Prelude

  /** Job type together with the part of the payload that handlers use. */
  datatype Kind = ExecuteOrder(order: nat) | Settle(order: nat) | PollQuotes | AlertWebhook | Unknown

  datatype Status = Queued | Inflight | Done

  datatype Job = Job(kind: Kind, priority: int, runAt: int, status: Status,
                     attempts: nat, maxAttempts: int, leasedUntil: Option<int>)

  datatype DeadLetter = DeadLetter(kind: Kind, attempts: nat)

  datatype Tables = Tables(jobs: map<nat, Job>, dead: map<nat, DeadLetter>)

  const DEFAULT_MAX_ATTEMPTS := 5

  function NewJob(kind: Kind, priority: int, runAt: int, maxAttempts: int): Job {
    Job(kind, priority, runAt, Queued, 0, maxAttempts, None)
  }

  predicate Runnable(j: Job, now: int) {
    j.status == Queued && j.runAt <= now
  }

  function Leased(j: Job, now: int, lease: int): Job {
    j.(status := Inflight, leasedUntil := Some(now + lease), attempts := j.attempts + 1)
  }

  predicate Expired(j: Job, now: int) {
    j.status == Inflight && j.leasedUntil.Some? && j.leasedUntil.value < now
  }

  predicate Exhausted(j: Job) {
    j.attempts >= j.maxAttempts
  }

  /** A job of this kind is queued or inflight. */
  predicate HasActive(jobs: map<nat, Job>, kind: Kind) {
    exists id :: id in jobs && jobs[id].kind == kind && jobs[id].status != Done
  }

  function InsertJob(t: Tables, id: nat, j: Job): Tables {
    t.(jobs := t.jobs[id := j])
  }

  function ClaimJob(t: Tables, id: nat, now: int, lease: int): Tables
    requires id in t.jobs
  {
    t.(jobs := t.jobs[id := Leased(t.jobs[id], now, lease)])
  }

  function CompleteJob(t: Tables, id: nat): Tables {
    if id in t.jobs then t.(jobs := t.jobs[id := t.jobs[id].(status := Done, leasedUntil := None)]) else t
  }

  function RetryJob(t: Tables, id: nat, runAt: int): Tables {
    if id in t.jobs
    then t.(jobs := t.jobs[id := t.jobs[id].(status := Queued, runAt := runAt, leasedUntil := None)])
    else t
  }

  function InsertDead(t: Tables, id: nat, d: DeadLetter): Tables {
    t.(dead := t.dead[id := d])
  }

  function DeleteJob(t: Tables, id: nat): Tables {
    t.(jobs := t.jobs - {id})
  }

  /** Rows the first statement of the reaper deletes. */
  function Doomed(jobs: map<nat, Job>, now: int): set<nat> {
    set id | id in jobs && Expired(jobs[id], now) && Exhausted(jobs[id])
  }

  /** The statement is one SQL command: a primary-key clash undoes all of it. */
  predicate ReapClashes(t: Tables, now: int) {
    exists id :: id in Doomed(t.jobs, now) && id in t.dead
  }

  function ReapDead(t: Tables, now: int): Tables {
    if ReapClashes(t, now) then t
    else
      Tables(t.jobs - Doomed(t.jobs, now),
             t.dead + map id | id in Doomed(t.jobs, now) :: DeadLetter(t.jobs[id].kind, t.jobs[id].attempts))
  }

  function Requeued(j: Job, now: int): Job {
    if Expired(j, now) then j.(status := Queued, leasedUntil := None) else j
  }

  function ReapRequeue(t: Tables, now: int): Tables {
    t.(jobs := map id | id in t.jobs :: Requeued(t.jobs[id], now))
  }

  /** A revived row takes the schema's defaults for priority and max_attempts. */
  function ReplayJob(t: Tables, id: nat, now: int): Tables
    requires id in t.dead
  {
    Tables(t.jobs[id := Job(t.dead[id].kind, 0, now, Queued, 0, DEFAULT_MAX_ATTEMPTS, None)], t.dead - {id})
  }
}
