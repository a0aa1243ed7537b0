/**
 The durable queue as a state machine: the two tables, the database clock and
 the outstanding worker executions, each with the snapshot of the job that its
 claim returned.  `Complete`, `Retry` and `MoveToDead` act by id alone, so an
 execution whose lease has run out can still act; every statement is one step.

 A job's id is its position in `log`, the list of everything ever enqueued.
 `log`, `moving`, `torn` and `reapedAt` are history: no step's table effect reads them.
 */
module QueueMachine {
  import opened Prelude
  import opened JobTables

  datatype Phase = Working | Succeeded | Failed | DeadInserted

  datatype Exec = Exec(job: nat, kind: Kind, attempts: nat, maxAttempts: int, lease: int, phase: Phase)

  datatype Queue = Queue(
    clock: int,
    tables: Tables,
    execs: map<nat, Exec>,
    nextExec: nat,
    log: seq<Kind>,
    moving: map<nat, nat>,   // job -> the execution between the two statements of its MoveToDead
    torn: set<nat>,          // jobs whose MoveToDead was cut between its two statements
    reapedAt: Option<int>)   // clock of the last successful first statement of a reaper

  datatype QAct =
    | Tick(dt: nat)
    | Enqueue(kind: Kind, priority: int, runAt: int, maxAttempts: int)
    | Claim(id: nat, lease: int)
    | Crash(e: nat)
    | Return(e: nat, ok: bool)   // the handler returns nil or an error
    | Complete(e: nat)
    | Retry(e: nat, at: int)
    | DeadInsert(e: nat)
    | DeadDelete(e: nat)
    | ReapFirst
    | ReapSecond
    | Replay(id: nat)

  predicate QInit(q: Queue) {
    && q.tables == Tables(map[], map[]) && q.execs == map[] && q.log == []
    && q.nextExec == 0 && q.moving == map[] && q.torn == {} && q.reapedAt == None
  }

  predicate QEnabled(q: Queue, a: QAct) {
    match a
    case Tick(_) => true
    case Enqueue(_, _, _, _) => true
    case Claim(id, _) => id in q.tables.jobs && Runnable(q.tables.jobs[id], q.clock)
    case Crash(e) => e in q.execs
    case Return(e, _) => e in q.execs && q.execs[e].phase == Working
    case Complete(e) => e in q.execs && q.execs[e].phase == Succeeded
    case Retry(e, _) => e in q.execs && q.execs[e].phase == Failed && q.execs[e].attempts < q.execs[e].maxAttempts
    case DeadInsert(e) => e in q.execs && q.execs[e].phase == Failed && q.execs[e].attempts >= q.execs[e].maxAttempts
    case DeadDelete(e) => e in q.execs && q.execs[e].phase == DeadInserted
    case ReapFirst => true
    case ReapSecond => q.reapedAt.Some?
    case Replay(id) => id in q.tables.dead && id !in q.tables.jobs
  }

  function Without(q: Queue, e: nat): Queue {
    q.(execs := q.execs - {e})
  }

  function WithPhase(q: Queue, e: nat, p: Phase): Queue
    requires e in q.execs
  {
    q.(execs := q.execs[e := q.execs[e].(phase := p)])
  }

  function QDo(q: Queue, a: QAct): Queue
    requires QEnabled(q, a)
  {
    var t := q.tables;
    match a
    case Tick(dt) => q.(clock := q.clock + dt)
    case Enqueue(kind, priority, runAt, maxAttempts) =>
      q.(tables := InsertJob(t, |q.log|, NewJob(kind, priority, runAt, maxAttempts)), log := q.log + [kind])
    case Claim(id, lease) =>
      var j := Leased(t.jobs[id], q.clock, lease);
      q.(tables := ClaimJob(t, id, q.clock, lease),
         execs := q.execs[q.nextExec := Exec(id, j.kind, j.attempts, j.maxAttempts, q.clock + lease, Working)],
         nextExec := q.nextExec + 1)
    case Crash(e) =>
      var x := q.execs[e];
      if x.phase == DeadInserted
      then Without(q, e).(moving := q.moving - {x.job}, torn := q.torn + {x.job})
      else Without(q, e)
    case Return(e, ok) => WithPhase(q, e, if ok then Succeeded else Failed)
    case Complete(e) => Without(q, e).(tables := CompleteJob(t, q.execs[e].job))
    case Retry(e, at) => Without(q, e).(tables := RetryJob(t, q.execs[e].job, at))
    case DeadInsert(e) =>
      var x := q.execs[e];
      if x.job in t.dead then Without(q, e)   // primary-key error: logged, nothing written
      else WithPhase(q, e, DeadInserted).(tables := InsertDead(t, x.job, DeadLetter(x.kind, x.attempts)),
                                          moving := q.moving[x.job := e])
    case DeadDelete(e) =>
      var x := q.execs[e];
      Without(q, e).(tables := DeleteJob(t, x.job), moving := q.moving - {x.job})
    case ReapFirst =>
      if ReapClashes(t, q.clock) then q
      else q.(tables := ReapDead(t, q.clock), reapedAt := Some(q.clock))
    case ReapSecond => q.(tables := ReapRequeue(t, q.clock))
    case Replay(id) => q.(tables := ReplayJob(t, id, q.clock))
  }

  /** A run: consecutive states, each obtained from the one before by an enabled step. */
  ghost predicate QRun(qs: seq<Queue>, acts: seq<QAct>) {
    && |qs| == |acts| + 1
    && QInit(qs[0])
    && forall i :: 0 <= i < |acts| ==> QEnabled(qs[i], acts[i]) && qs[i + 1] == QDo(qs[i], acts[i])
  }

  // ---------------------------------------------------------------- hypotheses

  /** Which execution performs a step, if one does (a crash is not an act). */
  function Actor(a: QAct): Option<nat> {
    match a
    case Return(e, _) => Some(e)
    case Complete(e) => Some(e)
    case Retry(e, _) => Some(e)
    case DeadInsert(e) => Some(e)
    case DeadDelete(e) => Some(e)
    case _ => None
  }

  /** "Timely": no execution acts after its lease has expired. */
  predicate Timely(q: Queue, a: QAct) {
    Actor(a).Some? && Actor(a).value in q.execs ==> q.clock <= q.execs[Actor(a).value].lease
  }

  /** The same, asked only of the executions of one job. */
  predicate TimelyOn(q: Queue, a: QAct, id: nat) {
    Actor(a).Some? && Actor(a).value in q.execs && q.execs[Actor(a).value].job == id ==>
      q.clock <= q.execs[Actor(a).value].lease
  }

  /** "Atomic reap": both statements of the reaper see one clock value. */
  predicate AtomicReap(q: Queue, a: QAct) {
    a.ReapSecond? ==> q.reapedAt == Some(q.clock)
  }

  predicate NonnegativeLease(a: QAct) {
    a.Claim? ==> a.lease >= 0
  }

  // -------------------------------------------------------- job conservation

  /** Rows and snapshots agree with the enqueue log. */
  ghost predicate Logged(q: Queue) {
    && (forall id :: id in q.tables.jobs ==> id < |q.log| && q.tables.jobs[id].kind == q.log[id])
    && (forall id :: id in q.tables.dead ==> id < |q.log| && q.tables.dead[id].kind == q.log[id])
    && (forall e :: e in q.execs ==>
          e < q.nextExec && q.execs[e].job < |q.log| && q.execs[e].kind == q.log[q.execs[e].job])
  }

  /** `moving` names exactly the executions between the two statements of MoveToDead. */
  ghost predicate MoversKnown(q: Queue) {
    && (forall id :: id in q.moving ==>
          q.moving[id] in q.execs && q.execs[q.moving[id]].phase == DeadInserted && q.execs[q.moving[id]].job == id)
    && (forall e :: e in q.execs && q.execs[e].phase == DeadInserted ==>
          q.execs[e].job in q.moving && q.moving[q.execs[e].job] == e)
  }

  /** No id is lost, and the tables overlap exactly where MoveToDead is unfinished. */
  ghost predicate Covered(q: Queue) {
    && (forall id :: 0 <= id < |q.log| ==> id in q.tables.jobs || id in q.tables.dead)
    && (forall id :: id in q.tables.jobs && id in q.tables.dead <==> id in q.moving || id in q.torn)
    && q.moving.Keys !! q.torn
  }

  ghost predicate Conserved(q: Queue) {
    Logged(q) && MoversKnown(q) && Covered(q)
  }

  /** Steps by the enqueuer, the reaper, the operator or the clock. */
  predicate TableAct(a: QAct) {
    a.ReapFirst? || a.ReapSecond? || a.Replay? || a.Enqueue? || a.Tick?
  }

  lemma LoggedTables(q: Queue, a: QAct)
    requires Logged(q) && QEnabled(q, a) && TableAct(a)
    ensures Logged(QDo(q, a))
  {
  }

  lemma LoggedClaim(q: Queue, a: QAct)
    requires Logged(q) && QEnabled(q, a) && a.Claim?
    ensures Logged(QDo(q, a))
  {
  }

  lemma LoggedWorker(q: Queue, a: QAct)
    requires Logged(q) && QEnabled(q, a) && !TableAct(a) && !a.Claim?
    ensures Logged(QDo(q, a))
  {
  }

  lemma MoversInsert(q: Queue, e: nat)
    requires MoversKnown(q) && QEnabled(q, DeadInsert(e))
    requires q.execs[e].job !in q.tables.dead ==> q.execs[e].job !in q.moving
    ensures MoversKnown(QDo(q, DeadInsert(e)))
  {
    var q' := QDo(q, DeadInsert(e));
    if q.execs[e].job !in q.tables.dead {
      assert forall f :: f in q.execs && f != e ==> q'.execs[f] == q.execs[f];
    }
  }

  lemma MoversOther(q: Queue, a: QAct)
    requires MoversKnown(q) && QEnabled(q, a) && !a.DeadInsert?
    requires q.nextExec !in q.execs
    ensures MoversKnown(QDo(q, a))
  {
  }

  lemma CoveredTables(q: Queue, a: QAct)
    requires Conserved(q) && QEnabled(q, a) && TableAct(a)
    ensures Covered(QDo(q, a))
  {
  }

  lemma CoveredWorker(q: Queue, a: QAct)
    requires Conserved(q) && QEnabled(q, a) && !TableAct(a)
    ensures Covered(QDo(q, a))
  {
  }

  lemma ConservedStep(q: Queue, a: QAct)
    requires Conserved(q) && QEnabled(q, a)
    ensures Conserved(QDo(q, a))
  {
    if a.DeadInsert? {
      MoversInsert(q, a.e);
    } else {
      MoversOther(q, a);
    }
    if TableAct(a) {
      LoggedTables(q, a);
      CoveredTables(q, a);
    } else {
      if a.Claim? {
        LoggedClaim(q, a);
      } else {
        LoggedWorker(q, a);
      }
      CoveredWorker(q, a);
    }
  }

  // ------------------------------------------------------------ clean reaping

  /**
   Right after a first reaping statement, and for as long as the clock stands,
   no exhausted row is left for the second statement to requeue.
   */
  ghost predicate ReapClean(q: Queue) {
    && (q.reapedAt.Some? ==> q.reapedAt.value <= q.clock)
    && (q.reapedAt == Some(q.clock) ==>
          forall id :: id in q.tables.jobs ==> !(Expired(q.tables.jobs[id], q.clock) && Exhausted(q.tables.jobs[id])))
  }

  lemma ReapCleanStep(q: Queue, a: QAct)
    requires ReapClean(q) && QEnabled(q, a) && NonnegativeLease(a)
    ensures ReapClean(QDo(q, a))
  {
  }

  // -------------------------------------------------------- lease exclusivity

  /** An execution whose lease has not run out. */
  predicate Live(q: Queue, e: nat) {
    e in q.execs && q.clock <= q.execs[e].lease
  }

  /** A live execution of job id holds the job's current lease, and there is at most one. */
  ghost predicate Exclusive(q: Queue, id: nat) {
    && (forall e :: Live(q, e) && q.execs[e].job == id ==>
          id in q.tables.jobs && q.tables.jobs[id].status == Inflight
          && q.tables.jobs[id].leasedUntil == Some(q.execs[e].lease))
    && (forall e, f :: Live(q, e) && Live(q, f) && q.execs[e].job == id && q.execs[f].job == id ==> e == f)
  }

  /** If the executions of a job are timely, leasing excludes overlapping live executions of it. */
  lemma ExclusiveStep(q: Queue, a: QAct, id: nat)
    requires Logged(q) && Exclusive(q, id) && QEnabled(q, a) && TimelyOn(q, a, id)
    ensures Exclusive(QDo(q, a), id)
  {
    if TableAct(a) {
      ExclusiveTables(q, a, id);
    } else if a.Claim? {
      ExclusiveClaim(q, a, id);
    } else {
      ExclusiveWorker(q, a, id);
    }
  }

  /** No reaping statement, replay or enqueue touches the row of a live execution. */
  lemma LiveRowKept(q: Queue, a: QAct, e: nat)
    requires Logged(q) && QEnabled(q, a) && TableAct(a) && Live(QDo(q, a), e)
    requires e in q.execs ==> Exclusive(q, q.execs[e].job)
    ensures Live(q, e) && QDo(q, a).execs[e] == q.execs[e]
    ensures var id := q.execs[e].job;
      id in q.tables.jobs && id in QDo(q, a).tables.jobs && QDo(q, a).tables.jobs[id] == q.tables.jobs[id]
  {
  }

  lemma ExclusiveTables(q: Queue, a: QAct, id: nat)
    requires Logged(q) && Exclusive(q, id) && QEnabled(q, a) && TableAct(a)
    ensures Exclusive(QDo(q, a), id)
  {
    assert QDo(q, a).execs == q.execs;
    forall e | Live(QDo(q, a), e) && q.execs[e].job == id
      ensures Live(q, e) && id in QDo(q, a).tables.jobs && QDo(q, a).tables.jobs[id] == q.tables.jobs[id]
    {
      LiveRowKept(q, a, e);
    }
  }

  lemma ExclusiveClaim(q: Queue, a: QAct, id: nat)
    requires Exclusive(q, id) && QEnabled(q, a) && a.Claim?
    ensures Exclusive(QDo(q, a), id)
  {
    var q' := QDo(q, a);
    assert forall e :: Live(q', e) && e != q.nextExec ==> Live(q, e) && q'.execs[e] == q.execs[e];
  }

  lemma ExclusiveWorker(q: Queue, a: QAct, id: nat)
    requires Exclusive(q, id) && QEnabled(q, a) && TimelyOn(q, a, id) && !TableAct(a) && !a.Claim?
    ensures Exclusive(QDo(q, a), id)
  {
    var q' := QDo(q, a);
    assert a.Crash? || q.execs[a.e].job != id || Live(q, a.e);
    assert forall e :: Live(q', e) ==>
      Live(q, e) && q'.execs[e].job == q.execs[e].job && q'.execs[e].lease == q.execs[e].lease;
    assert forall e :: Live(q', e) && q.execs[e].job == id && e != a.e && !a.Crash? ==> q.execs[a.e].job != id;
  }

  // ------------------------------------------------------- how a job gets done

  /** A row becomes done only by the Complete of an execution of that job. */
  lemma DoneByComplete(q: Queue, a: QAct, id: nat)
    requires QEnabled(q, a) && id in QDo(q, a).tables.jobs && QDo(q, a).tables.jobs[id].status == Done
    ensures (id in q.tables.jobs && q.tables.jobs[id] == QDo(q, a).tables.jobs[id])
      || (a.Complete? && q.execs[a.e].job == id && id in q.tables.jobs)
  {
  }

  /** An execution outstanding after a step was outstanding before it, or was just claimed. */
  lemma ExecComesFrom(q: Queue, a: QAct, e: nat)
    requires QEnabled(q, a) && e in QDo(q, a).execs
    ensures if a.Claim? && e == q.nextExec then QDo(q, a).execs[e].phase == Working
      else e in q.execs
           && QDo(q, a).execs[e].job == q.execs[e].job && QDo(q, a).execs[e].kind == q.execs[e].kind
           && QDo(q, a).execs[e].lease == q.execs[e].lease
           && (Actor(a) != Some(e) ==> QDo(q, a).execs[e] == q.execs[e])
           && (QDo(q, a).execs[e].phase == Working ==> q.execs[e].phase == Working)
    ensures QDo(q, a).clock >= q.clock
  {
  }

  /** An execution stays until it acts or crashes. */
  lemma ExecStays(q: Queue, a: QAct, e: nat)
    requires QEnabled(q, a) && e in q.execs && e != q.nextExec && Actor(a) != Some(e) && a != Crash(e)
    ensures e in QDo(q, a).execs && QDo(q, a).execs[e] == q.execs[e]
  {
  }
}
