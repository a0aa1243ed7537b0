/** No job is claimed before its time: run times of enqueues, retries and replays, and the day that settlement waits. */
module RunTimes {
  import opened Prelude
  import opened Model
  import opened JobTables
  import opened QueueMachine
  import opened QueueSafety

  /** The run time that a step writes for the job: an enqueue, a retry or a replay of it. */
  function Writes(q: Queue, a: QAct, id: nat): Option<int> {
    if a.Enqueue? && |q.log| == id then Some(a.runAt)
    else if a.Retry? && a.e in q.execs && q.execs[a.e].job == id then Some(a.at)
    else if a == Replay(id) then Some(q.clock)
    else None
  }

  /** The run time that the first k steps wrote last for the job. */
  ghost function Written(qs: seq<Queue>, acts: seq<QAct>, id: nat, k: nat): Option<int>
    requires k <= |acts| && k <= |qs|
  {
    if k == 0 then None
    else if Writes(qs[k - 1], acts[k - 1], id).Some? then Writes(qs[k - 1], acts[k - 1], id)
    else Written(qs, acts, id, k - 1)
  }

  /** A step that writes none leaves the run time of the row alone. */
  lemma RunTimeStep(q: Queue, a: QAct, id: nat)
    requires Logged(q) && QEnabled(q, a) && id in QDo(q, a).tables.jobs
    ensures Writes(q, a, id).Some? ==> QDo(q, a).tables.jobs[id].runAt == Writes(q, a, id).value
    ensures Writes(q, a, id).None? ==>
      id in q.tables.jobs && QDo(q, a).tables.jobs[id].runAt == q.tables.jobs[id].runAt
  {
  }

  lemma RunTimeNext(qs: seq<Queue>, acts: seq<QAct>, id: nat, k: nat)
    requires QRun(qs, acts) && k < |acts| && id in qs[k + 1].tables.jobs
    ensures var w := Writes(qs[k], acts[k], id);
      && (w.Some? ==> qs[k + 1].tables.jobs[id].runAt == w.value)
      && (w.None? ==> id in qs[k].tables.jobs && qs[k + 1].tables.jobs[id].runAt == qs[k].tables.jobs[id].runAt)
  {
    assert Logged(qs[k]) by {
      ConservedRun(qs, acts, k);
    }
    RunTimeStep(qs[k], acts[k], id);
  }

  /** In every state of every run a row's run time is the one that was written last. */
  lemma {:induction false} RunTimeIsWritten(qs: seq<Queue>, acts: seq<QAct>, id: nat, k: nat)
    requires QRun(qs, acts) && k < |qs| && id in qs[k].tables.jobs
    ensures Written(qs, acts, id, k) == Some(qs[k].tables.jobs[id].runAt)
  {
    if k > 0 {
      RunTimeNext(qs, acts, id, k - 1);
      if Writes(qs[k - 1], acts[k - 1], id).None? {
        RunTimeIsWritten(qs, acts, id, k - 1);
      }
    }
  }

  /**
   No early claim.  In every run a job is claimed only while it is queued and at or after the
   run time that its enqueue, its last retry or its last replay wrote.
   */
  lemma {:induction false} NoEarlyClaim(qs: seq<Queue>, acts: seq<QAct>, k: nat)
    requires QRun(qs, acts) && k < |acts| && acts[k].Claim?
    ensures acts[k].id in qs[k].tables.jobs && qs[k].tables.jobs[acts[k].id].status == Queued
    ensures Written(qs, acts, acts[k].id, k).Some? && Written(qs, acts, acts[k].id, k).value <= qs[k].clock
  {
    RunTimeIsWritten(qs, acts, acts[k].id, k);
  }

  // -------------------------------------------------------- the time of the enqueue

  /** Before the time at which it was enqueued to run, nothing happens to a job. */
  ghost predicate Asleep(q: Queue, id: nat, wake: int) {
    q.clock < wake ==>
      && id in q.tables.jobs && q.tables.jobs[id].status == Queued && q.tables.jobs[id].runAt == wake
      && id !in q.tables.dead
      && forall e :: e in q.execs ==> q.execs[e].job != id
  }

  lemma AsleepStep(q: Queue, a: QAct, id: nat, wake: int)
    requires Logged(q) && id < |q.log| && Asleep(q, id, wake) && QEnabled(q, a)
    ensures Asleep(QDo(q, a), id, wake)
  {
    if TableAct(a) {
      AsleepTables(q, a, id, wake);
    } else {
      AsleepWorker(q, a, id, wake);
    }
  }

  lemma AsleepTables(q: Queue, a: QAct, id: nat, wake: int)
    requires id < |q.log| && Asleep(q, id, wake) && QEnabled(q, a) && TableAct(a)
    ensures Asleep(QDo(q, a), id, wake)
  {
  }

  lemma AsleepWorker(q: Queue, a: QAct, id: nat, wake: int)
    requires Asleep(q, id, wake) && QEnabled(q, a) && !TableAct(a)
    ensures Asleep(QDo(q, a), id, wake)
  {
  }

  lemma AsleepAtBirth(q: Queue, a: QAct)
    requires Logged(q) && a.Enqueue?
    ensures Asleep(QDo(q, a), |q.log|, a.runAt)
  {
  }

  lemma {:induction false} AsleepRun(qs: seq<Queue>, acts: seq<QAct>, born: nat, k: nat)
    requires QRun(qs, acts) && born < k < |qs| && acts[born].Enqueue?
    ensures |qs[born].log| < |qs[k].log| && Asleep(qs[k], |qs[born].log|, acts[born].runAt)
    decreases k
  {
    assert Logged(qs[k - 1]) by {
      ConservedRun(qs, acts, k - 1);
    }
    if k == born + 1 {
      AsleepAtBirth(qs[born], acts[born]);
    } else {
      AsleepRun(qs, acts, born, k - 1);
      AsleepStep(qs[k - 1], acts[k - 1], |qs[born].log|, acts[born].runAt);
    }
  }

  /** In every run no job is claimed before the run time of its enqueue, whatever retries and replays wrote. */
  lemma NotBeforeItsTime(qs: seq<Queue>, acts: seq<QAct>, born: nat, k: nat)
    requires QRun(qs, acts) && born < k < |acts| && acts[born].Enqueue?
    requires acts[k].Claim? && acts[k].id == |qs[born].log|
    ensures acts[born].runAt <= qs[k].clock
  {
    AsleepRun(qs, acts, born, k);
  }
}
