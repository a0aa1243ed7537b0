/** What every run of the queue keeps: no job is lost, and every id is accounted for. */
module QueueSafety {
  import opened Prelude
  import opened JobTables
  import opened QueueMachine

  lemma {:induction false} ConservedRun(qs: seq<Queue>, acts: seq<QAct>, i: nat)
    requires QRun(qs, acts) && i < |qs|
    ensures Conserved(qs[i])
  {
    if i > 0 {
      ConservedRun(qs, acts, i - 1);
      ConservedStep(qs[i - 1], acts[i - 1]);
    }
  }

  // ------------------------------------------------------------------ counting

  function WithStatus(jobs: map<nat, Job>, st: Status): set<nat> {
    set id | id in jobs && jobs[id].status == st
  }

  /** The ids handed out by the first `n` enqueues. */
  function Upto(n: nat): (r: set<nat>)
    ensures |r| == n
    ensures forall id: nat :: id in r <==> id < n
  {
    if n == 0 then {} else Upto(n - 1) + {n - 1}
  }

  /** The three live statuses partition the jobs table. */
  lemma StatusesPartition(jobs: map<nat, Job>)
    ensures |WithStatus(jobs, Queued)| + |WithStatus(jobs, Inflight)| + |WithStatus(jobs, Done)| == |jobs|
  {
    var a, b, c := WithStatus(jobs, Queued), WithStatus(jobs, Inflight), WithStatus(jobs, Done);
    assert a !! b && (a + b) !! c;
    assert a + b + c == jobs.Keys;
    assert |a + b + c| == |a + b| + |c|;
  }

  lemma InclusionExclusion(a: set<nat>, b: set<nat>, u: set<nat>, m: set<nat>, n: set<nat>)
    requires a + b == u && a * b == m + n && m !! n
    ensures |a| + |b| == |u| + |m| + |n|
  {
    assert |a + b| + |a * b| == |a| + |b|;
  }

  lemma TablesCoverLog(q: Queue)
    requires Covered(q)
    requires forall id :: id in q.tables.jobs || id in q.tables.dead ==> id < |q.log|
    ensures q.tables.jobs.Keys + q.tables.dead.Keys == Upto(|q.log|)
  {
    var j, d, u := q.tables.jobs.Keys, q.tables.dead.Keys, Upto(|q.log|);
    assert forall id: nat :: id in u ==> id < |q.log|;
    assert forall id :: id in j + d ==> id in u;
    assert forall id :: id in u ==> id in j + d;
  }

  lemma TablesOverlap(q: Queue)
    requires Covered(q)
    ensures q.tables.jobs.Keys * q.tables.dead.Keys == q.moving.Keys + q.torn
  {
  }

  lemma Accounting(q: Queue)
    requires Covered(q)
    requires forall id :: id in q.tables.jobs || id in q.tables.dead ==> id < |q.log|
    ensures |q.tables.jobs| + |q.tables.dead| == |q.log| + |q.moving| + |q.torn|
  {
    TablesCoverLog(q);
    TablesOverlap(q);
    InclusionExclusion(q.tables.jobs.Keys, q.tables.dead.Keys, Upto(|q.log|), q.moving.Keys, q.torn);
  }

  /**
   Job conservation.  Under every interleaving and every crash, each id ever
   enqueued has a row in `jobs` or in `dead_letters`, no other id has one, and
   queued + inflight + done + dead exceeds the number of enqueues by exactly
   the number of MoveToDead calls now between their statements plus those a
   crash has cut there.
   */
  lemma JobConservation(qs: seq<Queue>, acts: seq<QAct>, i: nat)
    requires QRun(qs, acts) && i < |qs|
    ensures var q := qs[i];
      && (forall id :: id in q.tables.jobs || id in q.tables.dead <==> 0 <= id < |q.log|)
      && |WithStatus(q.tables.jobs, Queued)| + |WithStatus(q.tables.jobs, Inflight)|
         + |WithStatus(q.tables.jobs, Done)| + |q.tables.dead|
         == |q.log| + |q.moving| + |q.torn|
  {
    ConservedRun(qs, acts, i);
    StatusesPartition(qs[i].tables.jobs);
    Accounting(qs[i]);
  }

  /** "Uninterrupted MoveToDead": no crash falls between its two statements. */
  predicate Uninterrupted(q: Queue, a: QAct) {
    a.Crash? && a.e in q.execs ==> q.execs[a.e].phase != DeadInserted
  }

  lemma {:induction false} NothingTorn(qs: seq<Queue>, acts: seq<QAct>, i: nat)
    requires QRun(qs, acts) && i < |qs|
    requires forall k :: 0 <= k < |acts| ==> Uninterrupted(qs[k], acts[k])
    ensures qs[i].torn == {}
  {
    if i > 0 {
      NothingTorn(qs, acts, i - 1);
      assert Uninterrupted(qs[i - 1], acts[i - 1]);
      assert qs[i] == QDo(qs[i - 1], acts[i - 1]);
    }
  }

  /**
   With MoveToDead uninterrupted, the tables overlap exactly in the jobs that are between
   its two statements, and the four counts exceed the number of enqueues by exactly
   those: where there are none, the tables are disjoint and the counts add up.
   */
  lemma DisjointTables(qs: seq<Queue>, acts: seq<QAct>, i: nat)
    requires QRun(qs, acts) && i < |qs|
    requires forall k :: 0 <= k < |acts| ==> Uninterrupted(qs[k], acts[k])
    ensures var q := qs[i];
      && q.tables.jobs.Keys * q.tables.dead.Keys == q.moving.Keys
      && |WithStatus(q.tables.jobs, Queued)| + |WithStatus(q.tables.jobs, Inflight)|
         + |WithStatus(q.tables.jobs, Done)| + |q.tables.dead| == |q.log| + |q.moving|
      && ((forall e :: e in q.execs ==> q.execs[e].phase != DeadInserted) ==>
            q.tables.jobs.Keys !! q.tables.dead.Keys && |q.moving| == 0)
  {
    NothingTorn(qs, acts, i);
    JobConservation(qs, acts, i);
    ConservedRun(qs, acts, i);
    TablesOverlap(qs[i]);
    if forall e :: e in qs[i].execs ==> qs[i].execs[e].phase != DeadInserted {
      assert qs[i].moving.Keys == {};
    }
  }

  // ------------------------------------------------------- a wedged reaper

  /**
   In every state of every run the reaper's first statement fails if and only if some
   expired and exhausted job is between the statements of a MoveToDead or was cut there.
   */
  lemma FirstReapFailsIff(qs: seq<Queue>, acts: seq<QAct>, i: nat)
    requires QRun(qs, acts) && i < |qs|
    ensures var q := qs[i];
      ReapClashes(q.tables, q.clock)
      <==> exists id :: (id in q.moving || id in q.torn) && id in Doomed(q.tables.jobs, q.clock)
  {
    ConservedRun(qs, acts, i);
    var q := qs[i];
    if id :| (id in q.moving || id in q.torn) && id in Doomed(q.tables.jobs, q.clock) {
      assert id in q.tables.dead;
    }
    if ReapClashes(q.tables, q.clock) {
      var id :| id in Doomed(q.tables.jobs, q.clock) && id in q.tables.dead;
      assert id in q.tables.jobs;
    }
  }

  /** A job cut between the statements of MoveToDead, with nobody left working on it. */
  ghost predicate Wedged(q: Queue, id: nat) {
    && id in q.torn && id in q.tables.jobs && id in q.tables.dead
    && q.tables.jobs[id].status == Inflight && Exhausted(q.tables.jobs[id])
    && q.tables.jobs[id].leasedUntil.Some?
    && (forall e :: e in q.execs ==> q.execs[e].job != id)
  }

  lemma WedgedStep(q: Queue, a: QAct, id: nat)
    requires Conserved(q) && ReapClean(q) && Wedged(q, id) && QEnabled(q, a) && AtomicReap(q, a)
    ensures var q' := QDo(q, a);
      Wedged(q', id) && q'.tables.jobs[id] == q.tables.jobs[id] && q'.clock >= q.clock
    ensures Expired(q.tables.jobs[id], q.clock) && (a.ReapFirst? || a.ReapSecond?) ==> QDo(q, a) == q
  {
    if a.ReapFirst? || a.ReapSecond? {
      WedgedReap(q, a, id);
    } else if TableAct(a) {
      WedgedTables(q, a, id);
    } else {
      WedgedWorker(q, a, id);
    }
  }

  lemma WedgedReap(q: Queue, a: QAct, id: nat)
    requires ReapClean(q) && Wedged(q, id) && QEnabled(q, a) && AtomicReap(q, a) && (a.ReapFirst? || a.ReapSecond?)
    ensures var q' := QDo(q, a);
      Wedged(q', id) && q'.tables.jobs[id] == q.tables.jobs[id] && q'.clock >= q.clock
    ensures Expired(q.tables.jobs[id], q.clock) ==> QDo(q, a) == q
  {
    if Expired(q.tables.jobs[id], q.clock) {
      assert id in Doomed(q.tables.jobs, q.clock);
      assert ReapClashes(q.tables, q.clock);
    }
  }

  lemma WedgedTables(q: Queue, a: QAct, id: nat)
    requires Logged(q) && Wedged(q, id) && QEnabled(q, a) && (a.Enqueue? || a.Replay? || a.Tick?)
    ensures var q' := QDo(q, a);
      Wedged(q', id) && q'.tables.jobs[id] == q.tables.jobs[id] && q'.clock >= q.clock
  {
  }

  lemma WedgedWorker(q: Queue, a: QAct, id: nat)
    requires Wedged(q, id) && QEnabled(q, a) && !TableAct(a)
    ensures var q' := QDo(q, a);
      Wedged(q', id) && q'.tables.jobs[id] == q.tables.jobs[id] && q'.clock >= q.clock
  {
  }

  lemma {:induction false} WedgedFrom(qs: seq<Queue>, acts: seq<QAct>, id: nat, i: nat, k: nat)
    requires QRun(qs, acts) && i <= k < |qs|
    requires forall m :: 0 <= m < |acts| ==> AtomicReap(qs[m], acts[m]) && NonnegativeLease(acts[m])
    requires Wedged(qs[i], id)
    ensures Wedged(qs[k], id) && qs[k].tables.jobs[id] == qs[i].tables.jobs[id] && qs[k].clock >= qs[i].clock
  {
    if k > i {
      WedgedFrom(qs, acts, id, i, k - 1);
      ConservedRun(qs, acts, k - 1);
      ReapCleanRun(qs, acts, k - 1);
      WedgedStep(qs[k - 1], acts[k - 1], id);
    }
  }

  lemma {:induction false} ReapCleanRun(qs: seq<Queue>, acts: seq<QAct>, i: nat)
    requires QRun(qs, acts) && i < |qs|
    requires forall m :: 0 <= m < |acts| ==> NonnegativeLease(acts[m])
    ensures ReapClean(qs[i])
  {
    if i > 0 {
      ReapCleanRun(qs, acts, i - 1);
      ReapCleanStep(qs[i - 1], acts[i - 1]);
    }
  }

  /**
   One crash between the two statements of MoveToDead stops the reaper for good.
   Once such a job's lease has run out and nobody works on it, then in every
   continuation with an atomic reaper and nonnegative leases its row never changes and
   no reaping statement changes anything: no lease of any job, expired now or later,
   is ever reaped again.
   */
  lemma ReaperStopsForGood(qs: seq<Queue>, acts: seq<QAct>, id: nat, i: nat, k: nat)
    requires QRun(qs, acts) && i <= k < |acts|
    requires forall m :: 0 <= m < |acts| ==> AtomicReap(qs[m], acts[m]) && NonnegativeLease(acts[m])
    requires Wedged(qs[i], id) && Expired(qs[i].tables.jobs[id], qs[i].clock)
    ensures id in qs[k + 1].tables.jobs && qs[k + 1].tables.jobs[id] == qs[i].tables.jobs[id]
    ensures acts[k].ReapFirst? || acts[k].ReapSecond? ==> qs[k + 1] == qs[k]
  {
    WedgedFrom(qs, acts, id, i, k);
    ConservedRun(qs, acts, k);
    ReapCleanRun(qs, acts, k);
    WedgedStep(qs[k], acts[k], id);
  }

  /** The fatal state is reached by workers that are timely, with one enqueue and one crash. */
  lemma OneCrashSuffices(q0: Queue) returns (qs: seq<Queue>, acts: seq<QAct>)
    requires QInit(q0)
    ensures QRun(qs, acts) && qs[0] == q0
    ensures forall m :: 0 <= m < |acts| ==>
      Timely(qs[m], acts[m]) && AtomicReap(qs[m], acts[m]) && NonnegativeLease(acts[m])
    ensures Wedged(qs[|acts|], 0) && Expired(qs[|acts|].tables.jobs[0], qs[|acts|].clock)
  {
    var q1 := QDo(q0, Enqueue(AlertWebhook, 5, q0.clock, 1));
    var q2 := QDo(q1, Claim(0, 30));
    var q3 := QDo(q2, Return(0, false));
    var q4 := QDo(q3, DeadInsert(0));
    var q5 := QDo(q4, Crash(0));
    var q6 := QDo(q5, Tick(31));
    qs := [q0, q1, q2, q3, q4, q5, q6];
    acts := [Enqueue(AlertWebhook, 5, q0.clock, 1), Claim(0, 30), Return(0, false), DeadInsert(0), Crash(0), Tick(31)];
  }
}
