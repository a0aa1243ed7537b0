/**
 How often one job can be claimed.  `attempts` is counted at each claim, and a
 failing execution decides between Retry and MoveToDead by the snapshot its own
 claim returned, so executions that outlive their leases can requeue a job that
 has already used up its attempts, also in a later life of the job.
 */
module RetryBound {
  import opened Prelude
  import opened JobTables
  import opened QueueMachine
  import opened QueueSafety

  /**
   A life of a job: from its enqueue or replay, with cap m.  Its own executions are those
   from number `since` on; `inherited` counts the executions of earlier lives that could
   still Retry when it began.
   */
  datatype Life = Life(id: nat, m: int, since: nat, inherited: nat)

  /** Outstanding executions of this life whose snapshot still allows a Retry. */
  function Low(q: Queue, f: Life): set<nat> {
    set e | e in q.execs && q.execs[e].job == f.id && e >= f.since && q.execs[e].attempts < f.m
  }

  /** Outstanding executions of earlier lives whose snapshot still allows a Retry. */
  function Heirs(q: Queue, f: Life): set<nat> {
    set e | e in q.execs && q.execs[e].job == f.id && e < f.since && q.execs[e].attempts < q.execs[e].maxAttempts
  }

  /** The snapshots of this life are distinct, between 1 and the current count, and carry its cap. */
  ghost predicate Snapshots(q: Queue, f: Life) {
    && (f.id in q.tables.jobs ==> q.tables.jobs[f.id].maxAttempts == f.m)
    && (forall e :: e in q.execs && q.execs[e].job == f.id && e >= f.since ==>
          q.execs[e].maxAttempts == f.m && 1 <= q.execs[e].attempts)
    && (f.id in q.tables.jobs ==>
          forall e :: e in q.execs && q.execs[e].job == f.id && e >= f.since ==>
            q.execs[e].attempts <= q.tables.jobs[f.id].attempts)
    && (forall d, e :: d in q.execs && e in q.execs && d != e && d >= f.since && e >= f.since
                       && q.execs[d].job == f.id && q.execs[e].job == f.id ==>
          q.execs[d].attempts != q.execs[e].attempts)
  }

  function Waiting(j: Job): nat {
    if j.status == Queued then 1 else 0
  }

  /** Once the cap is reached, each further claim is paid for by one execution that may still Retry. */
  ghost predicate Budgeted(q: Queue, f: Life) {
    && f.since <= q.nextExec && |Heirs(q, f)| <= f.inherited
    && (f.id in q.tables.jobs && q.tables.jobs[f.id].attempts >= f.m ==>
          q.tables.jobs[f.id].attempts + Waiting(q.tables.jobs[f.id]) + |Low(q, f)| + |Heirs(q, f)|
          <= 2 * f.m - 1 + f.inherited)
  }

  /** A set of executions with distinct snapshots in 1..m-1 has at most m-1 members. */
  lemma {:induction false} DistinctSnapshots(q: Queue, s: set<nat>, m: nat)
    requires m >= 1
    requires forall e :: e in s ==> e in q.execs && 1 <= q.execs[e].attempts < m
    requires forall e, f :: e in s && f in s && e != f ==> q.execs[e].attempts != q.execs[f].attempts
    ensures |s| <= m - 1
  {
    if m == 1 {
      assert s == {};
    } else if top :| top in s && q.execs[top].attempts == m - 1 {
      DistinctSnapshots(q, s - {top}, m - 1);
    } else {
      DistinctSnapshots(q, s, m - 1);
    }
  }

  /** A step that touches neither the row of `id` nor the executions of `id`. */
  ghost predicate Untouched(q: Queue, q': Queue, id: nat) {
    && q'.nextExec >= q.nextExec
    && (id in q'.tables.jobs ==> id in q.tables.jobs && q'.tables.jobs[id] == q.tables.jobs[id])
    && (forall e :: e in q'.execs && q'.execs[e].job == id ==>
          e in q.execs && q.execs[e].job == id && q.execs[e].attempts == q'.execs[e].attempts
          && q.execs[e].maxAttempts == q'.execs[e].maxAttempts)
  }

  lemma SubsetSize(a: set<nat>, b: set<nat>)
    requires a <= b
    ensures |a| <= |b|
  {
    assert b == a + (b - a);
  }

  lemma LowShrinks(q: Queue, q': Queue, f: Life)
    requires forall e :: e in q'.execs && q'.execs[e].job == f.id ==>
      e in q.execs && q.execs[e].job == f.id && q.execs[e].attempts == q'.execs[e].attempts
      && q.execs[e].maxAttempts == q'.execs[e].maxAttempts
    ensures |Low(q', f)| <= |Low(q, f)| && |Heirs(q', f)| <= |Heirs(q, f)|
  {
    assert Low(q', f) <= Low(q, f) && Heirs(q', f) <= Heirs(q, f);
    SubsetSize(Low(q', f), Low(q, f));
    SubsetSize(Heirs(q', f), Heirs(q, f));
  }

  lemma UntouchedKeeps(q: Queue, q': Queue, f: Life)
    requires Untouched(q, q', f.id) && Snapshots(q, f) && Budgeted(q, f)
    ensures Snapshots(q', f) && Budgeted(q', f)
  {
    LowShrinks(q, q', f);
  }

  lemma ClaimSnapshots(q: Queue, f: Life, lease: int)
    requires f.m >= 1 && Logged(q) && Snapshots(q, f) && QEnabled(q, Claim(f.id, lease))
    ensures Snapshots(QDo(q, Claim(f.id, lease)), f)
  {
  }

  lemma ClaimKeeps(q: Queue, f: Life, lease: int)
    requires f.m >= 1 && Logged(q) && Snapshots(q, f) && Budgeted(q, f) && QEnabled(q, Claim(f.id, lease))
    ensures Budgeted(QDo(q, Claim(f.id, lease)), f)
  {
    var q' := QDo(q, Claim(f.id, lease));
    var j := q.tables.jobs[f.id];
    assert q.nextExec !in q.execs;
    assert Heirs(q', f) == Heirs(q, f);
    if j.attempts + 1 >= f.m {
      assert Low(q', f) == Low(q, f) by {
        assert q'.execs[q.nextExec].attempts >= f.m;
      }
      if j.attempts < f.m {
        DistinctSnapshots(q, Low(q, f), f.m);
      }
    }
  }

  lemma RetryKeeps(q: Queue, e: nat, f: Life, at: int)
    requires f.m >= 1 && Snapshots(q, f) && Budgeted(q, f)
    requires QEnabled(q, Retry(e, at)) && q.execs[e].job == f.id
    ensures Snapshots(QDo(q, Retry(e, at)), f) && Budgeted(QDo(q, Retry(e, at)), f)
  {
    var q' := QDo(q, Retry(e, at));
    if e >= f.since {
      assert e in Low(q, f);
    } else {
      assert e in Heirs(q, f);
    }
    assert Low(q', f) == Low(q, f) - {e} && Heirs(q', f) == Heirs(q, f) - {e};
  }

  lemma RestStatus(q: Queue, a: QAct, f: Life)
    requires f.m >= 1 && ReapClean(q) && Snapshots(q, f) && Budgeted(q, f)
    requires QEnabled(q, a) && AtomicReap(q, a) && (a.ReapSecond? || (a.Complete? && q.execs[a.e].job == f.id))
    ensures Snapshots(QDo(q, a), f) && Budgeted(QDo(q, a), f)
  {
    LowShrinks(q, QDo(q, a), f);
  }

  /** A step outside the three interesting kinds leaves the job's record alone. */
  lemma OtherStepsUntouched(q: Queue, a: QAct, id: nat)
    requires Logged(q) && id < |q.log| && QEnabled(q, a) && a != Replay(id)
    requires !(a.Claim? && a.id == id) && !(a.Retry? && q.execs[a.e].job == id)
    requires !a.ReapSecond? && !(a.Complete? && q.execs[a.e].job == id)
    ensures Untouched(q, QDo(q, a), id)
  {
    if a.Claim? {
      OtherClaim(q, a, id);
    }
  }

  lemma OtherClaim(q: Queue, a: QAct, id: nat)
    requires QEnabled(q, a) && a.Claim? && a.id != id
    ensures Untouched(q, QDo(q, a), id)
  {
  }

  lemma BudgetStep(q: Queue, a: QAct, f: Life)
    requires f.m >= 1 && Logged(q) && ReapClean(q) && f.id < |q.log|
    requires Snapshots(q, f) && Budgeted(q, f)
    requires QEnabled(q, a) && AtomicReap(q, a) && a != Replay(f.id)
    ensures Snapshots(QDo(q, a), f) && Budgeted(QDo(q, a), f)
  {
    if a.Claim? && a.id == f.id {
      ClaimSnapshots(q, f, a.lease);
      ClaimKeeps(q, f, a.lease);
    } else if a.Retry? && q.execs[a.e].job == f.id {
      RetryKeeps(q, a.e, f, a.at);
    } else if a.ReapSecond? || (a.Complete? && q.execs[a.e].job == f.id) {
      RestStatus(q, a, f);
    } else {
      OtherStepsUntouched(q, a, f.id);
      UntouchedKeeps(q, QDo(q, a), f);
    }
  }

  // ------------------------------------------------------------------ one life

  /** Step `born` begins the life f: it enqueues the job with cap m, or replays it with the default cap. */
  ghost predicate Begins(qs: seq<Queue>, acts: seq<QAct>, born: nat, f: Life)
    requires QRun(qs, acts) && born < |acts|
  {
    && (|| (acts[born].Enqueue? && acts[born].maxAttempts == f.m && f.id == |qs[born].log|)
        || (acts[born] == Replay(f.id) && f.m == DEFAULT_MAX_ATTEMPTS))
    && f.since == qs[born].nextExec && f.inherited == |Heirs(qs[born], f)|
  }

  /** No later step replays the job; the reaper is atomic and leases are nonnegative. */
  ghost predicate LivesOn(qs: seq<Queue>, acts: seq<QAct>, born: nat, id: nat) {
    && |qs| == |acts| + 1
    && (forall i :: 0 <= i < |acts| ==> NonnegativeLease(acts[i]) && AtomicReap(qs[i], acts[i]))
    && (forall i :: born < i < |acts| ==> acts[i] != Replay(id))
  }

  lemma {:induction false} BudgetRun(qs: seq<Queue>, acts: seq<QAct>, born: nat, f: Life, k: nat)
    requires QRun(qs, acts) && born < |acts| && Begins(qs, acts, born, f) && LivesOn(qs, acts, born, f.id)
    requires f.m >= 1 && born < k < |qs|
    ensures f.id < |qs[k].log| && Snapshots(qs[k], f) && Budgeted(qs[k], f)
  {
    if k > born + 1 {
      BudgetRun(qs, acts, born, f, k - 1);
      BudgetNext(qs, acts, born, f, k - 1);
    } else {
      assert Logged(qs[born]) by {
        ConservedRun(qs, acts, born);
      }
      JustBorn(qs[born], acts[born], f);
    }
  }

  lemma BudgetNext(qs: seq<Queue>, acts: seq<QAct>, born: nat, f: Life, k: nat)
    requires QRun(qs, acts) && LivesOn(qs, acts, born, f.id) && f.m >= 1 && born < k < |acts|
    requires f.id < |qs[k].log| && Snapshots(qs[k], f) && Budgeted(qs[k], f)
    ensures f.id < |qs[k + 1].log| && Snapshots(qs[k + 1], f) && Budgeted(qs[k + 1], f)
  {
    assert Logged(qs[k]) by {
      ConservedRun(qs, acts, k);
    }
    ReapCleanRun(qs, acts, k);
    BudgetStep(qs[k], acts[k], f);
  }

  lemma JustBorn(q: Queue, a: QAct, f: Life)
    requires Logged(q) && QEnabled(q, a) && f.m >= 1 && f.since == q.nextExec && f.inherited == |Heirs(q, f)|
    requires (a.Enqueue? && a.maxAttempts == f.m && f.id == |q.log|)
             || (a == Replay(f.id) && f.m == DEFAULT_MAX_ATTEMPTS)
    ensures var q' := QDo(q, a);
      f.id < |q'.log| && Snapshots(q', f) && Budgeted(q', f)
  {
    var q' := QDo(q, a);
    assert forall e :: e in q'.execs ==> e < f.since;
    assert Heirs(q', f) == Heirs(q, f);
  }

  /**
   Retry bound with stale workers: within one life of a job with cap m >= 1 the count of
   claims never exceeds 2m - 1 plus the number of executions of earlier lives that could
   still Retry when the life began, whatever executions outlive their leases.
   */
  lemma LifeBound(qs: seq<Queue>, acts: seq<QAct>, born: nat, f: Life, k: nat)
    requires QRun(qs, acts) && born < |acts| && Begins(qs, acts, born, f) && LivesOn(qs, acts, born, f.id)
    requires f.m >= 1 && born < k < |qs|
    ensures f.id in qs[k].tables.jobs ==> qs[k].tables.jobs[f.id].attempts <= 2 * f.m - 1 + f.inherited
  {
    BudgetRun(qs, acts, born, f, k);
  }

  /** The job `id` is created by step `born` with the cap `m`. */
  ghost predicate BornAt(qs: seq<Queue>, acts: seq<QAct>, born: nat, id: nat, m: int)
    requires QRun(qs, acts) && born < |acts|
  {
    acts[born].Enqueue? && acts[born].maxAttempts == m && id == |qs[born].log|
  }

  /** No step replays `id`; the reaper is atomic and leases are nonnegative. */
  ghost predicate OneLife(qs: seq<Queue>, acts: seq<QAct>, id: nat) {
    && |qs| == |acts| + 1
    && (forall i :: 0 <= i < |acts| ==>
          acts[i] != Replay(id) && NonnegativeLease(acts[i]) && AtomicReap(qs[i], acts[i]))
  }

  /** The first life of a job inherits nothing. */
  lemma FirstLife(qs: seq<Queue>, acts: seq<QAct>, born: nat, id: nat, m: int) returns (f: Life)
    requires QRun(qs, acts) && born < |acts| && BornAt(qs, acts, born, id, m)
    ensures f == Life(id, m, qs[born].nextExec, 0) && Begins(qs, acts, born, f)
  {
    f := Life(id, m, qs[born].nextExec, 0);
    ConservedRun(qs, acts, born);
    assert Heirs(qs[born], f) == {};
  }

  /** In the first life of a job with cap m >= 1 the count of claims never exceeds 2m - 1. */
  lemma AttemptsBound(qs: seq<Queue>, acts: seq<QAct>, born: nat, id: nat, m: int, k: nat)
    requires QRun(qs, acts) && born < |acts| && BornAt(qs, acts, born, id, m) && OneLife(qs, acts, id)
    requires m >= 1 && born < k < |qs|
    ensures id in qs[k].tables.jobs ==> qs[k].tables.jobs[id].attempts <= 2 * m - 1
  {
    var f := FirstLife(qs, acts, born, id, m);
    LifeBound(qs, acts, born, f, k);
  }

  // ------------------------------------------------------------- timely workers

  /** With timely workers a job waits only while it has attempts left, and no earlier execution is live. */
  ghost predicate WithinCap(q: Queue, f: Life) {
    && (f.id in q.tables.jobs ==>
          var j := q.tables.jobs[f.id];
          j.attempts <= f.m && (j.status == Queued ==> j.attempts < f.m))
    && (forall e: nat :: Live(q, e) && q.execs[e].job == f.id ==>
          e >= f.since && f.id in q.tables.jobs && q.execs[e].attempts == q.tables.jobs[f.id].attempts)
  }

  lemma WithinCapStep(q: Queue, a: QAct, f: Life)
    requires f.m >= 1 && Logged(q) && ReapClean(q) && Exclusive(q, f.id) && f.id < |q.log| && f.since <= q.nextExec
    requires Snapshots(q, f) && WithinCap(q, f)
    requires QEnabled(q, a) && AtomicReap(q, a) && TimelyOn(q, a, f.id) && a != Replay(f.id)
    ensures WithinCap(QDo(q, a), f)
  {
    if TableAct(a) {
      WithinCapTables(q, a, f);
    } else if a.Claim? {
      WithinCapClaim(q, a, f);
    } else {
      WithinCapWorker(q, a, f);
    }
  }

  lemma WithinCapTables(q: Queue, a: QAct, f: Life)
    requires ReapClean(q) && Exclusive(q, f.id) && f.id < |q.log|
    requires f.id in q.tables.jobs ==> q.tables.jobs[f.id].maxAttempts == f.m
    requires WithinCap(q, f)
    requires QEnabled(q, a) && AtomicReap(q, a) && a != Replay(f.id) && TableAct(a)
    ensures WithinCap(QDo(q, a), f)
  {
    var q' := QDo(q, a);
    assert forall e: nat :: Live(q', e) ==> Live(q, e) && q'.execs[e] == q.execs[e];
  }

  lemma WithinCapClaim(q: Queue, a: QAct, f: Life)
    requires Exclusive(q, f.id) && WithinCap(q, f) && f.since <= q.nextExec && QEnabled(q, a) && a.Claim?
    ensures WithinCap(QDo(q, a), f)
  {
    var q' := QDo(q, a);
    assert forall e: nat :: Live(q', e) && e != q.nextExec ==> Live(q, e) && q'.execs[e] == q.execs[e];
  }

  lemma WithinCapWorker(q: Queue, a: QAct, f: Life)
    requires f.m >= 1 && Exclusive(q, f.id) && Snapshots(q, f) && WithinCap(q, f)
    requires QEnabled(q, a) && TimelyOn(q, a, f.id) && !TableAct(a) && !a.Claim?
    ensures WithinCap(QDo(q, a), f)
  {
    if a.Crash? || a.Return? || q.execs[a.e].job != f.id {
      WithinCapStranger(q, a, f);
    } else {
      WithinCapOwn(q, a, f);
    }
  }

  /** A crash, a handler's return or the statement of another job's execution leaves the row alone. */
  lemma WithinCapStranger(q: Queue, a: QAct, f: Life)
    requires WithinCap(q, f) && QEnabled(q, a) && !TableAct(a) && !a.Claim?
    requires a.Crash? || a.Return? || q.execs[a.e].job != f.id
    ensures WithinCap(QDo(q, a), f)
  {
    var q' := QDo(q, a);
    assert f.id in q'.tables.jobs <==> f.id in q.tables.jobs;
    assert f.id in q.tables.jobs ==> q'.tables.jobs[f.id] == q.tables.jobs[f.id];
    assert forall e :: Live(q', e) ==>
      Live(q, e) && q'.execs[e].job == q.execs[e].job && q'.execs[e].attempts == q.execs[e].attempts;
  }

  /** The job's one live execution ends, and takes the row with it or leaves it with attempts to spare. */
  lemma WithinCapOwn(q: Queue, a: QAct, f: Life)
    requires f.m >= 1 && Exclusive(q, f.id) && Snapshots(q, f) && WithinCap(q, f)
    requires QEnabled(q, a) && TimelyOn(q, a, f.id) && !TableAct(a) && !a.Claim? && !a.Crash? && !a.Return?
    requires q.execs[a.e].job == f.id
    ensures WithinCap(QDo(q, a), f)
  {
    var q' := QDo(q, a);
    assert Live(q, a.e);
    assert forall e :: Live(q', e) && e != a.e ==> Live(q, e) && q'.execs[e] == q.execs[e] && q.execs[e].job != f.id;
  }

  lemma {:induction false} ExclusiveRun(qs: seq<Queue>, acts: seq<QAct>, id: nat, k: nat)
    requires QRun(qs, acts) && k < |qs|
    requires forall i :: 0 <= i < |acts| ==> TimelyOn(qs[i], acts[i], id)
    ensures Exclusive(qs[k], id)
  {
    if k > 0 {
      ExclusiveRun(qs, acts, id, k - 1);
      assert Logged(qs[k - 1]) by {
        ConservedRun(qs, acts, k - 1);
      }
      ExclusiveStep(qs[k - 1], acts[k - 1], id);
    }
  }

  /** The facts about one state of a timely life that WithinCapStep needs. */
  lemma StateFacts(qs: seq<Queue>, acts: seq<QAct>, born: nat, f: Life, k: nat)
    requires QRun(qs, acts) && born < |acts| && Begins(qs, acts, born, f) && LivesOn(qs, acts, born, f.id)
    requires forall i :: 0 <= i < |acts| ==> TimelyOn(qs[i], acts[i], f.id)
    requires f.m >= 1 && born < k < |qs|
    ensures Logged(qs[k]) && ReapClean(qs[k]) && Exclusive(qs[k], f.id) && f.id < |qs[k].log|
    ensures f.since <= qs[k].nextExec && Snapshots(qs[k], f)
  {
    assert Logged(qs[k]) by {
      ConservedRun(qs, acts, k);
    }
    assert f.id < |qs[k].log| && Snapshots(qs[k], f) && f.since <= qs[k].nextExec by {
      BudgetRun(qs, acts, born, f, k);
    }
    ReapCleanRun(qs, acts, k);
    ExclusiveRun(qs, acts, f.id, k);
  }

  lemma CapAtBirth(q: Queue, a: QAct, f: Life)
    requires Logged(q) && Exclusive(q, f.id) && QEnabled(q, a) && f.m >= 1
    requires (a.Enqueue? && a.maxAttempts == f.m && f.id == |q.log|)
             || (a == Replay(f.id) && f.m == DEFAULT_MAX_ATTEMPTS)
    ensures WithinCap(QDo(q, a), f)
  {
    assert forall e: nat :: Live(QDo(q, a), e) ==> Live(q, e) && q.execs[e].job != f.id;
  }

  lemma {:induction false} WithinCapRun(qs: seq<Queue>, acts: seq<QAct>, born: nat, f: Life, k: nat)
    requires QRun(qs, acts) && born < |acts| && Begins(qs, acts, born, f) && LivesOn(qs, acts, born, f.id)
    requires forall i :: 0 <= i < |acts| ==> TimelyOn(qs[i], acts[i], f.id)
    requires f.m >= 1 && born < k < |qs|
    ensures WithinCap(qs[k], f)
  {
    if k > born + 1 {
      WithinCapRun(qs, acts, born, f, k - 1);
      StateFacts(qs, acts, born, f, k - 1);
      WithinCapStep(qs[k - 1], acts[k - 1], f);
    } else {
      assert Logged(qs[born]) by {
        ConservedRun(qs, acts, born);
      }
      ExclusiveRun(qs, acts, f.id, born);
      CapAtBirth(qs[born], acts[born], f);
    }
  }

  /** Retry bound when the job's own executions are timely: in every life, the cap itself. */
  lemma AttemptsWithinCap(qs: seq<Queue>, acts: seq<QAct>, born: nat, f: Life, k: nat)
    requires QRun(qs, acts) && born < |acts| && Begins(qs, acts, born, f) && LivesOn(qs, acts, born, f.id)
    requires forall i :: 0 <= i < |acts| ==> TimelyOn(qs[i], acts[i], f.id)
    requires f.m >= 1 && born < k < |qs|
    ensures f.id in qs[k].tables.jobs ==> qs[k].tables.jobs[f.id].attempts <= f.m
  {
    WithinCapRun(qs, acts, born, f, k);
  }
}
