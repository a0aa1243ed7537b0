/** Guarantees about orders and recurring work that need both the queue and the ledger. */
module EndToEnd {
  import opened Prelude
  import opened Model
  import opened JobTables
  import Q = QueueMachine
  import L = LedgerMachine
  import opened System
  import opened SystemSafety

  // ------------------------------------------------------ no order is stranded

  predicate PendingOrder(s: Sys, o: nat) {
    o < |s.orders| && s.orders[o].status == Pending
  }

  /** ExecuteOrder returns nil, and its job is done, only once the order is no longer pending. */
  ghost predicate NilMeansDecided(s: Sys) {
    && (forall e :: e in s.q.execs && e in s.pcs && s.pcs[e] == Finished && s.q.execs[e].kind.ExecuteOrder? ==>
          !PendingOrder(s, s.q.execs[e].kind.order))
    && (forall j :: j in s.q.tables.jobs && s.q.tables.jobs[j].status == Done
                    && s.q.tables.jobs[j].kind.ExecuteOrder? ==>
          !PendingOrder(s, s.q.tables.jobs[j].kind.order))
  }

  /** No step makes an existing order pending again. */
  lemma NeverPendingAgain(s: Sys, a: Act, s': Sys, o: nat)
    requires Next(s, a, s') && o < |s.orders| && s.orders[o].status != Pending
    requires Decides(s, a)
    ensures o < |s'.orders| && s'.orders[o].status != Pending
  {
  }

  lemma CommitStatus(s: Sys, e: nat)
    requires SysOk(s) && e in s.l.txs && s.l.txs[e].Writing? && s.l.txs[e].stage == L.Close
    ensures s.l.txs[e].buf.status == Some(Filled) || s.l.txs[e].buf.status == Some(Rejected)
    ensures s.l.txs[e].buf.settle <==> s.l.txs[e].buf.status == Some(Filled)
  {
    var p := s.l.txs[e].ctx.terms.portfolio;
    assert L.AccountOk(s.l, p);
    L.CommitIsBody(s.l.accounts[p], s.l.txs[e]);
  }

  /** A commit fills the order and schedules its settlement, or rejects it. */
  predicate Decides(s: Sys, a: Act) {
    a.CommitTx? && a.e in s.l.txs && s.l.txs[a.e].Writing? ==>
      var buf := s.l.txs[a.e].buf;
      (buf.status == Some(Filled) || buf.status == Some(Rejected)) && (buf.settle <==> buf.status == Some(Filled))
  }

  /** The only ways in which an order changes: a cancel, a rejection, the commit of its transaction, its settlement. */
  lemma StatusMoves(s: Sys, a: Act, s': Sys, o: nat)
    requires Next(s, a, s') && Decides(s, a) && o < |s.orders| && o < |s'.orders| && s'.orders[o] != s.orders[o]
    ensures || (a == CancelWrite(o) && s'.orders[o] == s.orders[o].(status := Cancelled))
      || (a.RejectOrder? && s.q.execs[a.e].kind == ExecuteOrder(o) && s'.orders[o] == s.orders[o].(status := Rejected))
      || (a.CommitTx? && s.q.execs[a.e].kind == ExecuteOrder(o)
          && (|| s'.orders[o] == s.orders[o].(status := Rejected)
              || s'.orders[o] == s.orders[o].(status := Filled, fillPrice := Some(s.l.txs[a.e].ctx.price))))
      || (a.WriteSettled? && s.q.execs[a.e].kind == Settle(o) && s'.orders[o] == s.orders[o].(status := Settled))
  {
    assert s'.orders == OrdersAfter(s, a);
  }

  /** The invariants of the states around step k that the lemmas about single steps need. */
  lemma StepFacts(ss: seq<Sys>, acts: seq<Act>, k: nat)
    requires Run(ss, acts) && k < |acts|
    ensures Next(ss[k], acts[k], ss[k + 1]) && Decides(ss[k], acts[k])
    ensures Outboxed(ss[k]) && Q.Logged(ss[k].q) && Q.Logged(ss[k + 1].q) && HandlersOk(ss[k])
    ensures acts[k].QueueStep? && acts[k].qa.Complete? ==>
      acts[k].qa.e in ss[k].q.execs && HandlerOk(ss[k], acts[k].qa.e)
  {
    assert Q.Logged(ss[k + 1].q) by {
      SysOkRun(ss, acts, k + 1);
    }
    SysOkRun(ss, acts, k);
    assert StepAt(ss, acts, k);
    if acts[k].CommitTx? {
      CommitStatus(ss[k], acts[k].e);
    }
  }

  /** A job is done because it was, or because an execution whose handler returned nil completes it. */
  lemma DoneComesFromNil(s: Sys, a: Act, s': Sys, j: nat)
    requires Next(s, a, s') && j in s'.q.tables.jobs && s'.q.tables.jobs[j].status == Done
    ensures (j in s.q.tables.jobs && s'.q.tables.jobs[j] == s.q.tables.jobs[j])
      || (a.QueueStep? && a.qa.Complete? && s.q.execs[a.qa.e].job == j && j in s.q.tables.jobs)
  {
    if QPart(s, a).Some? {
      Q.DoneByComplete(s.q, QPart(s, a).value, j);
    }
  }

  /** The step at which a handler comes to its return of nil. */
  predicate Finishes(a: Act, e: nat) {
    (a.ReadOrder? || a.RejectOrder? || a.CommitTx? || a.ReadSettle? || a.WriteSettled? || a.Rearm? || a.OtherDone?)
    && a.e == e
  }

  lemma FinishedComesFrom(s: Sys, a: Act, s': Sys, e: nat)
    requires Next(s, a, s') && e in s'.q.execs && e in s'.pcs && s'.pcs[e] == Finished
    ensures e in s.q.execs && e in s.pcs && s'.q.execs[e].job == s.q.execs[e].job
    ensures s'.q.execs[e].kind == s.q.execs[e].kind
    ensures s.pcs[e] == Finished || Finishes(a, e)
  {
    ExecComesFrom(s, a, s', e);
  }

  /** Whatever brings ExecuteOrder to its return of nil, the order is not pending then. */
  lemma FinishDecides(s: Sys, a: Act, s': Sys, e: nat)
    requires Next(s, a, s') && Finishes(a, e) && e in s.q.execs && s.q.execs[e].kind.ExecuteOrder?
    requires s'.pcs[e] == Finished
    requires Decides(s, a)
    ensures !PendingOrder(s', s.q.execs[e].kind.order)
  {
  }

  /** Jobs of executions, and rows, name orders that exist. */
  lemma OrderExists(s: Sys, j: nat)
    requires Outboxed(s) && j < |s.q.log| && s.q.log[j].ExecuteOrder?
    ensures s.q.log[j].order < |s.orders|
  {
  }

  /** Where ExecuteOrder has come to its return of nil, the order is decided. */
  lemma NilExecs(s: Sys, a: Act, s': Sys, e: nat, o: nat)
    requires Next(s, a, s') && Decides(s, a) && o < |s.orders|
    requires e in s'.q.execs && e in s'.pcs && s'.pcs[e] == Finished && s'.q.execs[e].kind == ExecuteOrder(o)
    requires e in s.q.execs && e in s.pcs && s.pcs[e] == Finished ==> !PendingOrder(s, o)
    ensures !PendingOrder(s', o)
  {
    FinishedComesFrom(s, a, s', e);
    if Finishes(a, e) {
      FinishDecides(s, a, s', e);
    } else {
      NeverPendingAgain(s, a, s', o);
    }
  }

  /** Where its job is done, the order is decided. */
  lemma NilJobs(s: Sys, a: Act, s': Sys, j: nat, o: nat)
    requires Next(s, a, s') && Decides(s, a) && o < |s.orders|
    requires j in s'.q.tables.jobs && s'.q.tables.jobs[j].status == Done
    requires j in s.q.tables.jobs && s.q.tables.jobs[j].status == Done ==> !PendingOrder(s, o)
    requires a.QueueStep? && a.qa.Complete? && s.q.execs[a.qa.e].job == j ==> !PendingOrder(s, o)
    ensures !PendingOrder(s', o)
  {
    DoneComesFromNil(s, a, s', j);
    NeverPendingAgain(s, a, s', o);
  }

  lemma NilMeansDecidedStep(s: Sys, a: Act, s': Sys)
    requires Outboxed(s) && Q.Logged(s.q) && Q.Logged(s'.q) && NilMeansDecided(s) && Next(s, a, s')
    requires Decides(s, a)
    requires a.QueueStep? && a.qa.Complete? ==> HandlerOk(s, a.qa.e)
    ensures NilMeansDecided(s')
  {
    forall e | e in s'.q.execs && e in s'.pcs && s'.pcs[e] == Finished && s'.q.execs[e].kind.ExecuteOrder?
      ensures !PendingOrder(s', s'.q.execs[e].kind.order)
    {
      FinishedComesFrom(s, a, s', e);
      OrderExists(s, s.q.execs[e].job);
      NilExecs(s, a, s', e, s.q.execs[e].kind.order);
    }
    forall j | j in s'.q.tables.jobs && s'.q.tables.jobs[j].status == Done && s'.q.tables.jobs[j].kind.ExecuteOrder?
      ensures !PendingOrder(s', s'.q.tables.jobs[j].kind.order)
    {
      DoneComesFromNil(s, a, s', j);
      LogStep(s, a, s');
      OrderExists(s, j);
      NilJobs(s, a, s', j, s.q.log[j].order);
    }
  }

  lemma NilMeansDecidedNext(ss: seq<Sys>, acts: seq<Act>, k: nat)
    requires Run(ss, acts) && k < |acts| && NilMeansDecided(ss[k])
    ensures NilMeansDecided(ss[k + 1])
  {
    StepFacts(ss, acts, k);
    NilMeansDecidedStep(ss[k], acts[k], ss[k + 1]);
  }

  lemma {:induction false} NilMeansDecidedRun(ss: seq<Sys>, acts: seq<Act>, i: nat)
    requires Run(ss, acts) && i < |ss|
    ensures NilMeansDecided(ss[i])
  {
    if i > 0 {
      NilMeansDecidedRun(ss, acts, i - 1);
      NilMeansDecidedNext(ss, acts, i - 1);
    }
  }

  /** The job still has to run: queued or inflight, or waiting in the dead letters for a replay. */
  predicate Outstanding(s: Sys, j: nat) {
    (j in s.q.tables.jobs && s.q.tables.jobs[j].status != Done) || j in s.q.tables.dead
  }

  /**
   No order is stranded.  In every state of every run, with stale workers, crashes,
   reaping and replays, the job that was enqueued with a pending order is queued,
   inflight or dead-lettered.
   */
  lemma NoOrderStranded(ss: seq<Sys>, acts: seq<Act>, i: nat, o: nat)
    requires Run(ss, acts) && i < |ss| && PendingOrder(ss[i], o)
    ensures |ss[i].outbox| == |ss[i].orders| && ss[i].outbox[o] < |ss[i].q.log|
    ensures ss[i].q.log[ss[i].outbox[o]] == ExecuteOrder(o) && Outstanding(ss[i], ss[i].outbox[o])
  {
    SysOkRun(ss, acts, i);
    NilMeansDecidedRun(ss, acts, i);
    var j := ss[i].outbox[o];
    assert j in ss[i].q.tables.jobs || j in ss[i].q.tables.dead;
  }

  // ------------------------------------------------- jobs that must not finish

  /** Nobody has finished job j: its row is not done and no execution is about to return nil. */
  ghost predicate Unfinished(s: Sys, j: nat) {
    && (j in s.q.tables.jobs ==> s.q.tables.jobs[j].status != Done)
    && (forall e :: e in s.q.execs && e in s.pcs && s.q.execs[e].job == j ==> s.pcs[e] != Finished)
  }

  lemma UnfinishedStep(s: Sys, a: Act, s': Sys, j: nat)
    requires HandlersOk(s) && Unfinished(s, j) && Next(s, a, s')
    requires forall e :: Finishes(a, e) && e in s.q.execs && s.q.execs[e].job == j ==> s'.pcs[e] != Finished
    ensures Unfinished(s', j)
  {
    assert a.QueueStep? && a.qa.Complete? ==> HandlerOk(s, a.qa.e) && s.q.execs[a.qa.e].job != j;
    if j in s'.q.tables.jobs && s'.q.tables.jobs[j].status == Done {
      DoneComesFromNil(s, a, s', j);
    }
    forall e | e in s'.q.execs && e in s'.pcs && s'.q.execs[e].job == j
      ensures s'.pcs[e] != Finished
    {
      if s'.pcs[e] == Finished {
        FinishedComesFrom(s, a, s', e);
      }
    }
  }

  /** A job enqueued by this step has not been claimed yet. */
  lemma FreshUnfinished(s: Sys, a: Act, s': Sys)
    requires Q.Logged(s.q) && Next(s, a, s') && Enqueued(s, a).Some?
    ensures Unfinished(s', |s.q.log|)
  {
  }

  // ----------------------------------------------------- settlement of every fill

  ghost predicate FilledWillSettle(s: Sys) {
    forall o :: 0 <= o < |s.orders| && s.orders[o].status == Filled ==>
      o in s.lastSettle && s.lastSettle[o] < |s.q.log| && s.q.log[s.lastSettle[o]] == Settle(o)
      && Unfinished(s, s.lastSettle[o])
  }

  /** An order is filled by the commit of its own transaction, or it was filled before. */
  lemma FilledComesFrom(s: Sys, a: Act, s': Sys, o: nat)
    requires Next(s, a, s') && o < |s'.orders| && s'.orders[o].status == Filled
    requires Decides(s, a)
    ensures if a.CommitTx? && s.l.txs[a.e].buf.settle && s.q.execs[a.e].kind.order == o
      then s'.lastSettle == s.lastSettle[o := |s.q.log|] && Enqueued(s, a) == Some(Settle(o))
      else o < |s.orders| && s.orders[o].status == Filled
           && (o in s.lastSettle ==> o in s'.lastSettle && s'.lastSettle[o] == s.lastSettle[o])
  {
  }

  /** While an order is filled, no execution of its settle job reaches its return of nil. */
  lemma SettlerHasNotFinished(s: Sys, a: Act, s': Sys, o: nat, e: nat)
    requires Next(s, a, s') && o < |s'.orders| && s'.orders[o].status == Filled
    requires Finishes(a, e) && e in s.q.execs && s.q.execs[e].kind == Settle(o)
    requires o < |s.orders| && s.orders[o].status == Filled
    ensures s'.pcs[e] != Finished
  {
  }

  lemma FilledStep(s: Sys, a: Act, s': Sys, o: nat)
    requires Q.Logged(s.q) && HandlersOk(s) && FilledWillSettle(s) && Next(s, a, s')
    requires Decides(s, a)
    requires o < |s'.orders| && s'.orders[o].status == Filled
    ensures o in s'.lastSettle && s'.lastSettle[o] < |s'.q.log| && s'.q.log[s'.lastSettle[o]] == Settle(o)
    ensures Unfinished(s', s'.lastSettle[o])
  {
    FilledComesFrom(s, a, s', o);
    LogStep(s, a, s');
    if a.CommitTx? && s.l.txs[a.e].buf.settle && s.q.execs[a.e].kind.order == o {
      FreshUnfinished(s, a, s');
    } else {
      var j := s.lastSettle[o];
      forall e | Finishes(a, e) && e in s.q.execs && s.q.execs[e].job == j
        ensures s'.pcs[e] != Finished
      {
        SettlerHasNotFinished(s, a, s', o, e);
      }
      UnfinishedStep(s, a, s', j);
    }
  }

  lemma {:induction false} FilledWillSettleRun(ss: seq<Sys>, acts: seq<Act>, i: nat)
    requires Run(ss, acts) && i < |ss|
    ensures FilledWillSettle(ss[i])
  {
    if i > 0 {
      FilledWillSettleRun(ss, acts, i - 1);
      StepFacts(ss, acts, i - 1);
      FilledNext(ss[i - 1], acts[i - 1], ss[i]);
    }
  }

  lemma FilledNext(s: Sys, a: Act, s': Sys)
    requires Q.Logged(s.q) && HandlersOk(s) && FilledWillSettle(s) && Next(s, a, s') && Decides(s, a)
    ensures FilledWillSettle(s')
  {
    forall o | 0 <= o < |s'.orders| && s'.orders[o].status == Filled
      ensures o in s'.lastSettle && s'.lastSettle[o] < |s'.q.log| && s'.q.log[s'.lastSettle[o]] == Settle(o)
              && Unfinished(s', s'.lastSettle[o])
    {
      FilledStep(s, a, s', o);
    }
  }

  /**
   Every filled order will be settled.  In every state of every run an order whose
   status is filled has a settle job that is queued, inflight or dead-lettered.
   */
  lemma FilledHasSettleJob(ss: seq<Sys>, acts: seq<Act>, i: nat, o: nat) returns (j: nat)
    requires Run(ss, acts) && i < |ss| && o < |ss[i].orders| && ss[i].orders[o].status == Filled
    ensures j < |ss[i].q.log| && ss[i].q.log[j] == Settle(o) && Outstanding(ss[i], j)
  {
    FilledWillSettleRun(ss, acts, i);
    SysOkRun(ss, acts, i);
    j := ss[i].lastSettle[o];
    assert j in ss[i].q.tables.jobs || j in ss[i].q.tables.dead;
  }

  // ------------------------------------------------------------- the poll chain

  /** The most recently enqueued poll_quotes job. */
  function LastPoll(log: seq<Kind>): (r: Option<nat>)
    ensures r.Some? ==> r.value < |log| && log[r.value] == PollQuotes
    ensures forall j :: 0 <= j < |log| && log[j] == PollQuotes ==> r.Some? && j <= r.value
  {
    if log == [] then None
    else if log[|log| - 1] == PollQuotes then Some(|log| - 1)
    else LastPoll(log[..|log| - 1])
  }

  ghost predicate PollAlive(s: Sys) {
    LastPoll(s.q.log).Some? ==> Unfinished(s, LastPoll(s.q.log).value)
  }

  lemma {:induction false} LastPollAppend(log: seq<Kind>, k: Kind)
    ensures LastPoll(log + [k]) == if k == PollQuotes then Some(|log|) else LastPoll(log)
  {
    assert (log + [k])[..|log|] == log;
  }

  /** A poll handler comes to its return of nil only by enqueueing its successor. */
  lemma PollFinishesByRearming(s: Sys, a: Act, s': Sys, e: nat)
    requires Next(s, a, s') && Finishes(a, e) && e in s.q.execs && s.q.execs[e].kind == PollQuotes
    ensures Enqueued(s, a) == Some(PollQuotes)
  {
  }

  lemma PollAliveStep(s: Sys, a: Act, s': Sys)
    requires Q.Logged(s.q) && HandlersOk(s) && PollAlive(s) && Next(s, a, s')
    ensures PollAlive(s')
  {
    LogStep(s, a, s');
    if Enqueued(s, a).Some? {
      LastPollAppend(s.q.log, Enqueued(s, a).value);
    }
    if Enqueued(s, a) == Some(PollQuotes) {
      FreshUnfinished(s, a, s');
    } else if LastPoll(s.q.log).Some? {
      var j := LastPoll(s.q.log).value;
      forall e | Finishes(a, e) && e in s.q.execs
        ensures s.q.execs[e].kind != PollQuotes
      {
        if s.q.execs[e].kind == PollQuotes {
          PollFinishesByRearming(s, a, s', e);
        }
      }
      UnfinishedStep(s, a, s', j);
    }
  }

  lemma {:induction false} PollAliveRun(ss: seq<Sys>, acts: seq<Act>, i: nat)
    requires Run(ss, acts) && i < |ss|
    ensures PollAlive(ss[i])
  {
    if i > 0 {
      PollAliveRun(ss, acts, i - 1);
      StepFacts(ss, acts, i - 1);
      PollAliveStep(ss[i - 1], acts[i - 1], ss[i]);
    }
  }

  /**
   The poll chain never dies.  Once a poll_quotes job has been enqueued, in every
   later state the most recent one is queued, inflight or dead-lettered, and it is
   never done.
   */
  lemma PollChainNeverDies(ss: seq<Sys>, acts: seq<Act>, i: nat)
    requires Run(ss, acts) && i < |ss| && LastPoll(ss[i].q.log).Some?
    ensures var j := LastPoll(ss[i].q.log).value;
      Outstanding(ss[i], j) && (j in ss[i].q.tables.jobs ==> ss[i].q.tables.jobs[j].status != Done)
  {
    PollAliveRun(ss, acts, i);
    SysOkRun(ss, acts, i);
    var j := LastPoll(ss[i].q.log).value;
    assert j in ss[i].q.tables.jobs || j in ss[i].q.tables.dead;
  }
}
