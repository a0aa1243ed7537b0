/** Invariants that tie the queue, the ledger, the orders and the handlers together. */
module SystemSafety {
  import opened Prelude
  import opened Model
  import opened JobTables
  import Q = QueueMachine
  import L = LedgerMachine
  import opened System

  // ------------------------------------------------------- what a step changes

  /** Fields of an order that no statement ever updates. */
  predicate SameTerms(a: Order, b: Order) {
    && a.portfolio == b.portfolio && a.key == b.key && a.side == b.side && a.instrument == b.instrument
    && a.quantity == b.quantity && a.orderType == b.orderType
  }

  function Enqueued(s: Sys, a: Act): Option<Kind>
    requires Guard(s, a)
  {
    if QPart(s, a).Some? && QPart(s, a).value.Enqueue? then Some(QPart(s, a).value.kind) else None
  }

  lemma LogStep(s: Sys, a: Act, s': Sys)
    requires Next(s, a, s')
    ensures s'.q.log == if Enqueued(s, a).Some? then s.q.log + [Enqueued(s, a).value] else s.q.log
    ensures s'.q.nextExec >= s.q.nextExec
  {
  }

  lemma OrdersStep(s: Sys, a: Act, s': Sys)
    requires Next(s, a, s')
    ensures |s'.orders| == if a.PlaceOrder? then |s.orders| + 1 else |s.orders|
    ensures forall o :: 0 <= o < |s.orders| ==> SameTerms(s'.orders[o], s.orders[o])
    ensures a.PlaceOrder? ==> s'.orders == s.orders + [a.order]
  {
    if a.CommitTx? {
      CommitOrders(s, a);
    }
  }

  lemma CommitOrders(s: Sys, a: Act)
    requires Enabled(s, a) && a.CommitTx?
    ensures |OrdersAfter(s, a)| == |s.orders|
    ensures forall o :: 0 <= o < |s.orders| ==> SameTerms(OrdersAfter(s, a)[o], s.orders[o])
  {
  }

  lemma AccountsGrow(s: Sys, a: Act, s': Sys)
    requires Next(s, a, s')
    ensures |s'.l.accounts| >= |s.l.accounts|
  {
  }

  /** An execution outstanding after a step was outstanding before it, or was just claimed. */
  lemma ExecComesFrom(s: Sys, a: Act, s': Sys, e: nat)
    requires Next(s, a, s') && e in s'.q.execs
    ensures if a.QueueStep? && a.qa.Claim? && e == s.q.nextExec
      then e in s'.pcs && s'.pcs[e] == Start && s'.q.execs[e].phase == Q.Working
      else e in s.q.execs
           && s'.q.execs[e].job == s.q.execs[e].job && s'.q.execs[e].kind == s.q.execs[e].kind
           && s'.q.execs[e].lease == s.q.execs[e].lease
           && (Actor(a) != Some(e) ==> s'.q.execs[e] == s.q.execs[e] && (e in s.pcs <==> e in s'.pcs)
                                       && (e in s.pcs ==> s'.pcs[e] == s.pcs[e]))
           && (s'.q.execs[e].phase == Q.Working ==> s.q.execs[e].phase == Q.Working)
    ensures s'.q.clock >= s.q.clock
  {
    if QPart(s, a).Some? {
      Q.ExecComesFrom(s.q, QPart(s, a).value, e);
    }
  }

  // --------------------------------------------------------------- the outbox

  /** Each order has exactly one execute_order job, enqueued with it; settle jobs name real orders. */
  ghost predicate Outboxed(s: Sys) {
    && |s.outbox| == |s.orders|
    && (forall o :: 0 <= o < |s.orders| ==> s.outbox[o] < |s.q.log| && s.q.log[s.outbox[o]] == ExecuteOrder(o))
    && (forall j :: 0 <= j < |s.q.log| && s.q.log[j].ExecuteOrder? ==>
          s.q.log[j].order < |s.orders| && s.outbox[s.q.log[j].order] == j)
    && (forall j :: 0 <= j < |s.q.log| && s.q.log[j].Settle? ==> s.q.log[j].order < |s.orders|)
  }

  lemma OutboxedStep(s: Sys, a: Act, s': Sys)
    requires Outboxed(s) && Next(s, a, s')
    ensures Outboxed(s')
  {
    LogStep(s, a, s');
    OrdersStep(s, a, s');
  }

  ghost predicate OrdersOk(s: Sys) {
    forall o :: 0 <= o < |s.orders| ==> ValidTerms(s.orders[o]) && s.orders[o].portfolio < |s.l.accounts|
  }

  lemma OrdersOkStep(s: Sys, a: Act, s': Sys)
    requires OrdersOk(s) && Next(s, a, s')
    ensures OrdersOk(s')
  {
    OrdersStep(s, a, s');
    AccountsGrow(s, a, s');
  }

  // ----------------------------------------------------------------- handlers

  /** What a handler remembers of its order is what the order still says, and its counter fits its job. */
  ghost predicate HandlerOk(s: Sys, e: nat)
    requires e in s.q.execs
  {
    var x := s.q.execs[e];
    && e in s.pcs && e < s.q.nextExec
    && (x.phase == Q.Succeeded ==> s.pcs[e] == Finished)
    && (s.pcs[e].GotOrder? || s.pcs[e] == Rejecting || s.pcs[e].Priced? || s.pcs[e] == InTx ==>
          x.kind.ExecuteOrder? && x.kind.order < |s.orders|)
    && (s.pcs[e].GotOrder? ==> SameTerms(s.pcs[e].order, s.orders[x.kind.order]))
    && (s.pcs[e].Priced? ==> SameTerms(s.pcs[e].order, s.orders[x.kind.order]) && IsInt64(s.pcs[e].price))
    && (s.pcs[e] == Settling ==> x.kind.Settle?)
    && (e in s.l.started ==> s.pcs[e] == InTx || s.pcs[e] == Finished)
  }

  ghost predicate HandlersOk(s: Sys) {
    && (forall e :: e in s.q.execs ==> HandlerOk(s, e))
    && (forall e :: e in s.l.started ==> e < s.q.nextExec)
  }

  lemma StartedStep(s: Sys, a: Act, s': Sys)
    requires Next(s, a, s')
    ensures s'.l.started == if a.BeginTx? then s.l.started + {a.e} else s.l.started
  {
  }

  lemma ActorHandler(s: Sys, a: Act, s': Sys, e: nat)
    requires Next(s, a, s') && Actor(a) == Some(e) && e in s.q.execs && HandlerOk(s, e) && e in s'.q.execs
    requires OrdersOk(s)
    ensures HandlerOk(s', e)
  {
    OrdersStep(s, a, s');
    StartedStep(s, a, s');
  }

  lemma OtherHandler(s: Sys, a: Act, s': Sys, e: nat)
    requires Next(s, a, s') && Actor(a) != Some(e) && e in s'.q.execs
    requires e in s.q.execs ==> HandlerOk(s, e)
    requires forall f :: f in s.l.started ==> f < s.q.nextExec
    ensures HandlerOk(s', e)
  {
    ExecComesFrom(s, a, s', e);
    OrdersStep(s, a, s');
    StartedStep(s, a, s');
  }

  lemma HandlersStep(s: Sys, a: Act, s': Sys)
    requires HandlersOk(s) && OrdersOk(s) && Next(s, a, s')
    ensures HandlersOk(s')
  {
    StartedStep(s, a, s');
    LogStep(s, a, s');
    forall e | e in s'.q.execs
      ensures HandlerOk(s', e)
    {
      if Actor(a) == Some(e) {
        ActorHandler(s, a, s', e);
      } else {
        OtherHandler(s, a, s', e);
      }
    }
  }

  // ------------------------------------------------------------- transactions

  /** A transaction belongs to a working execution of its order and carries that order's terms. */
  ghost predicate TxOk(s: Sys, e: nat)
    requires e in s.l.txs
  {
    var c := s.l.txs[e].ctx;
    && e in s.q.execs && s.q.execs[e].phase == Q.Working && e in s.pcs && s.pcs[e] == InTx
    && s.q.execs[e].kind == ExecuteOrder(c.order) && c.order < |s.orders|
    && SameTerms(c.terms, s.orders[c.order]) && ValidCtx(c)
  }

  ghost predicate TxsOk(s: Sys) {
    forall e :: e in s.l.txs ==> TxOk(s, e)
  }

  /** A transaction outlives the steps of other executions, unless its worker crashes. */
  lemma TxComesFrom(s: Sys, a: Act, s': Sys, e: nat)
    requires Next(s, a, s') && e in s'.l.txs && Actor(a) != Some(e)
    ensures a != CrashWorker(e) && e in s.l.txs && s'.l.txs[e] == s.l.txs[e]
  {
  }

  lemma ExecStays(s: Sys, a: Act, s': Sys, e: nat)
    requires Next(s, a, s') && e in s.q.execs && e != s.q.nextExec && Actor(a) != Some(e) && a != CrashWorker(e)
    ensures e in s'.q.execs && s'.q.execs[e] == s.q.execs[e]
    ensures e in s.pcs ==> e in s'.pcs && s'.pcs[e] == s.pcs[e]
  {
    assert e in s.pcs ==> e in PcsAfter(s, a) && PcsAfter(s, a)[e] == s.pcs[e];
    if QPart(s, a).Some? {
      Q.ExecStays(s.q, QPart(s, a).value, e);
    }
  }

  lemma TxOkOther(s: Sys, a: Act, s': Sys, e: nat)
    requires Next(s, a, s') && e in s'.l.txs && Actor(a) != Some(e)
    requires e in s.l.txs ==> TxOk(s, e)
    requires s.q.nextExec !in s.q.execs
    ensures TxOk(s', e)
  {
    TxComesFrom(s, a, s', e);
    ExecStays(s, a, s', e);
    OrdersStep(s, a, s');
  }

  lemma TxOkActor(s: Sys, a: Act, s': Sys, e: nat)
    requires Next(s, a, s') && e in s'.l.txs && Actor(a) == Some(e)
    requires e in s.l.txs ==> TxOk(s, e)
    requires e in s.q.execs ==> HandlerOk(s, e)
    requires OrdersOk(s)
    ensures TxOk(s', e)
  {
    OrdersStep(s, a, s');
  }

  lemma TxsStep(s: Sys, a: Act, s': Sys)
    requires HandlersOk(s) && OrdersOk(s) && TxsOk(s) && Next(s, a, s')
    ensures TxsOk(s')
  {
    assert s.q.nextExec in s.q.execs ==> HandlerOk(s, s.q.nextExec);
    forall e | e in s'.l.txs
      ensures TxOk(s', e)
    {
      if Actor(a) == Some(e) {
        TxOkActor(s, a, s', e);
      } else {
        TxOkOther(s, a, s', e);
      }
    }
  }

  // ---------------------------------------------------------- all of it together

  ghost predicate SysOk(s: Sys) {
    && Q.Conserved(s.q) && L.LedgerOk(s.l)
    && Outboxed(s) && OrdersOk(s) && HandlersOk(s) && TxsOk(s)
  }

  lemma PartsStep(s: Sys, a: Act, s': Sys)
    requires Q.Conserved(s.q) && L.LedgerOk(s.l) && Next(s, a, s')
    ensures Q.Conserved(s'.q) && L.LedgerOk(s'.l)
  {
    if QPart(s, a).Some? {
      Q.ConservedStep(s.q, QPart(s, a).value);
    }
    if LPart(s, a).Some? {
      L.LedgerStep(s.l, LPart(s, a).value);
    }
  }

  lemma SysOkStep(s: Sys, a: Act, s': Sys)
    requires SysOk(s) && Next(s, a, s')
    ensures SysOk(s')
  {
    PartsStep(s, a, s');
    OutboxedStep(s, a, s');
    OrdersOkStep(s, a, s');
    HandlersStep(s, a, s');
    TxsStep(s, a, s');
  }

  lemma {:induction false} SysOkRun(ss: seq<Sys>, acts: seq<Act>, i: nat)
    requires Run(ss, acts) && i < |ss|
    ensures SysOk(ss[i])
  {
    if i > 0 {
      SysOkRun(ss, acts, i - 1);
      assert StepAt(ss, acts, i - 1);
      SysOkStep(ss[i - 1], acts[i - 1], ss[i]);
    }
  }

  // ---------------------------------------------------------- idempotency keys

  /** No two orders carry the same nonempty key. */
  ghost predicate KeysDiffer(orders: seq<Order>) {
    forall i, j :: 0 <= i < j < |orders| && orders[i].key != "" ==> orders[i].key != orders[j].key
  }

  lemma KeysStep(s: Sys, a: Act, s': Sys)
    requires KeysDiffer(s.orders) && Next(s, a, s')
    ensures KeysDiffer(s'.orders)
  {
    OrdersStep(s, a, s');
    assert forall o :: 0 <= o < |s.orders| ==> s'.orders[o].key == s.orders[o].key;
  }

  /** In every state of every run an idempotency key names at most one order. */
  lemma {:induction false} KeysAreUnique(ss: seq<Sys>, acts: seq<Act>, i: nat)
    requires Run(ss, acts) && i < |ss|
    ensures KeysDiffer(ss[i].orders)
  {
    if i > 0 {
      KeysAreUnique(ss, acts, i - 1);
      assert StepAt(ss, acts, i - 1);
      KeysStep(ss[i - 1], acts[i - 1], ss[i]);
    }
  }
}
