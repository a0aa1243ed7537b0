/**
 At most one trade per order, end to end, when the executions of the order's job
 are timely, and what each status says about the books.
 */
module OneTrade {
  import opened Prelude
  import opened Model
  import opened JobTables
  import Q = QueueMachine
  import L = LedgerMachine
  import opened System
  import opened SystemSafety
  import opened EndToEnd
  import opened TradeLegs

  // -------------------------------------------------------- the invariant

  /** A live execution of order o that has read the order as pending and not yet committed. */
  predicate MayTrade(s: Sys, e: nat, o: nat) {
    Q.Live(s.q, e) && Engaged(s, e, o)
  }

  /** Order o has been traded at most once; a live execution that may trade it, or a rejection, finds it untraded. */
  ghost predicate TradedOnce(s: Sys, o: nat) {
    && (Legs(s.l.accounts, o) == 0 || Legs(s.l.accounts, o) == 2)
    && (o < |s.orders| && s.orders[o].status == Rejected ==> Legs(s.l.accounts, o) == 0)
    && (forall e :: MayTrade(s, e, o) ==> Legs(s.l.accounts, o) == 0)
  }

  /** Leasing excludes overlapping live executions of the order's job. */
  ghost predicate ExclusiveFor(s: Sys, o: nat) {
    o < |s.outbox| ==> Q.Exclusive(s.q, s.outbox[o])
  }

  lemma QueueTimely(s: Sys, a: Act, o: nat)
    requires Q.Logged(s.q) && Outboxed(s) && o < |s.outbox|
    requires Enabled(s, a) && TimelyFor(s, a, o) && QPart(s, a).Some?
    ensures Q.TimelyOn(s.q, QPart(s, a).value, s.outbox[o])
  {
  }

  lemma ExclusiveStep(s: Sys, a: Act, s': Sys, o: nat)
    requires Q.Logged(s.q) && Outboxed(s) && ExclusiveFor(s, o) && Next(s, a, s') && TimelyFor(s, a, o)
    ensures ExclusiveFor(s', o)
  {
    if o < |s.outbox| {
      if QPart(s, a).Some? {
        QueueTimely(s, a, o);
        Q.ExclusiveStep(s.q, QPart(s, a).value, s.outbox[o]);
      }
    } else if o < |s'.outbox| {
      assert forall e :: e in s'.q.execs ==> s'.q.execs[e].job < |s.q.log|;
    }
  }

  /** All executions of one order share its single job, so at most one of them is live. */
  lemma OneLiveExecution(s: Sys, e: nat, f: nat, o: nat)
    requires Q.Logged(s.q) && ExclusiveFor(s, o) && Outboxed(s)
    requires Q.Live(s.q, e) && Q.Live(s.q, f)
    requires s.q.execs[e].kind == ExecuteOrder(o) && s.q.execs[f].kind == ExecuteOrder(o)
    ensures e == f
  {
  }

  /** Only a live engaged execution rejects the order. */
  lemma RejectedComesFrom(s: Sys, a: Act, s': Sys, o: nat)
    requires Next(s, a, s') && TimelyFor(s, a, o) && o < |s'.orders| && s'.orders[o].status == Rejected
    ensures o < |s.orders|
    ensures s.orders[o].status == Rejected || (Actor(a).Some? && MayTrade(s, Actor(a).value, o))
    ensures !Trades(s, a, o)
  {
  }

  lemma {:induction false} TradedOnceStep(s: Sys, a: Act, s': Sys, o: nat)
    requires Next(s, a, s') && TimelyFor(s, a, o)
    requires Q.Logged(s.q) && ExclusiveFor(s, o) && Outboxed(s)
    requires Legs(s'.l.accounts, o) == Legs(s.l.accounts, o) + if Trades(s, a, o) then 2 else 0
    requires PendingOrder(s, o) ==> Legs(s.l.accounts, o) == 0
    requires TradedOnce(s, o)
    ensures TradedOnce(s', o)
  {
    if Trades(s, a, o) {
      FillerMayTrade(s, a, o);
    }
    if o < |s'.orders| && s'.orders[o].status == Rejected {
      RejectedComesFrom(s, a, s', o);
    }
    forall e | MayTrade(s', e, o)
      ensures Legs(s'.l.accounts, o) == 0
    {
      MayTradeComesFrom(s, a, s', e, o);
    }
  }

  lemma FillerMayTrade(s: Sys, a: Act, o: nat)
    requires Enabled(s, a) && TimelyFor(s, a, o) && Trades(s, a, o)
    ensures MayTrade(s, a.e, o)
  {
  }

  /** No step that fills the order leaves another live execution engaged with it. */
  lemma MayTradeComesFrom(s: Sys, a: Act, s': Sys, e: nat, o: nat)
    requires Next(s, a, s') && TimelyFor(s, a, o) && MayTrade(s', e, o)
    requires Q.Logged(s.q) && ExclusiveFor(s, o) && Outboxed(s)
    ensures MayTrade(s, e, o) || PendingOrder(s, o)
    ensures !Trades(s, a, o)
  {
    EngagedComesFrom(s, a, s', e, o);
    if Trades(s, a, o) {
      FillerMayTrade(s, a, o);
      OneLiveExecution(s, e, a.e, o);
    }
  }

  lemma {:induction false} ExclusiveRun(ss: seq<Sys>, acts: seq<Act>, i: nat, o: nat)
    requires Run(ss, acts) && i < |ss| && forall k :: 0 <= k < |acts| ==> TimelyFor(ss[k], acts[k], o)
    ensures ExclusiveFor(ss[i], o)
  {
    if i > 0 {
      ExclusiveRun(ss, acts, i - 1, o);
      ExclusiveNext(ss, acts, i - 1, o);
    }
  }

  lemma ExclusiveNext(ss: seq<Sys>, acts: seq<Act>, k: nat, o: nat)
    requires Run(ss, acts) && k < |acts| && TimelyFor(ss[k], acts[k], o) && ExclusiveFor(ss[k], o)
    ensures ExclusiveFor(ss[k + 1], o)
  {
    assert Q.Logged(ss[k].q) && Outboxed(ss[k]) by {
      SysOkRun(ss, acts, k);
    }
    assert StepAt(ss, acts, k);
    ExclusiveStep(ss[k], acts[k], ss[k + 1], o);
  }

  lemma {:induction false} TradedOnceRun(ss: seq<Sys>, acts: seq<Act>, i: nat, o: nat)
    requires Run(ss, acts) && i < |ss| && forall k :: 0 <= k < |acts| ==> TimelyFor(ss[k], acts[k], o)
    ensures TradedOnce(ss[i], o)
  {
    if i > 0 {
      TradedOnceRun(ss, acts, i - 1, o);
      ExclusiveRun(ss, acts, i - 1, o);
      TradedOnceNext(ss, acts, i - 1, o);
    }
  }

  lemma TradedOnceNext(ss: seq<Sys>, acts: seq<Act>, k: nat, o: nat)
    requires Run(ss, acts) && k < |acts| && TimelyFor(ss[k], acts[k], o)
    requires ExclusiveFor(ss[k], o) && TradedOnce(ss[k], o)
    ensures TradedOnce(ss[k + 1], o)
  {
    assert Q.Logged(ss[k].q) && Outboxed(ss[k]) by {
      SysOkRun(ss, acts, k);
    }
    LegsAt(ss, acts, o, k);
    UntradedRun(ss, acts, o, k);
    assert StepAt(ss, acts, k);
    TradedOnceStep(ss[k], acts[k], ss[k + 1], o);
  }

  /**
   At most one trade per order.  In every run of claims, crashes, retries, reaps,
   dead-letterings, replays and cancels in which no execution of the order's own job
   acts after its lease has expired, the order has no entries or the two legs of one
   trade; none while it is pending and none once it is rejected.
   */
  lemma {:induction false} AtMostOneTrade(ss: seq<Sys>, acts: seq<Act>, i: nat, o: nat)
    requires Run(ss, acts) && i < |ss| && forall k :: 0 <= k < |acts| ==> TimelyFor(ss[k], acts[k], o)
    ensures Legs(ss[i].l.accounts, o) == 0 || Legs(ss[i].l.accounts, o) == 2
    ensures Legs(ss[i].l.accounts, o) == 2 ==>
      o < |ss[i].orders| && ss[i].orders[o].status != Pending && ss[i].orders[o].status != Rejected
  {
    TradedOnceRun(ss, acts, i, o);
    UntradedRun(ss, acts, o, i);
  }

  // --------------------------------------------- statuses are backed by the books

  /** Filled and settled orders have a trade; so has an order whose settlement is under way. */
  ghost predicate Backed(s: Sys, o: nat) {
    && (o < |s.orders| && (s.orders[o].status == Filled || s.orders[o].status == Settled) ==>
          Legs(s.l.accounts, o) >= 2)
    && (forall e :: e in s.q.execs && e in s.pcs && s.pcs[e] == Settling && s.q.execs[e].kind == Settle(o) ==>
          Legs(s.l.accounts, o) >= 2)
  }

  /** An order becomes filled by a trade, and settled after it was read as filled. */
  lemma StatusComesFrom(s: Sys, a: Act, s': Sys, o: nat)
    requires Next(s, a, s') && Decides(s, a)
    requires o < |s'.orders| && (s'.orders[o].status == Filled || s'.orders[o].status == Settled)
    ensures Trades(s, a, o)
      || (o < |s.orders| && (s.orders[o].status == Filled || s.orders[o].status == Settled))
      || (a.WriteSettled? && s.q.execs[a.e].kind == Settle(o) && s.pcs[a.e] == Settling)
  {
  }

  lemma SettlingComesFrom(s: Sys, a: Act, s': Sys, e: nat, o: nat)
    requires Next(s, a, s') && e in s'.q.execs && e in s'.pcs && s'.pcs[e] == Settling
    requires s'.q.execs[e].kind == Settle(o)
    ensures e in s.q.execs && e in s.pcs && s.q.execs[e].kind == Settle(o)
    ensures s.pcs[e] == Settling || (o < |s.orders| && s.orders[o].status == Filled)
  {
    ExecComesFrom(s, a, s', e);
  }

  lemma {:induction false} BackedStep(s: Sys, a: Act, s': Sys, o: nat)
    requires Next(s, a, s') && Decides(s, a) && Backed(s, o)
    requires Legs(s'.l.accounts, o) == Legs(s.l.accounts, o) + if Trades(s, a, o) then 2 else 0
    ensures Backed(s', o)
  {
    if o < |s'.orders| && (s'.orders[o].status == Filled || s'.orders[o].status == Settled) {
      StatusComesFrom(s, a, s', o);
    }
    forall e | e in s'.q.execs && e in s'.pcs && s'.pcs[e] == Settling && s'.q.execs[e].kind == Settle(o)
      ensures Legs(s'.l.accounts, o) >= 2
    {
      SettlingComesFrom(s, a, s', e, o);
    }
  }

  lemma {:induction false} BackedRun(ss: seq<Sys>, acts: seq<Act>, i: nat, o: nat)
    requires Run(ss, acts) && i < |ss|
    ensures Backed(ss[i], o)
  {
    if i > 0 {
      BackedRun(ss, acts, i - 1, o);
      BackedNext(ss, acts, i - 1, o);
    }
  }

  lemma BackedNext(ss: seq<Sys>, acts: seq<Act>, k: nat, o: nat)
    requires Run(ss, acts) && k < |acts| && Backed(ss[k], o)
    ensures Backed(ss[k + 1], o)
  {
    StepFacts(ss, acts, k);
    LegsAt(ss, acts, o, k);
    BackedStep(ss[k], acts[k], ss[k + 1], o);
  }

  /**
   In every state of every run, also with stale workers, an order that is filled or
   settled has its trade in the books; exactly one if its own executions are timely.
   */
  lemma {:induction false} FilledHasItsTrade(ss: seq<Sys>, acts: seq<Act>, i: nat, o: nat)
    requires Run(ss, acts) && i < |ss| && o < |ss[i].orders|
    requires ss[i].orders[o].status == Filled || ss[i].orders[o].status == Settled
    ensures Legs(ss[i].l.accounts, o) >= 2
    ensures (forall k :: 0 <= k < |acts| ==> TimelyFor(ss[k], acts[k], o)) ==> Legs(ss[i].l.accounts, o) == 2
  {
    BackedRun(ss, acts, i, o);
    if forall k :: 0 <= k < |acts| ==> TimelyFor(ss[k], acts[k], o) {
      AtMostOneTrade(ss, acts, i, o);
    }
  }
}
