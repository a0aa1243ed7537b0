/**
 The legs of an order: how many entries belong to its trades, in every run and
 with no hypothesis on the workers.  What the code reads before it writes decides
 when an order is traded twice and when a cancel overwrites a trade.
 */
module TradeLegs {
  import opened Prelude
  import opened Model
  import opened JobTables
  import opened Book
  import Q = QueueMachine
  import L = LedgerMachine
  import opened System
  import opened SystemSafety
  import opened EndToEnd

  // ------------------------------------------------------- legs of an order

  function LegOf(e: Entry, o: nat): nat {
    if e.trade.FillTrade? && e.trade.order == o then 1 else 0
  }

  function LegsIn(es: seq<Entry>, o: nat): nat {
    if es == [] then 0 else LegsIn(es[..|es| - 1], o) + LegOf(es[|es| - 1], o)
  }

  /** Number of entries, over all portfolios, that belong to trades of order o. */
  function Legs(accounts: seq<L.Account>, o: nat): nat {
    if accounts == [] then 0
    else Legs(accounts[..|accounts| - 1], o) + LegsIn(accounts[|accounts| - 1].entries, o)
  }

  lemma {:induction false} LegsInAppend(es: seq<Entry>, e: Entry, o: nat)
    ensures LegsIn(es + [e], o) == LegsIn(es, o) + LegOf(e, o)
  {
    assert (es + [e])[..|es|] == es;
  }

  lemma {:induction false} LegsUpdate(accounts: seq<L.Account>, p: nat, a: L.Account, o: nat)
    requires p < |accounts|
    ensures Legs(accounts[p := a], o) + LegsIn(accounts[p].entries, o) == Legs(accounts, o) + LegsIn(a.entries, o)
  {
    var n := |accounts| - 1;
    if p == n {
      assert accounts[p := a][..n] == accounts[..n];
    } else {
      assert accounts[p := a][..n] == accounts[..n][p := a];
      LegsUpdate(accounts[..n], p, a, o);
    }
  }

  lemma {:induction false} LegsOpen(accounts: seq<L.Account>, a: L.Account, o: nat)
    ensures Legs(accounts + [a], o) == Legs(accounts, o) + LegsIn(a.entries, o)
  {
    assert (accounts + [a])[..|accounts|] == accounts;
  }

  /** The two legs of a fill, appended to a stream. */
  lemma {:induction false} PairLegs(es: seq<Entry>, c: Ctx, n: int, o: nat)
    ensures LegsIn(es + [StockLeg(c, n), CashLeg(c, n)], o) == LegsIn(es, o) + if c.order == o then 2 else 0
  {
    var s, k := StockLeg(c, n), CashLeg(c, n);
    LegsInAppend(es, s, o);
    LegsInAppend(es + [s], k, o);
    assert es + [s, k] == es + [s] + [k];
  }

  lemma {:induction false} AccountLegs(a: L.Account, t: L.Tx, o: nat)
    requires t.Writing? && t.stage == L.Close && L.Current(a, t)
    ensures LegsIn(a.entries + t.buf.legs, o)
            == LegsIn(a.entries, o) + if t.buf.status == Some(Filled) && t.ctx.order == o then 2 else 0
  {
    if t.buf.status == Some(Filled) {
      PairLegs(a.entries, t.ctx, t.seqNo, o);
    } else {
      assert a.entries + t.buf.legs == a.entries;
    }
  }

  lemma {:induction false} CommitLegs(l: L.Ledger, e: nat, o: nat)
    requires L.LedgerOk(l) && L.LEnabled(l, L.Commit(e))
    ensures Legs(L.LDo(l, L.Commit(e)).accounts, o)
            == Legs(l.accounts, o) + if l.txs[e].buf.status == Some(Filled) && l.txs[e].ctx.order == o then 2 else 0
  {
    var t := l.txs[e];
    var p := t.ctx.terms.portfolio;
    assert L.Current(l.accounts[p], t) by {
      assert L.AccountOk(l, p);
    }
    AccountLegs(l.accounts[p], t, o);
    LegsUpdate(l.accounts, p, L.Committing(l.accounts[p], t.buf), o);
  }

  lemma {:induction false} LedgerLegs(l: L.Ledger, a: L.LAct, o: nat)
    requires L.LedgerOk(l) && L.LEnabled(l, a)
    ensures Legs(L.LDo(l, a).accounts, o)
            == Legs(l.accounts, o)
               + if a.Commit? && l.txs[a.e].buf.status == Some(Filled) && l.txs[a.e].ctx.order == o then 2 else 0
  {
    var l' := L.LDo(l, a);
    match a
    case Commit(e) => CommitLegs(l, e, o);
    case OpenAccount(seed, at) =>
      var b := SeedBook(seed, at);
      LegsOpen(l.accounts, l'.accounts[|l.accounts|], o);
      if seed > 0 {
        LegsInAppend([], SeedEntry(seed, at), o);
        assert [] + [SeedEntry(seed, at)] == b.entries;
      }
    case Lock(e) => LegsUpdate(l.accounts, l.txs[e].ctx.terms.portfolio, l'.accounts[l.txs[e].ctx.terms.portfolio], o);
    case Rollback(e) =>
      var p := l.txs[e].ctx.terms.portfolio;
      if !l.txs[e].Begun? && p < |l.accounts| {
        LegsUpdate(l.accounts, p, l'.accounts[p], o);
      }
    case _ =>
  }

  /** The fills of order o by this step. */
  predicate Trades(s: Sys, a: Act, o: nat)
    requires Guard(s, a)
  {
    a.CommitTx? && s.l.txs[a.e].buf.status == Some(Filled) && s.q.execs[a.e].kind.order == o
  }

  lemma {:induction false} LegsStep(s: Sys, a: Act, s': Sys, o: nat)
    requires L.LedgerOk(s.l) && TxsOk(s) && Next(s, a, s')
    ensures Legs(s'.l.accounts, o) == Legs(s.l.accounts, o) + if Trades(s, a, o) then 2 else 0
  {
    if LPart(s, a).Some? {
      LedgerLegs(s.l, LPart(s, a).value, o);
    }
    if a.CommitTx? {
      assert TxOk(s, a.e);
    }
  }

  // ------------------------------------------------------- fills along a run

  /** Step k commits a fill of order o. */
  ghost predicate FillsAt(ss: seq<Sys>, acts: seq<Act>, o: nat, k: nat) {
    k < |acts| && k < |ss| && Enabled(ss[k], acts[k]) && Trades(ss[k], acts[k], o)
  }

  ghost function FillFlags(ss: seq<Sys>, acts: seq<Act>, o: nat): seq<bool> {
    seq(|acts|, k requires 0 <= k < |acts| => FillsAt(ss, acts, o, k))
  }

  /** The number of fills of order o among the steps i, i + 1, ..., j - 1. */
  ghost function FillsBetween(ss: seq<Sys>, acts: seq<Act>, o: nat, i: nat, j: nat): nat
    requires i <= j <= |acts|
  {
    Count(FillFlags(ss, acts, o), i, j)
  }

  lemma {:induction false} LegsAt(ss: seq<Sys>, acts: seq<Act>, o: nat, k: nat)
    requires Run(ss, acts) && k < |acts|
    ensures Legs(ss[k + 1].l.accounts, o) == Legs(ss[k].l.accounts, o) + if FillsAt(ss, acts, o, k) then 2 else 0
  {
    assert StepAt(ss, acts, k);
    assert L.LedgerOk(ss[k].l) && TxsOk(ss[k]) by {
      SysOkRun(ss, acts, k);
    }
    LegsStep(ss[k], acts[k], ss[k + 1], o);
  }

  /** Every fill adds two legs, and nothing else adds or removes any. */
  lemma {:induction false} LegsCountFills(ss: seq<Sys>, acts: seq<Act>, o: nat, i: nat, j: nat)
    requires Run(ss, acts) && i <= j <= |acts|
    ensures Legs(ss[j].l.accounts, o) == Legs(ss[i].l.accounts, o) + 2 * FillsBetween(ss, acts, o, i, j)
  {
    var xs := seq(|ss|, k requires 0 <= k < |ss| => Legs(ss[k].l.accounts, o) as int);
    var flags := FillFlags(ss, acts, o);
    forall k | 0 <= k < |flags|
      ensures xs[k + 1] == xs[k] + if flags[k] then 2 else 0
    {
      LegsAt(ss, acts, o, k);
    }
    CountSteps(xs, flags, i, j);
  }

  lemma FillsIff(ss: seq<Sys>, acts: seq<Act>, o: nat, i: nat, j: nat)
    requires i <= j <= |acts|
    ensures FillsBetween(ss, acts, o, i, j) > 0 <==> exists k :: i <= k < j && FillsAt(ss, acts, o, k)
  {
    var flags := FillFlags(ss, acts, o);
    CountPositive(flags, i, j);
    assert forall k :: 0 <= k < |flags| ==> flags[k] == FillsAt(ss, acts, o, k);
  }

  // ------------------------------------------ a pending order has not been traded

  ghost predicate Untraded(s: Sys, o: nat) {
    Legs(s.l.accounts, o) > 0 ==> o < |s.orders| && s.orders[o].status != Pending
  }

  lemma TradedStatus(s: Sys, a: Act, s': Sys, o: nat)
    requires Next(s, a, s') && Trades(s, a, o)
    ensures o < |s'.orders| && s'.orders[o].status == Filled
  {
  }

  lemma {:induction false} UntradedRun(ss: seq<Sys>, acts: seq<Act>, o: nat, i: nat)
    requires Run(ss, acts) && i < |ss|
    ensures Untraded(ss[i], o)
  {
    if i > 0 {
      UntradedRun(ss, acts, o, i - 1);
      UntradedNext(ss, acts, o, i - 1);
    }
  }

  lemma UntradedNext(ss: seq<Sys>, acts: seq<Act>, o: nat, k: nat)
    requires Run(ss, acts) && k < |acts| && Untraded(ss[k], o)
    ensures Untraded(ss[k + 1], o)
  {
    LegsAt(ss, acts, o, k);
    if FillsAt(ss, acts, o, k) {
      assert StepAt(ss, acts, k);
      TradedStatus(ss[k], acts[k], ss[k + 1], o);
    } else if Legs(ss[k].l.accounts, o) > 0 {
      StaysDecided(ss, acts, k, o);
    }
  }

  lemma StaysDecided(ss: seq<Sys>, acts: seq<Act>, k: nat, o: nat)
    requires Run(ss, acts) && k < |acts| && o < |ss[k].orders| && ss[k].orders[o].status != Pending
    ensures o < |ss[k + 1].orders| && ss[k + 1].orders[o].status != Pending
  {
    StepFacts(ss, acts, k);
    NeverPendingAgain(ss[k], acts[k], ss[k + 1], o);
  }

  /**
   A pending order has not been traded, in every state of every run, whatever stale
   workers, crashes, replays and cancels have done.
   */
  lemma {:induction false} PendingHasNoTrade(ss: seq<Sys>, acts: seq<Act>, i: nat, o: nat)
    requires Run(ss, acts) && i < |ss| && PendingOrder(ss[i], o)
    ensures Legs(ss[i].l.accounts, o) == 0
  {
    UntradedRun(ss, acts, o, i);
  }

  // ----------------------------------------------------------------- cancelling

  /**
   When a cancel overwrites a trade.  A cancel that reads the order at step i and
   writes at step j leaves it cancelled with two legs for every fill that committed
   between the two: it overwrites a trade if and only if there was such a fill.
   */
  lemma {:induction false} CancelOverwritesIff(ss: seq<Sys>, acts: seq<Act>, o: nat, i: nat, j: nat)
    requires Run(ss, acts) && i < j < |acts| && acts[i] == CancelRead(o) && acts[j] == CancelWrite(o)
    ensures o < |ss[j + 1].orders| && ss[j + 1].orders[o].status == Cancelled
    ensures Legs(ss[j + 1].l.accounts, o) == 2 * FillsBetween(ss, acts, o, i, j)
    ensures Legs(ss[j + 1].l.accounts, o) > 0 <==> exists k :: i < k < j && FillsAt(ss, acts, o, k)
  {
    CancelWrites(ss, acts, o, j);
    assert Legs(ss[i].l.accounts, o) == 0 && !FillsAt(ss, acts, o, i) by {
      assert StepAt(ss, acts, i);
      PendingHasNoTrade(ss, acts, i, o);
    }
    LegsCountFills(ss, acts, o, i, j);
    FillsIff(ss, acts, o, i, j);
  }

  lemma CancelWrites(ss: seq<Sys>, acts: seq<Act>, o: nat, j: nat)
    requires Run(ss, acts) && j < |acts| && acts[j] == CancelWrite(o)
    ensures o < |ss[j + 1].orders| && ss[j + 1].orders[o].status == Cancelled
    ensures ss[j + 1].l.accounts == ss[j].l.accounts
  {
    assert StepAt(ss, acts, j);
  }

  // ------------------------------------------------------------ trading twice

  /** Execution e of order o has read the order as pending and has not committed. */
  predicate Engaged(s: Sys, e: nat, o: nat) {
    && e in s.q.execs && e in s.pcs && s.q.execs[e].kind == ExecuteOrder(o) && s.q.execs[e].phase == Q.Working
    && (s.pcs[e].GotOrder? || s.pcs[e] == Rejecting || s.pcs[e].Priced? || s.pcs[e] == InTx)
  }

  /** An execution that is engaged now was so before this step or has just read a pending order. */
  lemma EngagedComesFrom(s: Sys, a: Act, s': Sys, e: nat, o: nat)
    requires Next(s, a, s') && Engaged(s', e, o)
    ensures Engaged(s, e, o) || (a == ReadOrder(e) && PendingOrder(s, o))
    ensures !(a.CommitTx? && a.e == e)
    ensures e in s.q.execs && s.q.execs[e].kind == ExecuteOrder(o) && s'.q.execs[e].lease == s.q.execs[e].lease
    ensures s'.q.clock >= s.q.clock
  {
    ExecComesFrom(s, a, s', e);
  }

  lemma {:induction false} ReadFirst(ss: seq<Sys>, acts: seq<Act>, o: nat, e: nat, k: nat) returns (i: nat)
    requires Run(ss, acts) && k < |ss| && Engaged(ss[k], e, o)
    ensures i < k && acts[i] == ReadOrder(e) && PendingOrder(ss[i], o)
  {
    assert StepAt(ss, acts, k - 1);
    EngagedComesFrom(ss[k - 1], acts[k - 1], ss[k], e, o);
    if Engaged(ss[k - 1], e, o) {
      i := ReadFirst(ss, acts, o, e, k - 1);
    } else {
      i := k - 1;
    }
  }

  /** Step i is the read with which the execution that commits at step j found order o pending. */
  ghost predicate ReadBy(ss: seq<Sys>, acts: seq<Act>, o: nat, i: nat, j: nat) {
    && i < j < |acts| && j < |ss| && acts[j].CommitTx? && acts[i] == ReadOrder(acts[j].e)
    && PendingOrder(ss[i], o)
  }

  lemma FillerIsEngaged(s: Sys, a: Act, o: nat)
    requires Enabled(s, a) && Trades(s, a, o)
    ensures Engaged(s, a.e, o)
  {
  }

  /**
   When an order is traded again.  A fill of order o at step j finds two legs for every
   fill that committed since its execution read the order: it is a second trade if
   and only if another fill committed between that read and this commit.
   */
  lemma SecondTradeIff(ss: seq<Sys>, acts: seq<Act>, o: nat, j: nat) returns (i: nat)
    requires Run(ss, acts) && FillsAt(ss, acts, o, j)
    ensures ReadBy(ss, acts, o, i, j)
    ensures Legs(ss[j].l.accounts, o) == 2 * FillsBetween(ss, acts, o, i, j)
    ensures Legs(ss[j].l.accounts, o) > 0 <==> exists k :: i <= k < j && FillsAt(ss, acts, o, k)
  {
    FillerIsEngaged(ss[j], acts[j], o);
    i := ReadFirst(ss, acts, o, acts[j].e, j);
    PendingHasNoTrade(ss, acts, i, o);
    LegsCountFills(ss, acts, o, i, j);
    FillsIff(ss, acts, o, i, j);
  }

  /** No other fill of order o commits between the read and the commit of the fill at step j. */
  ghost predicate Undisturbed(ss: seq<Sys>, acts: seq<Act>, o: nat, j: nat) {
    exists i :: ReadBy(ss, acts, o, i, j) && FillsBetween(ss, acts, o, i, j) == 0
  }

  lemma {:induction false} AtMostTwoLegs(ss: seq<Sys>, acts: seq<Act>, o: nat, n: nat)
    requires Run(ss, acts) && n <= |acts|
    requires forall j :: 0 <= j < n && FillsAt(ss, acts, o, j) ==> Legs(ss[j].l.accounts, o) == 0
    ensures Legs(ss[n].l.accounts, o) <= 2
  {
    if n > 0 {
      AtMostTwoLegs(ss, acts, o, n - 1);
      LegsAt(ss, acts, o, n - 1);
    } else {
      assert SysInit(ss[0]);
    }
  }

  /**
   One trade, exactly when.  Up to step n an order has at most the two legs of one
   trade if and only if none of its fills was disturbed, that is, no other fill of it
   committed between the read and the commit of one.
   */
  lemma {:induction false} OneTradeIff(ss: seq<Sys>, acts: seq<Act>, o: nat, n: nat)
    requires Run(ss, acts) && n <= |acts|
    ensures Legs(ss[n].l.accounts, o) <= 2
            <==> forall j :: 0 <= j < n && FillsAt(ss, acts, o, j) ==> Undisturbed(ss, acts, o, j)
  {
    forall j | 0 <= j < n && FillsAt(ss, acts, o, j)
      ensures Legs(ss[j].l.accounts, o) == 0 <==> Undisturbed(ss, acts, o, j)
      ensures Legs(ss[j].l.accounts, o) + 2 <= Legs(ss[n].l.accounts, o)
    {
      UndisturbedIff(ss, acts, o, j);
      FillStays(ss, acts, o, j, n);
    }
    if forall j :: 0 <= j < n && FillsAt(ss, acts, o, j) ==> Undisturbed(ss, acts, o, j) {
      AtMostTwoLegs(ss, acts, o, n);
    }
  }

  lemma {:induction false} UndisturbedIff(ss: seq<Sys>, acts: seq<Act>, o: nat, j: nat)
    requires Run(ss, acts) && FillsAt(ss, acts, o, j)
    ensures Legs(ss[j].l.accounts, o) == 0 <==> Undisturbed(ss, acts, o, j)
  {
    var i := SecondTradeIff(ss, acts, o, j);
    if Undisturbed(ss, acts, o, j) {
      var k :| ReadBy(ss, acts, o, k, j) && FillsBetween(ss, acts, o, k, j) == 0;
      PendingHasNoTrade(ss, acts, k, o);
      LegsCountFills(ss, acts, o, k, j);
    }
  }

  lemma {:induction false} FillStays(ss: seq<Sys>, acts: seq<Act>, o: nat, j: nat, n: nat)
    requires Run(ss, acts) && FillsAt(ss, acts, o, j) && j < n <= |acts|
    ensures Legs(ss[j].l.accounts, o) + 2 <= Legs(ss[n].l.accounts, o)
  {
    LegsAt(ss, acts, o, j);
    LegsCountFills(ss, acts, o, j + 1, n);
  }

  // --------------------------------------------------------- when a decision is final

  lemma {:induction false} DecidedSince(ss: seq<Sys>, acts: seq<Act>, o: nat, j: nat, k: nat)
    requires Run(ss, acts) && j <= k < |ss| && o < |ss[j].orders| && ss[j].orders[o].status != Pending
    ensures o < |ss[k].orders| && ss[k].orders[o].status != Pending
    decreases k
  {
    if j < k {
      DecidedSince(ss, acts, o, j, k - 1);
      StaysDecided(ss, acts, k - 1, o);
    }
  }

  /** Once an order is decided, nobody becomes engaged with it any more. */
  lemma {:induction false} EngagedSince(ss: seq<Sys>, acts: seq<Act>, o: nat, e: nat, j: nat, k: nat)
    requires Run(ss, acts) && j <= k < |ss| && o < |ss[j].orders| && ss[j].orders[o].status != Pending
    requires Engaged(ss[k], e, o)
    ensures Engaged(ss[j], e, o)
    decreases k
  {
    if j < k {
      DecidedSince(ss, acts, o, j, k - 1);
      assert StepAt(ss, acts, k - 1);
      EngagedComesFrom(ss[k - 1], acts[k - 1], ss[k], e, o);
      EngagedSince(ss, acts, o, e, j, k - 1);
    }
  }

  /** Every fill after a cancel's write belongs to an execution that had read the order before it. */
  lemma {:induction false} LateFillReadBefore(ss: seq<Sys>, acts: seq<Act>, o: nat, j: nat, k: nat) returns (i: nat)
    requires Run(ss, acts) && j < k && FillsAt(ss, acts, o, k) && acts[j] == CancelWrite(o)
    ensures EngagedAt(ss, acts, o, j + 1, k) && i < j && ReadBy(ss, acts, o, i, k)
  {
    CancelWrites(ss, acts, o, j);
    FillerIsEngaged(ss[k], acts[k], o);
    EngagedSince(ss, acts, o, acts[k].e, j + 1, k);
    i := ReadFirst(ss, acts, o, acts[k].e, j + 1);
  }

  /** The execution that commits at step k was engaged with the order in state j. */
  ghost predicate EngagedAt(ss: seq<Sys>, acts: seq<Act>, o: nat, j: nat, k: nat) {
    j < |ss| && k < |acts| && acts[k].CommitTx? && Engaged(ss[j], acts[k].e, o)
  }

  /**
   When a cancel is final.  After a cancel's write at step j the order gains legs by step n
   if and only if an execution that was engaged with it at that moment commits a fill.
   */
  lemma {:induction false} CancelIsFinalIff(ss: seq<Sys>, acts: seq<Act>, o: nat, j: nat, n: nat)
    requires Run(ss, acts) && j < n < |ss| && acts[j] == CancelWrite(o)
    ensures Legs(ss[n].l.accounts, o) > Legs(ss[j].l.accounts, o)
            <==> exists k :: j < k < n && FillsAt(ss, acts, o, k) && EngagedAt(ss, acts, o, j + 1, k)
  {
    FillsAfterCancel(ss, acts, o, j, n);
    forall k | j < k < n && FillsAt(ss, acts, o, k)
      ensures EngagedAt(ss, acts, o, j + 1, k)
    {
      var i := LateFillReadBefore(ss, acts, o, j, k);
    }
  }

  lemma {:induction false} FillsAfterCancel(ss: seq<Sys>, acts: seq<Act>, o: nat, j: nat, n: nat)
    requires Run(ss, acts) && j < n < |ss| && acts[j] == CancelWrite(o)
    ensures Legs(ss[n].l.accounts, o) >= Legs(ss[j].l.accounts, o)
    ensures Legs(ss[n].l.accounts, o) > Legs(ss[j].l.accounts, o)
            <==> exists k :: j < k < n && FillsAt(ss, acts, o, k)
  {
    CancelWrites(ss, acts, o, j);
    LegsCountFills(ss, acts, o, j + 1, n);
    FillsIff(ss, acts, o, j + 1, n);
  }

  /** If nobody was engaged with the order when it was cancelled, it never trades again. */
  lemma {:induction false} CancelIsFinal(ss: seq<Sys>, acts: seq<Act>, o: nat, j: nat, n: nat)
    requires Run(ss, acts) && j < n < |ss| && acts[j] == CancelWrite(o)
    requires forall e :: !Engaged(ss[j], e, o)
    ensures Legs(ss[n].l.accounts, o) == Legs(ss[j].l.accounts, o)
  {
    FillsAfterCancel(ss, acts, o, j, n);
    if k :| j < k < n && FillsAt(ss, acts, o, k) {
      CancelledBefore(ss, acts, o, j, k);
    }
  }

  lemma {:induction false} CancelledBefore(ss: seq<Sys>, acts: seq<Act>, o: nat, j: nat, k: nat)
    requires Run(ss, acts) && j < k && FillsAt(ss, acts, o, k) && acts[j] == CancelWrite(o)
    ensures Engaged(ss[j], acts[k].e, o)
  {
    var i := LateFillReadBefore(ss, acts, o, j, k);
    assert StepAt(ss, acts, j);
  }

  // ------------------------------------------------- a second look under the lock

  /** A transaction that holds its lock now took it in this step or held it before. */
  lemma LockedComesFrom(s: Sys, a: Act, s': Sys, e: nat)
    requires Next(s, a, s') && e in s'.l.txs && !s'.l.txs[e].Begun?
    ensures e in s.l.txs && s.l.txs[e].ctx == s'.l.txs[e].ctx
    ensures a == TxStep(e, L.Lock(e)) || !s.l.txs[e].Begun?
    ensures !(a.CommitTx? && a.e == e)
  {
    if LPart(s, a).Some? {
      L.LockHeldFrom(s.l, LPart(s, a).value, e);
    }
  }

  /** While a transaction for order o holds the portfolio's row lock, no other fills the order. */
  lemma LockExcludesFills(s: Sys, a: Act, o: nat, e: nat)
    requires L.LockOk(s.l) && TxsOk(s) && Enabled(s, a) && e in s.l.txs && !s.l.txs[e].Begun?
    requires s.l.txs[e].ctx.order == o
    requires a.CommitTx? ==> a.e != e
    ensures !Trades(s, a, o)
  {
    assert TxOk(s, e);
    assert a.CommitTx? ==> TxOk(s, a.e);
  }

  lemma {:induction false} LockSince(ss: seq<Sys>, acts: seq<Act>, o: nat, e: nat, k: nat) returns (i: nat)
    requires Run(ss, acts) && k < |ss| && e in ss[k].l.txs && !ss[k].l.txs[e].Begun? && ss[k].l.txs[e].ctx.order == o
    ensures i < k && acts[i] == TxStep(e, L.Lock(e))
    ensures Legs(ss[i].l.accounts, o) == Legs(ss[k].l.accounts, o)
  {
    LockNext(ss, acts, o, e, k - 1);
    if acts[k - 1] == TxStep(e, L.Lock(e)) {
      i := k - 1;
    } else {
      i := LockSince(ss, acts, o, e, k - 1);
    }
  }

  /** The step before: it took the lock, or the lock was held already; either way it filled nothing. */
  lemma {:induction false} LockNext(ss: seq<Sys>, acts: seq<Act>, o: nat, e: nat, k: nat)
    requires Run(ss, acts) && k < |acts| && e in ss[k + 1].l.txs && !ss[k + 1].l.txs[e].Begun?
    requires ss[k + 1].l.txs[e].ctx.order == o
    ensures e in ss[k].l.txs && ss[k].l.txs[e].ctx.order == o
    ensures acts[k] == TxStep(e, L.Lock(e)) || !ss[k].l.txs[e].Begun?
    ensures Legs(ss[k + 1].l.accounts, o) == Legs(ss[k].l.accounts, o)
  {
    assert StepAt(ss, acts, k);
    LockedComesFrom(ss[k], acts[k], ss[k + 1], e);
    assert !FillsAt(ss, acts, o, k) by {
      if acts[k] != TxStep(e, L.Lock(e)) {
        SysOkRun(ss, acts, k);
        LockExcludesFills(ss[k], acts[k], o, e);
      }
    }
    LegsAt(ss, acts, o, k);
  }

  /** The execution that commits at step j would have found order o pending had it looked again under the lock. */
  ghost predicate PendingUnderLock(ss: seq<Sys>, acts: seq<Act>, o: nat, j: nat)
    requires |ss| > |acts| && j < |acts| && acts[j].CommitTx?
  {
    forall i :: 0 <= i < j && acts[i] == TxStep(acts[j].e, L.Lock(acts[j].e)) ==> PendingOrder(ss[i], o)
  }

  /**
   A second look would do.  If every fill of an order belongs to an execution that found
   it still pending when it took the row lock, the order has at most one trade,
   whatever stale workers do.
   */
  lemma {:induction false} RecheckSuffices(ss: seq<Sys>, acts: seq<Act>, o: nat, n: nat)
    requires Run(ss, acts) && n <= |acts|
    requires forall j :: 0 <= j < n && FillsAt(ss, acts, o, j) ==> PendingUnderLock(ss, acts, o, j)
    ensures Legs(ss[n].l.accounts, o) <= 2
  {
    forall j | 0 <= j < n && FillsAt(ss, acts, o, j)
      ensures Legs(ss[j].l.accounts, o) == 0
    {
      RecheckOne(ss, acts, o, j);
    }
    AtMostTwoLegs(ss, acts, o, n);
  }

  lemma {:induction false} RecheckOne(ss: seq<Sys>, acts: seq<Act>, o: nat, j: nat)
    requires Run(ss, acts) && FillsAt(ss, acts, o, j) && PendingUnderLock(ss, acts, o, j)
    ensures Legs(ss[j].l.accounts, o) == 0
  {
    var e := acts[j].e;
    assert ss[j].l.txs[e].ctx.order == o by {
      SysOkRun(ss, acts, j);
      assert TxOk(ss[j], e);
    }
    var i := LockSince(ss, acts, o, e, j);
    PendingHasNoTrade(ss, acts, i, o);
  }
}
