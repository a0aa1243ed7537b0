/**
 Runs that show which races the code admits.

 The timeliness hypothesis of AtMostOneTrade is needed: ExecuteOrder reads the
 order's status before it locks the portfolio and does not read it again, so an
 execution that outlives its lease fills an order that its successor fills too.
 And a cancel writes its status unguarded, so it can overwrite a fill.
 */
module Races {
  import opened Prelude
  import opened Model
  import opened JobTables
  import opened Book
  import Q = QueueMachine
  import L = LedgerMachine
  import opened System
  import opened TradeLegs

  function Last(ss: seq<Sys>): Sys
    requires |ss| > 0
  {
    ss[|ss| - 1]
  }

  /** Only executions in `xs` act after their leases; leases are nonnegative and the reaper is atomic. */
  predicate Behaved(s: Sys, a: Act, xs: set<nat>) {
    && (Timely(s, a) || (Actor(a).Some? && Actor(a).value in xs))
    && (a.QueueStep? ==> Q.NonnegativeLease(a.qa) && Q.AtomicReap(s.q, a.qa))
  }

  ghost predicate Good(ss: seq<Sys>, acts: seq<Act>, xs: set<nat>) {
    Run(ss, acts) && forall k :: 0 <= k < |acts| ==> Behaved(ss[k], acts[k], xs)
  }

  predicate MayAct(s: Sys, e: nat, xs: set<nat>) {
    Q.Live(s.q, e) || e in xs
  }

  /** The longer run goes on from the shorter one. */
  predicate Continues(ss: seq<Sys>, acts: seq<Act>, ss': seq<Sys>, acts': seq<Act>) {
    ss <= ss' && acts <= acts'
  }

  lemma GoOn(ss: seq<Sys>, acts: seq<Act>, ss1: seq<Sys>, acts1: seq<Act>, ss2: seq<Sys>, acts2: seq<Act>)
    requires Continues(ss, acts, ss1, acts1) && Continues(ss1, acts1, ss2, acts2)
    ensures Continues(ss, acts, ss2, acts2)
  {
    PrefixTransitive(ss, ss1, ss2);
    PrefixTransitive(acts, acts1, acts2);
  }

  lemma Extend(ss: seq<Sys>, acts: seq<Act>, xs: set<nat>, a: Act) returns (ss': seq<Sys>, acts': seq<Act>)
    requires Good(ss, acts, xs) && Enabled(Last(ss), a) && Behaved(Last(ss), a, xs)
    ensures Continues(ss, acts, ss', acts') && Good(ss', acts', xs) && Last(ss') == Do(Last(ss), a)
    ensures acts' == acts + [a]
  {
    ss', acts' := ss + [Do(Last(ss), a)], acts + [a];
    forall i | 0 <= i < |acts'|
      ensures StepAt(ss', acts', i)
    {
      if i < |acts| {
        assert StepAt(ss, acts, i);
      }
    }
  }

  function CtxOf(s: Sys, e: nat): Ctx
    requires e in s.q.execs && s.q.execs[e].kind.ExecuteOrder? && e in s.pcs && s.pcs[e].Priced?
  {
    Ctx(s.q.execs[e].kind.order, e, s.pcs[e].order, s.pcs[e].price, s.q.clock)
  }

  /** Execution e has its price, the lock is free and the portfolio covers the order. */
  predicate ReadyToFill(s: Sys, e: nat) {
    && ExecutesOrder(s, e) && s.pcs[e].Priced? && e !in s.l.txs && e !in s.l.started
    && s.pcs[e].order.portfolio < |s.l.accounts| && s.pcs[e].order.quantity > 0
    && s.l.accounts[s.pcs[e].order.portfolio].holder == None
    && Decision(L.Ledgered(s.l.accounts[s.pcs[e].order.portfolio]), CtxOf(s, e)) == Fill
  }

  /** What the steps of one transaction leave alone. */
  predicate Quiet(s: Sys, s': Sys, e: nat) {
    && s'.q == s.q && s'.orders == s.orders && s'.pcs == s.pcs && s'.l.started == s.l.started && s'.cancels == s.cancels
    && |s'.l.accounts| == |s.l.accounts|
    && (forall f :: f in s.l.txs && f != e ==> f in s'.l.txs && s'.l.txs[f] == s.l.txs[f])
    && (forall f :: f in s'.l.txs && f != e ==> f in s.l.txs)
  }

  predicate InTxOf(s: Sys, e: nat, t: L.Tx) {
    ExecutesOrder(s, e) && s.pcs[e] == InTx && e in s.l.txs && s.l.txs[e] == t
  }

  lemma DoBegin(ss: seq<Sys>, acts: seq<Act>, xs: set<nat>, e: nat) returns (ss': seq<Sys>, acts': seq<Act>)
    requires Good(ss, acts, xs) && MayAct(Last(ss), e, xs) && ReadyToFill(Last(ss), e)
    ensures Continues(ss, acts, ss', acts') && Good(ss', acts', xs) && InTxOf(Last(ss'), e, L.Begun(CtxOf(Last(ss), e)))
    ensures var s, s' := Last(ss), Last(ss');
      && s'.q == s.q && s'.orders == s.orders && s'.pcs == s.pcs[e := InTx]
      && s'.l.started == s.l.started + {e} && s'.l.accounts == s.l.accounts
      && s'.l.txs == s.l.txs[e := L.Begun(CtxOf(s, e))] && s'.cancels == s.cancels
  {
    ss', acts' := Extend(ss, acts, xs, BeginTx(e));
  }

  lemma DoLock(ss: seq<Sys>, acts: seq<Act>, xs: set<nat>, e: nat, c: Ctx) returns (ss': seq<Sys>, acts': seq<Act>)
    requires Good(ss, acts, xs) && MayAct(Last(ss), e, xs) && InTxOf(Last(ss), e, L.Begun(c))
    requires c.terms.portfolio < |Last(ss).l.accounts|
    requires Last(ss).l.accounts[c.terms.portfolio].holder == None
    ensures Continues(ss, acts, ss', acts') && Good(ss', acts', xs)
    ensures var p := c.terms.portfolio;
      var s, s' := Last(ss), Last(ss');
      && Quiet(s, s', e) && InTxOf(s', e, L.Locked(c, s.l.accounts[p].seqCounter))
      && s'.l.accounts[p].entries == s.l.accounts[p].entries
      && s'.l.accounts[p].seqCounter == s.l.accounts[p].seqCounter
  {
    ss', acts' := Extend(ss, acts, xs, TxStep(e, L.Lock(e)));
  }

  lemma DoRead(ss: seq<Sys>, acts: seq<Act>, xs: set<nat>, e: nat, c: Ctx, n: int)
    returns (ss': seq<Sys>, acts': seq<Act>)
    requires Good(ss, acts, xs) && MayAct(Last(ss), e, xs) && InTxOf(Last(ss), e, L.Locked(c, n))
    requires c.terms.portfolio < |Last(ss).l.accounts|
    requires HoldingsFit(Last(ss).l.accounts[c.terms.portfolio].entries)
    ensures Continues(ss, acts, ss', acts') && Good(ss', acts', xs)
    ensures var s, s' := Last(ss), Last(ss');
      && Quiet(s, s', e) && s'.l.accounts == s.l.accounts
      && InTxOf(s', e, L.Read(c, n, Holdings(s.l.accounts[c.terms.portfolio].entries)))
  {
    ss', acts' := Extend(ss, acts, xs, TxStep(e, L.ReadHoldings(e)));
  }

  lemma DoDecide(ss: seq<Sys>, acts: seq<Act>, xs: set<nat>, e: nat, c: Ctx, n: int, es: seq<Entry>)
    returns (ss': seq<Sys>, acts': seq<Act>)
    requires Good(ss, acts, xs) && MayAct(Last(ss), e, xs) && InTxOf(Last(ss), e, L.Read(c, n, Holdings(es)))
    requires Covers(es, c)
    ensures Continues(ss, acts, ss', acts') && Good(ss', acts', xs)
    ensures var s, s' := Last(ss), Last(ss');
      && Quiet(s, s', e) && s'.l.accounts == s.l.accounts
      && InTxOf(s', e, L.Writing(c, n, L.InsertStock, L.EMPTY))
  {
    L.EnoughIsCovers(es, c);
    DoubleEntryNeverFires(c, n);
    ss', acts' := Extend(ss, acts, xs, TxStep(e, L.Decide(e)));
  }

  lemma DoWrite(ss: seq<Sys>, acts: seq<Act>, xs: set<nat>, e: nat, c: Ctx, n: int, stage: L.Stage, next: L.Stage)
    returns (ss': seq<Sys>, acts': seq<Act>)
    requires Good(ss, acts, xs) && MayAct(Last(ss), e, xs)
    requires InTxOf(Last(ss), e, L.Writing(c, n, stage, L.BufferAt(c, n, stage)))
    requires stage != L.Close && c.terms.quantity > 0 && Cost(c) > 0
    requires L.Statement(c, n, stage, L.BufferAt(c, n, stage)) == (next, L.BufferAt(c, n, next))
    ensures Continues(ss, acts, ss', acts') && Good(ss', acts', xs)
    ensures var s, s' := Last(ss), Last(ss');
      && Quiet(s, s', e) && s'.l.accounts == s.l.accounts
      && InTxOf(s', e, L.Writing(c, n, next, L.BufferAt(c, n, next)))
  {
    ss', acts' := Extend(ss, acts, xs, TxStep(e, L.Write(e)));
  }

  lemma DoInserts(ss: seq<Sys>, acts: seq<Act>, xs: set<nat>, e: nat, c: Ctx, n: int)
    returns (ss': seq<Sys>, acts': seq<Act>)
    requires Good(ss, acts, xs) && MayAct(Last(ss), e, xs)
    requires InTxOf(Last(ss), e, L.Writing(c, n, L.InsertStock, L.EMPTY))
    requires c.terms.quantity > 0 && Cost(c) > 0
    ensures Continues(ss, acts, ss', acts') && Good(ss', acts', xs)
    ensures var s, s' := Last(ss), Last(ss');
      && Quiet(s, s', e) && s'.l.accounts == s.l.accounts
      && InTxOf(s', e, L.Writing(c, n, L.BumpSeq, L.BufferAt(c, n, L.BumpSeq)))
  {
    assert [] + [StockLeg(c, n)] == [StockLeg(c, n)];
    assert [StockLeg(c, n)] + [CashLeg(c, n)] == [StockLeg(c, n), CashLeg(c, n)];
    var ss1, acts1 := DoWrite(ss, acts, xs, e, c, n, L.InsertStock, L.InsertCash);
    ss', acts' := DoWrite(ss1, acts1, xs, e, c, n, L.InsertCash, L.BumpSeq);
    GoOn(ss, acts, ss1, acts1, ss', acts');
  }

  lemma DoAllWrites(ss: seq<Sys>, acts: seq<Act>, xs: set<nat>, e: nat, c: Ctx, n: int)
    returns (ss': seq<Sys>, acts': seq<Act>)
    requires Good(ss, acts, xs) && MayAct(Last(ss), e, xs)
    requires InTxOf(Last(ss), e, L.Writing(c, n, L.InsertStock, L.EMPTY))
    requires c.terms.quantity > 0 && Cost(c) > 0
    ensures Continues(ss, acts, ss', acts') && Good(ss', acts', xs)
    ensures var s, s' := Last(ss), Last(ss');
      && Quiet(s, s', e) && s'.l.accounts == s.l.accounts
      && InTxOf(s', e, L.Writing(c, n, L.Close, L.BufferAt(c, n, L.Close)))
  {
    var ss1, acts1 := DoInserts(ss, acts, xs, e, c, n);
    var ss2, acts2 := DoWrite(ss1, acts1, xs, e, c, n, L.BumpSeq, L.SetFilled);
    GoOn(ss, acts, ss1, acts1, ss2, acts2);
    var ss3, acts3 := DoWrite(ss2, acts2, xs, e, c, n, L.SetFilled, L.Schedule);
    GoOn(ss, acts, ss2, acts2, ss3, acts3);
    ss', acts' := DoWrite(ss3, acts3, xs, e, c, n, L.Schedule, L.Close);
    GoOn(ss, acts, ss3, acts3, ss', acts');
  }

  lemma DoCommit(ss: seq<Sys>, acts: seq<Act>, xs: set<nat>, e: nat, c: Ctx, n: int)
    returns (ss': seq<Sys>, acts': seq<Act>)
    requires Good(ss, acts, xs) && MayAct(Last(ss), e, xs)
    requires InTxOf(Last(ss), e, L.Writing(c, n, L.Close, L.BufferAt(c, n, L.Close)))
    requires c.terms.portfolio < |Last(ss).l.accounts|
    ensures Continues(ss, acts, ss', acts') && Good(ss', acts', xs)
    ensures var s, s' := Last(ss), Last(ss');
      var p := c.terms.portfolio;
      && s'.q.execs == s.q.execs && s'.q.clock == s.q.clock && |s'.orders| == |s.orders|
      && s'.pcs == s.pcs[e := Finished] && s'.l.started == s.l.started && s'.l.txs == s.l.txs - {e}
      && |s'.l.accounts| == |s.l.accounts| && s'.l.accounts[p].holder == None && s'.cancels == s.cancels
      && L.Ledgered(s'.l.accounts[p])
         == Book(s.l.accounts[p].entries + [StockLeg(c, n), CashLeg(c, n)], s.l.accounts[p].seqCounter + 2)
  {
    ss', acts' := Extend(ss, acts, xs, CommitTx(e));
  }

  /** A priced execution goes through to its fill and disturbs no other execution. */
  lemma FillThrough(ss: seq<Sys>, acts: seq<Act>, xs: set<nat>, e: nat) returns (ss': seq<Sys>, acts': seq<Act>)
    requires Good(ss, acts, xs) && MayAct(Last(ss), e, xs) && ReadyToFill(Last(ss), e)
    ensures Continues(ss, acts, ss', acts') && Good(ss', acts', xs)
    ensures var s, s' := Last(ss), Last(ss');
      var p := CtxOf(s, e).terms.portfolio;
      && s'.q.execs == s.q.execs && s'.q.clock == s.q.clock && |s'.orders| == |s.orders|
      && s'.pcs == s.pcs[e := InTx][e := Finished] && s'.l.started == s.l.started + {e}
      && (forall f :: f in s'.l.txs ==> f in s.l.txs)
      && |s'.l.accounts| == |s.l.accounts| && s'.l.accounts[p].holder == None && s'.cancels == s.cancels
      && L.Ledgered(s'.l.accounts[p]) == Body(L.Ledgered(s.l.accounts[p]), CtxOf(s, e))
  {
    var c := CtxOf(Last(ss), e);
    var a := Last(ss).l.accounts[c.terms.portfolio];
    var ss1, acts1 := DoBegin(ss, acts, xs, e);
    var ss2, acts2 := DoLock(ss1, acts1, xs, e, c);
    GoOn(ss, acts, ss1, acts1, ss2, acts2);
    var ss3, acts3 := DoRead(ss2, acts2, xs, e, c, a.seqCounter);
    GoOn(ss, acts, ss2, acts2, ss3, acts3);
    var ss4, acts4 := DoDecide(ss3, acts3, xs, e, c, a.seqCounter, a.entries);
    GoOn(ss, acts, ss3, acts3, ss4, acts4);
    var ss5, acts5 := DoAllWrites(ss4, acts4, xs, e, c, a.seqCounter);
    GoOn(ss, acts, ss4, acts4, ss5, acts5);
    ss', acts' := DoCommit(ss5, acts5, xs, e, c, a.seqCounter);
    GoOn(ss, acts, ss5, acts5, ss', acts');
  }

  // --------------------------------------------------------------- the run

  const ORDER := Order(0, "", Buy, "X", 1, Market, Pending, None)

  /** Two executions of order 0 have each read it as pending; the first one's lease is over. */
  predicate BothHaveRead(s: Sys) {
    && 0 in s.q.execs && 1 in s.q.execs && 0 in s.pcs && 1 in s.pcs && |s.orders| == 1
    && s.q.execs[0].kind == ExecuteOrder(0) && s.q.execs[1].kind == ExecuteOrder(0)
    && s.q.execs[0].phase == Q.Working && s.q.execs[1].phase == Q.Working
    && s.q.clock > s.q.execs[0].lease && Q.Live(s.q, 1)
    && s.pcs[0] == GotOrder(ORDER) && s.pcs[1] == GotOrder(ORDER)
    && s.l == BOOKS
  }

  const BOOKS := L.Ledger([L.Account(1, [SeedEntry(100, 0)], None, [], 100, 0)], map[], {})

  function Row(status: Status, attempts: nat, leasedUntil: Option<int>): Tables {
    Tables(map[0 := Job(ExecuteOrder(0), 10, 0, status, attempts, 5, leasedUntil)], map[])
  }

  function Execution(attempts: nat, lease: int): Q.Exec {
    Q.Exec(0, ExecuteOrder(0), attempts, 5, lease, Q.Working)
  }

  /** The queue with the one job of order 0. */
  function QueueWith(clock: int, t: Tables, execs: map<nat, Q.Exec>, next: nat, reapedAt: Option<int>): Q.Queue {
    Q.Queue(clock, t, execs, next, [ExecuteOrder(0)], map[], {}, reapedAt)
  }

  function StateWith(q: Q.Queue, pcs: map<nat, Pc>): Sys {
    Sys(q, BOOKS, [ORDER], pcs, multiset{}, 0, [0], map[])
  }

  lemma Placed(xs: set<nat>) returns (ss: seq<Sys>, acts: seq<Act>)
    ensures Good(ss, acts, xs) && Last(ss) == StateWith(QueueWith(0, Row(Queued, 0, None), map[], 0, None), map[])
  {
    var s := Sys(Q.Queue(0, Tables(map[], map[]), map[], 0, [], map[], {}, None), L.Ledger([], map[], {}),
                 [], map[], multiset{}, 0, [], map[]);
    ss, acts := [s], [];
    ss, acts := Extend(ss, acts, xs, OpenPortfolio(100));
    assert Last(ss).l == BOOKS;
    ss, acts := Extend(ss, acts, xs, PlaceOrder(ORDER));
  }

  lemma DoQueue(ss: seq<Sys>, acts: seq<Act>, xs: set<nat>, q: Q.Queue, pcs: map<nat, Pc>, qa: Q.QAct, q': Q.Queue)
    returns (ss': seq<Sys>, acts': seq<Act>)
    requires Good(ss, acts, xs) && Last(ss) == StateWith(q, pcs) && PureQueueStep(qa)
    requires Q.QEnabled(q, qa) && q' == Q.QDo(q, qa)
    requires Q.Actor(qa) == None && Q.NonnegativeLease(qa) && Q.AtomicReap(q, qa)
    ensures Good(ss', acts', xs)
    ensures Last(ss') == StateWith(q', if qa.Claim? then pcs[q.nextExec := Start] else pcs)
  {
    ss', acts' := Extend(ss, acts, xs, QueueStep(qa));
  }

  lemma DoReadOrder(ss: seq<Sys>, acts: seq<Act>, xs: set<nat>, q: Q.Queue, pcs: map<nat, Pc>, e: nat)
    returns (ss': seq<Sys>, acts': seq<Act>)
    requires Good(ss, acts, xs) && MayAct(Last(ss), e, xs) && Last(ss) == StateWith(q, pcs) && e in q.execs
    requires e in pcs && pcs[e] == Start
    requires q.execs[e].kind == ExecuteOrder(0) && q.execs[e].phase == Q.Working
    ensures Good(ss', acts', xs) && Last(ss') == StateWith(q, pcs[e := GotOrder(ORDER)])
  {
    ss', acts' := Extend(ss, acts, xs, ReadOrder(e));
  }

  /** The first execution claims the job and reads the order. */
  lemma FirstReads(xs: set<nat>) returns (ss: seq<Sys>, acts: seq<Act>)
    ensures Good(ss, acts, xs)
    ensures Last(ss) == StateWith(QueueWith(0, Row(Inflight, 1, Some(1)), map[0 := Execution(1, 1)], 1, None),
                                  map[0 := GotOrder(ORDER)])
  {
    ss, acts := Placed(xs);
    var q0 := QueueWith(0, Row(Queued, 0, None), map[], 0, None);
    var q1 := QueueWith(0, Row(Inflight, 1, Some(1)), map[0 := Execution(1, 1)], 1, None);
    ss, acts := DoQueue(ss, acts, xs, q0, map[], Q.Claim(0, 1), q1);
    ss, acts := DoReadOrder(ss, acts, xs, q1, map[0 := Start], 0);
    assert map[0 := Start][0 := GotOrder(ORDER)] == map[0 := GotOrder(ORDER)];
  }

  /** It then outlives its lease. */
  lemma FirstOutlives(xs: set<nat>) returns (ss: seq<Sys>, acts: seq<Act>)
    ensures Good(ss, acts, xs)
    ensures Last(ss) == StateWith(QueueWith(2, Row(Inflight, 1, Some(1)), map[0 := Execution(1, 1)], 1, None),
                                  map[0 := GotOrder(ORDER)])
  {
    ss, acts := FirstReads(xs);
    var q1 := QueueWith(0, Row(Inflight, 1, Some(1)), map[0 := Execution(1, 1)], 1, None);
    ss, acts := DoQueue(ss, acts, xs, q1, map[0 := GotOrder(ORDER)], Q.Tick(2), q1.(clock := 2));
  }

  /** The reaper requeues the job. */
  lemma FirstReaped(xs: set<nat>) returns (ss: seq<Sys>, acts: seq<Act>)
    ensures Good(ss, acts, xs)
    ensures Last(ss) == StateWith(QueueWith(2, Row(Queued, 1, None), map[0 := Execution(1, 1)], 1, Some(2)),
                                  map[0 := GotOrder(ORDER)])
  {
    ss, acts := FirstOutlives(xs);
    var pcs: map<nat, Pc> := map[0 := GotOrder(ORDER)];
    var q := QueueWith(2, Row(Inflight, 1, Some(1)), map[0 := Execution(1, 1)], 1, None);
    assert Doomed(q.tables.jobs, 2) == {};
    assert ReapDead(q.tables, 2) == q.tables;
    ss, acts := DoQueue(ss, acts, xs, q, pcs, Q.ReapFirst, q.(reapedAt := Some(2)));
    q := q.(reapedAt := Some(2));
    var q1 := q.(tables := Row(Queued, 1, None));
    assert ReapRequeue(q.tables, 2) == q1.tables;
    ss, acts := DoQueue(ss, acts, xs, q, pcs, Q.ReapSecond, q1);
  }

  /** A second execution reads the order, still pending. */
  lemma BothRead(xs: set<nat>) returns (ss: seq<Sys>, acts: seq<Act>)
    ensures Good(ss, acts, xs) && BothHaveRead(Last(ss))
  {
    ss, acts := FirstReaped(xs);
    var pcs: map<nat, Pc> := map[0 := GotOrder(ORDER)];
    var q1 := QueueWith(2, Row(Queued, 1, None), map[0 := Execution(1, 1)], 1, Some(2));
    var q2 := Q.QDo(q1, Q.Claim(0, 1));
    ss, acts := DoQueue(ss, acts, xs, q1, pcs, Q.Claim(0, 1), q2);
    ss, acts := DoReadOrder(ss, acts, xs, q2, pcs[1 := Start], 1);
  }

  lemma DoQuote(ss: seq<Sys>, acts: seq<Act>, xs: set<nat>, e: nat) returns (ss': seq<Sys>, acts': seq<Act>)
    requires Good(ss, acts, xs) && MayAct(Last(ss), e, xs) && ExecutesOrder(Last(ss), e)
    requires Last(ss).pcs[e] == GotOrder(ORDER)
    ensures Continues(ss, acts, ss', acts') && Good(ss', acts', xs)
    ensures Last(ss') == Last(ss).(pcs := Last(ss).pcs[e := Priced(ORDER, 10)])
  {
    ss', acts' := Extend(ss, acts, xs, TakeQuote(e, 10));
  }

  /** The books before either fill, and after the first one. */
  ghost predicate Covered(b: Book) {
    forall i :: Net(b.entries, i) <= 100 && Net(b.entries, i) >= if i == CASH then 10 else 0
  }

  lemma SeedCovered()
    ensures Covered(L.Ledgered(BOOKS.accounts[0]))
    ensures forall i :: Net(BOOKS.accounts[0].entries, i) == if i == CASH then 100 else 0
  {
    forall i
      ensures Net(BOOKS.accounts[0].entries, i) == if i == CASH then 100 else 0
    {
      NetAppend([], SeedEntry(100, 0), i);
      assert [] + [SeedEntry(100, 0)] == BOOKS.accounts[0].entries;
    }
  }

  lemma CoveredFills(b: Book, c: Ctx)
    requires Covered(b) && c.terms == ORDER && c.price == 10
    ensures Decision(b, c) == Fill
  {
  }

  lemma StillCovered(b: Book, c: Ctx)
    requires c.terms == ORDER && c.price == 10
    requires forall i :: Net(b.entries, i) == if i == CASH then 100 else 0
    ensures Covered(Body(b, c))
  {
    assert Covered(b);
    CoveredFills(b, c);
    forall i
      ensures Net(Body(b, c).entries, i) == if i == CASH then 90 else if i == "X" then 1 else 0
    {
      NetBody(b, c, i);
    }
  }

  lemma BodyLegs(b: Book, c: Ctx)
    requires Decision(b, c) == Fill
    ensures LegsIn(Body(b, c).entries, c.order) == LegsIn(b.entries, c.order) + 2
  {
    var s, k := StockLeg(c, b.seqCounter), CashLeg(c, b.seqCounter);
    assert Body(b, c).entries == b.entries + [s] + [k];
    LegsInAppend(b.entries, s, c.order);
    LegsInAppend(b.entries + [s], k, c.order);
  }

  /**
   One order, two trades: a run in which only execution 0 acts after its lease, with
   nonnegative leases and an atomic reaper, writes four legs for order 0.
   */
  lemma StaleWorkerTradesTwice() returns (ss: seq<Sys>, acts: seq<Act>)
    ensures Good(ss, acts, {0}) && Legs(Last(ss).l.accounts, 0) == 4
  {
    var xs := {0};
    ss, acts := BothRead(xs);
    SeedCovered();
    ss, acts := DoQuote(ss, acts, xs, 0);
    ss, acts := DoQuote(ss, acts, xs, 1);
    var b0 := L.Ledgered(BOOKS.accounts[0]);
    var c0 := CtxOf(Last(ss), 0);
    CoveredFills(b0, c0);
    ss, acts := FillThrough(ss, acts, xs, 0);
    var b1 := Body(b0, c0);
    StillCovered(b0, c0);
    var c1 := CtxOf(Last(ss), 1);
    CoveredFills(b1, c1);
    ss, acts := FillThrough(ss, acts, xs, 1);
    BodyLegs(b0, c0);
    BodyLegs(b1, c1);
    OneAccountLegs(Last(ss).l.accounts, 0);
    SeedLegs();
  }

  lemma {:induction false} OneAccountLegs(accounts: seq<L.Account>, o: nat)
    requires |accounts| == 1
    ensures Legs(accounts, o) == LegsIn(accounts[0].entries, o)
  {
    assert accounts[..0] == [];
  }

  lemma SeedLegs()
    ensures LegsIn(BOOKS.accounts[0].entries, 0) == 0
  {
    LegsInAppend([], SeedEntry(100, 0), 0);
    assert [] + [SeedEntry(100, 0)] == BOOKS.accounts[0].entries;
  }

  lemma DoCancelRead(ss: seq<Sys>, acts: seq<Act>, xs: set<nat>) returns (ss': seq<Sys>, acts': seq<Act>)
    requires Good(ss, acts, xs) && |Last(ss).orders| == 1 && Last(ss).orders[0].status == Pending
    ensures Good(ss', acts', xs) && Last(ss') == Last(ss).(cancels := Last(ss).cancels + multiset{0})
  {
    ss', acts' := Extend(ss, acts, xs, CancelRead(0));
  }

  lemma DoCancelWrite(ss: seq<Sys>, acts: seq<Act>, xs: set<nat>) returns (ss': seq<Sys>, acts': seq<Act>)
    requires Good(ss, acts, xs) && |Last(ss).orders| == 1 && 0 in Last(ss).cancels
    ensures Good(ss', acts', xs) && |Last(ss').orders| == 1 && Last(ss').orders[0].status == Cancelled
    ensures Last(ss').l == Last(ss).l
  {
    ss', acts' := Extend(ss, acts, xs, CancelWrite(0));
  }

  /**
   Cancelled and yet traded: in a run with timely workers, a cancel that read the
   order as pending overwrites the fill that committed in between.
   */
  lemma CancelOverwritesFill() returns (ss: seq<Sys>, acts: seq<Act>)
    ensures Good(ss, acts, {}) && |Last(ss).orders| == 1
    ensures Last(ss).orders[0].status == Cancelled && Legs(Last(ss).l.accounts, 0) == 2
  {
    ss, acts := FirstReads({});
    ss, acts := DoCancelRead(ss, acts, {});
    SeedCovered();
    ss, acts := DoQuote(ss, acts, {}, 0);
    var b0 := L.Ledgered(BOOKS.accounts[0]);
    var c0 := CtxOf(Last(ss), 0);
    CoveredFills(b0, c0);
    ss, acts := FillThrough(ss, acts, {}, 0);
    ss, acts := DoCancelWrite(ss, acts, {});
    BodyLegs(b0, c0);
    OneAccountLegs(Last(ss).l.accounts, 0);
    SeedLegs();
  }

  /** The first execution has read the order, and then the order is cancelled. */
  lemma CancelledWhileEngaged() returns (ss: seq<Sys>, acts: seq<Act>)
    ensures Good(ss, acts, {}) && |acts| > 0 && acts[|acts| - 1] == CancelWrite(0)
    ensures var s := StateWith(QueueWith(0, Row(Inflight, 1, Some(1)), map[0 := Execution(1, 1)], 1, None),
                               map[0 := GotOrder(ORDER)]);
      Last(ss) == s.(orders := WithStatus(s.orders, 0, Cancelled))
  {
    ss, acts := FirstReads({});
    ss, acts := DoCancelRead(ss, acts, {});
    ss, acts := Extend(ss, acts, {}, CancelWrite(0));
  }

  /**
   Told "cancelled" and yet filled: in a run with timely workers the cancel writes its status
   while the order has no legs, and an execution that had read the order before fills it.
   */
  lemma FillOverridesCancel() returns (ss: seq<Sys>, acts: seq<Act>, j: nat)
    ensures Good(ss, acts, {}) && j < |acts| && acts[j] == CancelWrite(0)
    ensures Legs(ss[j + 1].l.accounts, 0) == 0 && Legs(Last(ss).l.accounts, 0) == 2
  {
    var ss1, acts1 := CancelledWhileEngaged();
    j := |acts1| - 1;
    SeedCovered();
    SeedLegs();
    OneAccountLegs(Last(ss1).l.accounts, 0);
    var ss2, acts2 := DoQuote(ss1, acts1, {}, 0);
    var b0 := L.Ledgered(BOOKS.accounts[0]);
    var c0 := CtxOf(Last(ss2), 0);
    CoveredFills(b0, c0);
    ss, acts := FillThrough(ss2, acts2, {}, 0);
    GoOn(ss1, acts1, ss2, acts2, ss, acts);
    assert ss[j + 1] == ss1[j + 1] && acts[j] == acts1[j];
    BodyLegs(b0, c0);
    OneAccountLegs(Last(ss).l.accounts, 0);
  }
}
