/**
 The ExecuteOrder transactions of any number of workers, statement by statement.
 A transaction's own writes stay in its buffer until it commits; a statement
 reads the latest committed rows; the row lock on the portfolio is held from
 LockForUpdate to commit or rollback.  A statement that fails (a sum that does
 not fit a bigint, a violated CHECK) is not enabled, and `Rollback`, which is
 enabled throughout, is what follows.
 */
module LedgerMachine {
  import opened Prelude
  import opened Model
  import opened Book

  /** A grant of the portfolio row lock, with what became of the transaction. */
  datatype Fate = Open | Committed | RolledBack
  datatype Grant = Grant(ctx: Ctx, fate: Fate)

  /** A portfolio row with its entries; `grants`, `seed` and `since` are history. */
  datatype Account = Account(seqCounter: int, entries: seq<Entry>, holder: Option<nat>,
                             grants: seq<Grant>, seed: int, since: int)

  /** Next statement of a filling transaction. */
  datatype Stage = InsertStock | InsertCash | BumpSeq | SetFilled | Schedule | Close

  /** Uncommitted writes: entries, counter increment, order status, settle job. */
  datatype Buffer = Buffer(legs: seq<Entry>, bump: int, status: Option<OrderStatus>, settle: bool)

  datatype Tx =
    | Begun(ctx: Ctx)
    | Locked(ctx: Ctx, seqNo: int)
    | Read(ctx: Ctx, seqNo: int, holdings: map<string, int>)
    | Writing(ctx: Ctx, seqNo: int, stage: Stage, buf: Buffer)

  datatype Ledger = Ledger(accounts: seq<Account>, txs: map<nat, Tx>, started: set<nat>)

  datatype LAct =
    | OpenAccount(seed: int, at: int)
    | Begin(ctx: Ctx)
    | Lock(e: nat)
    | ReadHoldings(e: nat)
    | Decide(e: nat)
    | Write(e: nat)
    | Commit(e: nat)
    | Rollback(e: nat)

  predicate LInit(l: Ledger) {
    l == Ledger([], map[], {})
  }

  predicate Enough(h: map<string, int>, c: Ctx) {
    if c.terms.side == Buy then Lookup(h, CASH) >= Cost(c) else Lookup(h, c.terms.instrument) >= c.terms.quantity
  }

  predicate LEnabled(l: Ledger, a: LAct) {
    match a
    case OpenAccount(seed, _) => seed >= 0
    case Begin(c) => c.exec !in l.started && c.exec !in l.txs
    case Lock(e) =>
      e in l.txs && l.txs[e].Begun? && l.txs[e].ctx.terms.portfolio < |l.accounts|
      && l.accounts[l.txs[e].ctx.terms.portfolio].holder == None
    case ReadHoldings(e) =>
      e in l.txs && l.txs[e].Locked? && l.txs[e].ctx.terms.portfolio < |l.accounts|
      && HoldingsFit(l.accounts[l.txs[e].ctx.terms.portfolio].entries)
    case Decide(e) =>
      e in l.txs && l.txs[e].Read?
      && (Enough(l.txs[e].holdings, l.txs[e].ctx) ==>
            DoubleEntry(StockLeg(l.txs[e].ctx, l.txs[e].seqNo), CashLeg(l.txs[e].ctx, l.txs[e].seqNo)))
    case Write(e) =>
      e in l.txs && l.txs[e].Writing? && l.txs[e].stage != Close
      && (l.txs[e].stage == InsertStock ==> l.txs[e].ctx.terms.quantity > 0)
      && (l.txs[e].stage == InsertCash ==> Cost(l.txs[e].ctx) > 0)
    case Commit(e) =>
      e in l.txs && l.txs[e].Writing? && l.txs[e].stage == Close && l.txs[e].ctx.terms.portfolio < |l.accounts|
    case Rollback(e) => e in l.txs
  }

  const EMPTY := Buffer([], 0, None, false)

  /** The statement at each stage, applied to the transaction's buffer. */
  function Statement(c: Ctx, seqNo: int, stage: Stage, buf: Buffer): (Stage, Buffer) {
    match stage
    case InsertStock => (InsertCash, buf.(legs := buf.legs + [StockLeg(c, seqNo)]))
    case InsertCash => (BumpSeq, buf.(legs := buf.legs + [CashLeg(c, seqNo)]))
    case BumpSeq => (SetFilled, buf.(bump := buf.bump + 2))
    case SetFilled => (Schedule, buf.(status := Some(Filled)))
    case Schedule => (Close, buf.(settle := true))
    case Close => (Close, buf)
  }

  function Marked(gs: seq<Grant>, fate: Fate): seq<Grant> {
    if gs == [] then gs else gs[..|gs| - 1] + [gs[|gs| - 1].(fate := fate)]
  }

  function Committing(a: Account, buf: Buffer): Account {
    a.(seqCounter := a.seqCounter + buf.bump, entries := a.entries + buf.legs, holder := None,
       grants := Marked(a.grants, Committed))
  }

  function RollingBack(a: Account): Account {
    a.(holder := None, grants := Marked(a.grants, RolledBack))
  }

  function LDo(l: Ledger, a: LAct): Ledger
    requires LEnabled(l, a)
  {
    match a
    case OpenAccount(seed, at) =>
      var b := SeedBook(seed, at);
      l.(accounts := l.accounts + [Account(b.seqCounter, b.entries, None, [], seed, at)])
    case Begin(c) => l.(txs := l.txs[c.exec := Begun(c)], started := l.started + {c.exec})
    case Lock(e) =>
      var c := l.txs[e].ctx;
      var p := c.terms.portfolio;
      var a := l.accounts[p];
      l.(accounts := l.accounts[p := a.(holder := Some(e), grants := a.grants + [Grant(c, Open)])],
         txs := l.txs[e := Locked(c, a.seqCounter)])
    case ReadHoldings(e) =>
      var c := l.txs[e].ctx;
      l.(txs := l.txs[e := Read(c, l.txs[e].seqNo, Holdings(l.accounts[c.terms.portfolio].entries))])
    case Decide(e) =>
      var c := l.txs[e].ctx;
      if Enough(l.txs[e].holdings, c)
      then l.(txs := l.txs[e := Writing(c, l.txs[e].seqNo, InsertStock, EMPTY)])
      else l.(txs := l.txs[e := Writing(c, l.txs[e].seqNo, Close, EMPTY.(status := Some(Rejected)))])
    case Write(e) =>
      var t := l.txs[e];
      var (stage, buf) := Statement(t.ctx, t.seqNo, t.stage, t.buf);
      l.(txs := l.txs[e := Writing(t.ctx, t.seqNo, stage, buf)])
    case Commit(e) =>
      var p := l.txs[e].ctx.terms.portfolio;
      l.(accounts := l.accounts[p := Committing(l.accounts[p], l.txs[e].buf)], txs := l.txs - {e})
    case Rollback(e) =>
      var p := l.txs[e].ctx.terms.portfolio;
      l.(accounts := if l.txs[e].Begun? || p >= |l.accounts| then l.accounts
                     else l.accounts[p := RollingBack(l.accounts[p])],
         txs := l.txs - {e})
  }

  ghost predicate LRun(ls: seq<Ledger>, acts: seq<LAct>) {
    && |ls| == |acts| + 1
    && LInit(ls[0])
    && forall i :: 0 <= i < |acts| ==> LEnabled(ls[i], acts[i]) && ls[i + 1] == LDo(ls[i], acts[i])
  }

  /** Every order that reaches a transaction has passed validation. */
  predicate ValidAct(a: LAct) {
    a.Begin? ==> ValidCtx(a.ctx)
  }

  // ------------------------------------------------------- serialisability

  /** Contexts of the committed transactions, in the order the lock was granted. */
  function Winners(gs: seq<Grant>): seq<Ctx> {
    if gs == [] then []
    else
      var rest := Winners(gs[..|gs| - 1]);
      if gs[|gs| - 1].fate == Committed then rest + [gs[|gs| - 1].ctx] else rest
  }

  function Ledgered(a: Account): Book {
    Book(a.entries, a.seqCounter)
  }

  /** The committed rows are those of running the winners' bodies one by one. */
  ghost predicate Serial(a: Account) {
    Ledgered(a) == Replayed(a.seed, a.since, Winners(a.grants))
  }

  function BufferAt(c: Ctx, seqNo: int, stage: Stage): Buffer {
    var one, two := [StockLeg(c, seqNo)], [StockLeg(c, seqNo), CashLeg(c, seqNo)];
    match stage
    case InsertStock => EMPTY
    case InsertCash => EMPTY.(legs := one)
    case BumpSeq => EMPTY.(legs := two)
    case SetFilled => Buffer(two, 2, None, false)
    case Schedule => Buffer(two, 2, Some(Filled), false)
    case Close => Buffer(two, 2, Some(Filled), true)
  }

  /** What a transaction holding the lock has read is still what is committed. */
  ghost predicate Current(a: Account, t: Tx)
    requires !t.Begun?
  {
    && t.seqNo == a.seqCounter
    && (t.Read? ==> HoldingsFit(a.entries) && t.holdings == Holdings(a.entries))
    && (t.Writing? ==> HoldingsFit(a.entries) && Prepared(a, t))
  }

  /** The buffer holds exactly the statements so far of the branch the body would take. */
  ghost predicate Prepared(a: Account, t: Tx)
    requires t.Writing?
  {
    if Covers(a.entries, t.ctx)
    then t.buf == BufferAt(t.ctx, t.seqNo, t.stage)
         && (t.stage != InsertStock && t.stage != InsertCash ==> Cost(t.ctx) > 0)
    else t.stage == Close && t.buf == EMPTY.(status := Some(Rejected))
  }

  /** Lock, transaction and history of one portfolio agree. */
  ghost predicate AccountOk(l: Ledger, p: nat)
    requires p < |l.accounts|
  {
    var a := l.accounts[p];
    && Serial(a) && a.seed >= 0
    && (a.holder.Some? ==>
          var e := a.holder.value;
          && e in l.txs && !l.txs[e].Begun? && l.txs[e].ctx.terms.portfolio == p && Current(a, l.txs[e])
          && a.grants != [] && a.grants[|a.grants| - 1] == Grant(l.txs[e].ctx, Open))
  }

  ghost predicate LockOk(l: Ledger) {
    forall e :: e in l.txs ==>
      l.txs[e].ctx.exec == e && e in l.started
      && (!l.txs[e].Begun? ==>
            l.txs[e].ctx.terms.portfolio < |l.accounts|
            && l.accounts[l.txs[e].ctx.terms.portfolio].holder == Some(e))
  }

  ghost predicate LedgerOk(l: Ledger) {
    LockOk(l) && forall p :: 0 <= p < |l.accounts| ==> AccountOk(l, p)
  }

  lemma {:induction false} WinnersAppend(gs: seq<Grant>, g: Grant)
    ensures Winners(gs + [g]) == if g.fate == Committed then Winners(gs) + [g.ctx] else Winners(gs)
  {
    assert (gs + [g])[..|gs|] == gs;
  }

  lemma EnoughIsCovers(es: seq<Entry>, c: Ctx)
    ensures Enough(Holdings(es), c) == Covers(es, c)
  {
    LookupHoldings(es, CASH);
    LookupHoldings(es, c.terms.instrument);
  }

  /** Committing the buffer of a lock holder is running its body on the committed book. */
  lemma CommitIsBody(a: Account, t: Tx)
    requires t.Writing? && t.stage == Close && Current(a, t)
    ensures Ledgered(Committing(a, t.buf)) == Body(Ledgered(a), t.ctx)
    ensures Decision(Ledgered(a), t.ctx) == if t.buf.status == Some(Filled) then Fill else Refuse
    ensures t.buf.status == Some(Filled) || t.buf.status == Some(Rejected)
  {
    if !Covers(a.entries, t.ctx) {
      assert a.entries + [] == a.entries;
    }
  }

  lemma CommitSerial(a: Account, t: Tx)
    requires Serial(a) && t.Writing? && t.stage == Close && Current(a, t)
    requires a.grants != [] && a.grants[|a.grants| - 1] == Grant(t.ctx, Open)
    ensures Serial(Committing(a, t.buf))
  {
    var gs := a.grants[..|a.grants| - 1];
    assert a.grants == gs + [Grant(t.ctx, Open)];
    WinnersAppend(gs, Grant(t.ctx, Open));
    WinnersAppend(gs, Grant(t.ctx, Committed));
    CommitIsBody(a, t);
    var w := Winners(gs);
    assert (w + [t.ctx])[..|w|] == w;
  }

  lemma RollbackSerial(a: Account, c: Ctx)
    requires Serial(a) && a.grants != [] && a.grants[|a.grants| - 1] == Grant(c, Open)
    ensures Serial(RollingBack(a))
  {
    var gs := a.grants[..|a.grants| - 1];
    assert a.grants == gs + [Grant(c, Open)];
    WinnersAppend(gs, Grant(c, Open));
    WinnersAppend(gs, Grant(c, RolledBack));
  }

  /** Accounts other than those a step names keep their invariant. */
  lemma OtherAccounts(l: Ledger, l': Ledger, e: nat, p: nat)
    requires LedgerOk(l) && p < |l.accounts| <= |l'.accounts| && l'.accounts[p] == l.accounts[p]
    requires l.accounts[p].holder != Some(e)
    requires forall f :: f in l.txs && f != e ==> f in l'.txs && l'.txs[f] == l.txs[f]
    ensures AccountOk(l', p)
  {
    assert AccountOk(l, p);
  }

  lemma LockStep(l: Ledger, e: nat)
    requires LedgerOk(l) && LEnabled(l, Lock(e))
    ensures LedgerOk(LDo(l, Lock(e)))
  {
    var l' := LDo(l, Lock(e));
    var p := l.txs[e].ctx.terms.portfolio;
    assert AccountOk(l, p);
    WinnersAppend(l.accounts[p].grants, Grant(l.txs[e].ctx, Open));
    assert AccountOk(l', p);
    forall k | 0 <= k < |l'.accounts| && k != p
      ensures AccountOk(l', k)
    {
      assert AccountOk(l, k);
      OtherAccounts(l, l', e, k);
    }
  }

  /** Reads, the decision and the buffered writes stay inside the transaction. */
  lemma InsideStep(l: Ledger, a: LAct)
    requires LedgerOk(l) && LEnabled(l, a) && (a.ReadHoldings? || a.Decide? || a.Write?)
    ensures LedgerOk(LDo(l, a))
  {
    var l' := LDo(l, a);
    var t := l.txs[a.e];
    var p := t.ctx.terms.portfolio;
    assert AccountOk(l, p);
    assert Current(l.accounts[p], l'.txs[a.e]) by {
      if a.Decide? {
        EnoughIsCovers(l.accounts[p].entries, t.ctx);
      }
    }
    forall k | 0 <= k < |l'.accounts| && k != p
      ensures AccountOk(l', k)
    {
      assert AccountOk(l, k);
      OtherAccounts(l, l', a.e, k);
    }
  }

  lemma EndStep(l: Ledger, a: LAct)
    requires LedgerOk(l) && LEnabled(l, a) && (a.Commit? || a.Rollback?)
    ensures LedgerOk(LDo(l, a))
  {
    var l' := LDo(l, a);
    var t := l.txs[a.e];
    var p := t.ctx.terms.portfolio;
    if !t.Begun? {
      assert AccountOk(l, p);
      if a.Commit? {
        CommitSerial(l.accounts[p], t);
      } else {
        RollbackSerial(l.accounts[p], t.ctx);
      }
    }
    forall k | 0 <= k < |l'.accounts|
      ensures AccountOk(l', k)
    {
      assert AccountOk(l, k);
      if t.Begun? || k != p {
        OtherAccounts(l, l', a.e, k);
      }
    }
  }

  lemma LedgerStep(l: Ledger, a: LAct)
    requires LedgerOk(l) && LEnabled(l, a)
    ensures LedgerOk(LDo(l, a))
  {
    match a
    case OpenAccount(_, _) =>
      var l' := LDo(l, a);
      forall k | 0 <= k < |l.accounts|
        ensures AccountOk(l', k)
      {
        assert AccountOk(l, k);
      }
    case Begin(c) =>
      var l' := LDo(l, a);
      forall k | 0 <= k < |l.accounts|
        ensures AccountOk(l', k)
      {
        assert AccountOk(l, k);
      }
    case Lock(e) => LockStep(l, e);
    case ReadHoldings(_) => InsideStep(l, a);
    case Decide(_) => InsideStep(l, a);
    case Write(_) => InsideStep(l, a);
    case Commit(_) => EndStep(l, a);
    case Rollback(_) => EndStep(l, a);
  }

  /** A transaction that holds its lock after a statement took it by that statement or held it before. */
  lemma LockHeldFrom(l: Ledger, a: LAct, e: nat)
    requires LEnabled(l, a) && e in LDo(l, a).txs && !LDo(l, a).txs[e].Begun?
    ensures e in l.txs && l.txs[e].ctx == LDo(l, a).txs[e].ctx
    ensures (a == Lock(e) || !l.txs[e].Begun?) && a != Commit(e)
  {
  }

  /** A transaction keeps the context with which it began. */
  lemma TxContext(l: Ledger, a: LAct, e: nat)
    requires LEnabled(l, a) && e in LDo(l, a).txs
    ensures (e in l.txs && l.txs[e].ctx == LDo(l, a).txs[e].ctx)
      || (a.Begin? && a.ctx.exec == e && LDo(l, a).txs[e].ctx == a.ctx)
  {
  }
}
