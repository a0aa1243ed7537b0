/** What every interleaving of ExecuteOrder transactions keeps, portfolio by portfolio. */
module LedgerSafety {
  import opened Prelude
  import opened Model
  import opened Book
  import opened LedgerMachine

  lemma {:induction false} LedgerRun(ls: seq<Ledger>, acts: seq<LAct>, i: nat)
    requires LRun(ls, acts) && i < |ls|
    ensures LedgerOk(ls[i])
  {
    if i > 0 {
      LedgerRun(ls, acts, i - 1);
      LedgerStep(ls[i - 1], acts[i - 1]);
    }
  }

  // ------------------------------------------------------- serialisability

  /** The contexts of portfolio p in the order their LockForUpdate statements ran. */
  ghost function LockOrder(ls: seq<Ledger>, acts: seq<LAct>, p: nat, i: nat): seq<Ctx>
    requires LRun(ls, acts) && i < |ls|
  {
    if i == 0 then []
    else
      var rest := LockOrder(ls, acts, p, i - 1);
      if acts[i - 1].Lock? && ls[i - 1].txs[acts[i - 1].e].ctx.terms.portfolio == p
      then rest + [ls[i - 1].txs[acts[i - 1].e].ctx] else rest
  }

  /** The contexts of portfolio p in the order their transactions committed. */
  ghost function CommitOrder(ls: seq<Ledger>, acts: seq<LAct>, p: nat, i: nat): seq<Ctx>
    requires LRun(ls, acts) && i < |ls|
  {
    if i == 0 then []
    else
      var rest := CommitOrder(ls, acts, p, i - 1);
      if acts[i - 1].Commit? && ls[i - 1].txs[acts[i - 1].e].ctx.terms.portfolio == p
      then rest + [ls[i - 1].txs[acts[i - 1].e].ctx] else rest
  }

  function Contexts(gs: seq<Grant>): seq<Ctx> {
    seq(|gs|, k requires 0 <= k < |gs| => gs[k].ctx)
  }

  function GrantsOf(l: Ledger, p: nat): seq<Grant> {
    if p < |l.accounts| then l.accounts[p].grants else []
  }

  lemma MarkedContexts(gs: seq<Grant>, fate: Fate)
    ensures Contexts(Marked(gs, fate)) == Contexts(gs)
  {
  }

  lemma {:induction false} MarkedWinners(gs: seq<Grant>, c: Ctx, fate: Fate)
    requires gs != [] && gs[|gs| - 1] == Grant(c, Open)
    ensures Winners(Marked(gs, fate)) == if fate == Committed then Winners(gs) + [c] else Winners(gs)
  {
    var rest := gs[..|gs| - 1];
    assert gs == rest + [Grant(c, Open)];
    WinnersAppend(rest, Grant(c, Open));
    WinnersAppend(rest, Grant(c, fate));
  }

  lemma LockGrants(l: Ledger, e: nat, p: nat)
    requires LEnabled(l, Lock(e))
    ensures var gs, gs' := GrantsOf(l, p), GrantsOf(LDo(l, Lock(e)), p);
      && Winners(gs') == Winners(gs)
      && Contexts(gs') == if l.txs[e].ctx.terms.portfolio == p then Contexts(gs) + [l.txs[e].ctx] else Contexts(gs)
  {
    WinnersAppend(GrantsOf(l, p), Grant(l.txs[e].ctx, Open));
  }

  lemma EndGrants(l: Ledger, a: LAct, p: nat)
    requires LedgerOk(l) && LEnabled(l, a) && (a.Commit? || a.Rollback?)
    ensures var gs, gs' := GrantsOf(l, p), GrantsOf(LDo(l, a), p);
      && Contexts(gs') == Contexts(gs)
      && Winners(gs') == if a.Commit? && l.txs[a.e].ctx.terms.portfolio == p
                         then Winners(gs) + [l.txs[a.e].ctx] else Winners(gs)
  {
    var t := l.txs[a.e];
    if p < |l.accounts| && !t.Begun? && t.ctx.terms.portfolio == p {
      assert AccountOk(l, p);
      var fate := if a.Commit? then Committed else RolledBack;
      MarkedContexts(l.accounts[p].grants, fate);
      MarkedWinners(l.accounts[p].grants, t.ctx, fate);
    }
  }

  lemma OtherGrants(l: Ledger, a: LAct, p: nat)
    requires LEnabled(l, a) && !a.Lock? && !a.Commit? && !a.Rollback?
    ensures GrantsOf(LDo(l, a), p) == GrantsOf(l, p)
  {
  }

  lemma GrantsStep(l: Ledger, a: LAct, p: nat)
    requires LedgerOk(l) && LEnabled(l, a)
    ensures var gs, gs' := GrantsOf(l, p), GrantsOf(LDo(l, a), p);
      && Contexts(gs') == (if a.Lock? && l.txs[a.e].ctx.terms.portfolio == p
                           then Contexts(gs) + [l.txs[a.e].ctx] else Contexts(gs))
      && Winners(gs') == (if a.Commit? && l.txs[a.e].ctx.terms.portfolio == p
                          then Winners(gs) + [l.txs[a.e].ctx] else Winners(gs))
  {
    if a.Lock? {
      LockGrants(l, a.e, p);
    } else if a.Commit? || a.Rollback? {
      EndGrants(l, a, p);
    } else {
      OtherGrants(l, a, p);
    }
  }

  lemma {:induction false} GrantsAreOrders(ls: seq<Ledger>, acts: seq<LAct>, p: nat, i: nat)
    requires LRun(ls, acts) && i < |ls|
    ensures Contexts(GrantsOf(ls[i], p)) == LockOrder(ls, acts, p, i)
    ensures Winners(GrantsOf(ls[i], p)) == CommitOrder(ls, acts, p, i)
  {
    if i > 0 {
      GrantsAreOrders(ls, acts, p, i - 1);
      LedgerRun(ls, acts, i - 1);
      GrantsStep(ls[i - 1], acts[i - 1], p);
    }
  }

  /**
   Serialisability.  However the statements of any number of transactions
   interleave, a portfolio's committed entries and counter are those of running
   whole bodies one at a time: the bodies of the transactions that committed,
   taken in the order in which the row lock was granted, each with the order and
   the price it had read before it began.  The order of the grants is the order
   of the LockForUpdate statements, and restricted to the transactions that
   committed it is the order of the commits.
   */
  lemma {:induction false} Serialisable(ls: seq<Ledger>, acts: seq<LAct>, p: nat, i: nat)
    requires LRun(ls, acts) && i < |ls| && p < |ls[i].accounts|
    ensures var a := ls[i].accounts[p];
      && Book(a.entries, a.seqCounter) == Replayed(a.seed, a.since, Winners(a.grants))
      && Contexts(a.grants) == LockOrder(ls, acts, p, i)
      && Winners(a.grants) == CommitOrder(ls, acts, p, i)
  {
    LedgerRun(ls, acts, i);
    assert AccountOk(ls[i], p);
    GrantsAreOrders(ls, acts, p, i);
  }

  // ---------------------------------------------- solvency, trail, conservation

  /** Every context in flight or granted comes from a validated order. */
  ghost predicate ContextsValid(l: Ledger) {
    && (forall e :: e in l.txs ==> ValidCtx(l.txs[e].ctx))
    && (forall p, k :: 0 <= p < |l.accounts| && 0 <= k < |l.accounts[p].grants| ==>
          ValidCtx(l.accounts[p].grants[k].ctx))
  }

  lemma ContextsValidStep(l: Ledger, a: LAct)
    requires ContextsValid(l) && LEnabled(l, a) && ValidAct(a)
    ensures ContextsValid(LDo(l, a))
  {
  }

  lemma {:induction false} ContextsValidRun(ls: seq<Ledger>, acts: seq<LAct>, i: nat)
    requires LRun(ls, acts) && i < |ls| && forall k :: 0 <= k < |acts| ==> ValidAct(acts[k])
    ensures ContextsValid(ls[i])
  {
    if i > 0 {
      ContextsValidRun(ls, acts, i - 1);
      ContextsValidStep(ls[i - 1], acts[i - 1]);
    }
  }

  lemma {:induction false} WinnersValid(gs: seq<Grant>)
    requires forall k :: 0 <= k < |gs| ==> ValidCtx(gs[k].ctx)
    ensures AllValid(Winners(gs))
  {
    if gs != [] {
      WinnersValid(gs[..|gs| - 1]);
    }
  }

  /**
   Solvency.  In every state of every interleaving of validated orders, the cash
   and every share position of every portfolio are nonnegative, also when an
   order executes twice and when quantity * price wraps.
   */
  lemma {:induction false} Solvent(ls: seq<Ledger>, acts: seq<LAct>, p: nat, i: nat, instrument: string)
    requires LRun(ls, acts) && i < |ls| && p < |ls[i].accounts|
    requires forall k :: 0 <= k < |acts| ==> ValidAct(acts[k])
    ensures Net(ls[i].accounts[p].entries, instrument) >= 0
  {
    var a := ls[i].accounts[p];
    LedgerRun(ls, acts, i);
    assert AccountOk(ls[i], p);
    ContextsValidRun(ls, acts, i);
    WinnersValid(a.grants);
    ReplayedSolvent(a.seed, a.since, Winners(a.grants));
  }

  /**
   Balances are trades.  In every state of every interleaving of validated orders, a share
   position is what the committed fills bought minus what they sold, and the cash is the
   seed minus what they paid plus what they earned.
   */
  lemma {:induction false} PositionsAreTrades(ls: seq<Ledger>, acts: seq<LAct>, p: nat, i: nat, instrument: string)
    requires LRun(ls, acts) && i < |ls| && p < |ls[i].accounts|
    requires forall k :: 0 <= k < |acts| ==> ValidAct(acts[k])
    ensures var a := ls[i].accounts[p];
      var fills, balance := Fills(a.seed, a.since, Winners(a.grants)), Net(a.entries, instrument);
      if instrument == "CASH" then balance == a.seed - Paid(fills) + Earned(fills)
      else balance == Bought(fills, instrument) - Sold(fills, instrument)
  {
    var a := ls[i].accounts[p];
    LedgerRun(ls, acts, i);
    assert AccountOk(ls[i], p);
    ContextsValidRun(ls, acts, i);
    WinnersValid(a.grants);
    ReplayedPositions(a.seed, a.since, Winners(a.grants), instrument);
  }

  /**
   Gapless audit trail.  The stream of every portfolio is its seed entry followed
   by the legs of its fills in lock order, the two legs of a fill adjacent, and
   entry i carries sequence number i + 1 up to seq_counter.
   */
  lemma AuditTrail(ls: seq<Ledger>, acts: seq<LAct>, p: nat, i: nat)
    requires LRun(ls, acts) && i < |ls| && p < |ls[i].accounts|
    ensures var a := ls[i].accounts[p];
      && Trail(Book(a.entries, a.seqCounter), a.seed, a.since, Fills(a.seed, a.since, Winners(a.grants)))
      && a.seqCounter == |a.entries|
      && (forall n :: 0 <= n < |a.entries| ==> a.entries[n].seqNo == n + 1)
  {
    var a := ls[i].accounts[p];
    LedgerRun(ls, acts, i);
    assert AccountOk(ls[i], p);
    ReplayedTrail(a.seed, a.since, Winners(a.grants));
    forall n | 0 <= n < |a.entries|
      ensures a.entries[n].seqNo == n + 1
    {
      TrailNumbers(Book(a.entries, a.seqCounter), a.seed, a.since, Fills(a.seed, a.since, Winners(a.grants)), n);
    }
  }

  /** The stream is append-only: no step of any interleaving changes or removes a committed entry. */
  lemma {:induction false} AppendOnly(ls: seq<Ledger>, acts: seq<LAct>, p: nat, i: nat, j: nat)
    requires LRun(ls, acts) && i <= j < |ls| && p < |ls[i].accounts|
    ensures p < |ls[j].accounts| && ls[i].accounts[p].entries <= ls[j].accounts[p].entries
    ensures ls[j].accounts[p].seed == ls[i].accounts[p].seed && ls[j].accounts[p].since == ls[i].accounts[p].since
  {
    if i < j {
      AppendOnly(ls, acts, p, i, j - 1);
      assert LEnabled(ls[j - 1], acts[j - 1]) && ls[j] == LDo(ls[j - 1], acts[j - 1]);
    }
  }

  // ------------------------------------------------------- one trade, one pair

  /** No transaction is granted the row lock of portfolio p twice. */
  ghost predicate GrantedOnce(l: Ledger, p: nat) {
    var gs := GrantsOf(l, p);
    && (forall k :: 0 <= k < |gs| ==> gs[k].ctx.exec in l.started)
    && (forall k :: 0 <= k < |gs| && gs[k].ctx.exec in l.txs ==> !l.txs[gs[k].ctx.exec].Begun?)
    && (forall j, k :: 0 <= j < k < |gs| ==> gs[j].ctx.exec != gs[k].ctx.exec)
  }

  lemma GrantedOnceStep(l: Ledger, a: LAct, p: nat)
    requires LockOk(l) && LEnabled(l, a) && GrantedOnce(l, p)
    ensures GrantedOnce(LDo(l, a), p)
  {
    var gs, gs' := GrantsOf(l, p), GrantsOf(LDo(l, a), p);
    assert forall k :: 0 <= k < |gs'| && k < |gs| ==> gs'[k].ctx == gs[k].ctx;
  }

  lemma {:induction false} GrantedOnceRun(ls: seq<Ledger>, acts: seq<LAct>, p: nat, i: nat)
    requires LRun(ls, acts) && i < |ls|
    ensures GrantedOnce(ls[i], p)
  {
    if i > 0 {
      GrantedOnceRun(ls, acts, p, i - 1);
      LedgerRun(ls, acts, i - 1);
      GrantedOnceStep(ls[i - 1], acts[i - 1], p);
    }
  }

  ghost predicate DistinctExecs(cs: seq<Ctx>) {
    forall j, k :: 0 <= j < k < |cs| ==> cs[j].exec != cs[k].exec
  }

  lemma {:induction false} WinnersDistinct(gs: seq<Grant>)
    requires forall j, k :: 0 <= j < k < |gs| ==> gs[j].ctx.exec != gs[k].ctx.exec
    ensures DistinctExecs(Winners(gs))
    ensures forall k :: 0 <= k < |Winners(gs)| ==> exists j :: 0 <= j < |gs| && gs[j].ctx == Winners(gs)[k]
  {
    if gs != [] {
      var rest := gs[..|gs| - 1];
      WinnersDistinct(rest);
      assert gs[|gs| - 1].ctx == gs[|gs| - 1].ctx;
      forall k | 0 <= k < |Winners(rest)|
        ensures exists j :: 0 <= j < |rest| && gs[j].ctx == Winners(rest)[k]
      {
        var j :| 0 <= j < |rest| && rest[j].ctx == Winners(rest)[k];
        assert gs[j].ctx == Winners(rest)[k];
      }
    }
  }

  lemma {:induction false} FillsDistinct(seed: int, since: int, cs: seq<Ctx>)
    requires DistinctExecs(cs)
    ensures DistinctExecs(Fills(seed, since, cs))
    ensures forall k :: 0 <= k < |Fills(seed, since, cs)| ==> Fills(seed, since, cs)[k] in cs
  {
    if cs != [] {
      FillsDistinct(seed, since, cs[..|cs| - 1]);
    }
  }

  /** In a trail of distinct executions, only the two legs of one fill share a trade id. */
  lemma TrailPairs(b: Book, seed: int, since: int, fills: seq<Ctx>, m: nat, n: nat)
    requires Trail(b, seed, since, fills) && DistinctExecs(fills)
    requires m < n < |b.entries| && b.entries[m].trade == b.entries[n].trade
    ensures n == m + 1 && (m - SeedCount(seed)) % 2 == 0
    ensures b.entries[m].trade.FillTrade?
  {
    var base := SeedCount(seed);
    var kn := (n - base) / 2;
    assert n == base + 2 * kn || n == base + 2 * kn + 1;
    assert b.entries[base + 2 * kn] == StockLeg(fills[kn], base + 2 * kn);
    if m >= base {
      var km := (m - base) / 2;
      assert m == base + 2 * km || m == base + 2 * km + 1;
      assert b.entries[base + 2 * km] == StockLeg(fills[km], base + 2 * km);
    }
  }

  /**
   One trade, one pair.  In every state of every interleaving, also when one order
   executes several times, two entries of a portfolio carry the same trade id only
   if they are the two neighbouring legs of one fill.
   */
  lemma LegsAreNeighbours(ls: seq<Ledger>, acts: seq<LAct>, p: nat, i: nat, m: nat, n: nat)
    requires LRun(ls, acts) && i < |ls| && p < |ls[i].accounts|
    requires m < n < |ls[i].accounts[p].entries|
    requires ls[i].accounts[p].entries[m].trade == ls[i].accounts[p].entries[n].trade
    ensures n == m + 1
    ensures var es := ls[i].accounts[p].entries;
      es[m].price.Some? && es[n].instrument == CASH && es[n].direction == -es[m].direction
      && es[n].createdAt == es[m].createdAt
  {
    var a := ls[i].accounts[p];
    var fills := Fills(a.seed, a.since, Winners(a.grants));
    assert DistinctExecs(fills) by {
      GrantedOnceRun(ls, acts, p, i);
      WinnersDistinct(a.grants);
      FillsDistinct(a.seed, a.since, Winners(a.grants));
    }
    AuditTrail(ls, acts, p, i);
    TrailLegs(Book(a.entries, a.seqCounter), a.seed, a.since, fills, m, n);
  }

  lemma TrailLegs(b: Book, seed: int, since: int, fills: seq<Ctx>, m: nat, n: nat)
    requires Trail(b, seed, since, fills) && DistinctExecs(fills)
    requires m < n < |b.entries| && b.entries[m].trade == b.entries[n].trade
    ensures n == m + 1 && b.entries[m].price.Some? && b.entries[n].instrument == CASH
    ensures b.entries[n].direction == -b.entries[m].direction && b.entries[n].createdAt == b.entries[m].createdAt
  {
    TrailPairs(b, seed, since, fills, m, n);
    var k := (m - SeedCount(seed)) / 2;
    assert m == SeedCount(seed) + 2 * k;
    assert b.entries[m] == StockLeg(fills[k], m) && b.entries[m + 1] == CashLeg(fills[k], m);
  }

  /**
   Value at any point in time.  For every asOf, the entries created up to asOf are
   worth the seed (once it is included) plus what wrapped products have added; if
   every fill's quantity * price fits an int64 they are worth exactly the seed.
   */
  lemma {:induction false} ValueConserved(ls: seq<Ledger>, acts: seq<LAct>, p: nat, i: nat, asOf: int)
    requires LRun(ls, acts) && i < |ls| && p < |ls[i].accounts|
    ensures var a := ls[i].accounts[p];
      var fills := Fills(a.seed, a.since, Winners(a.grants));
      && Value(Until(a.entries, asOf)) == (if a.since <= asOf then a.seed else 0) + DriftUntil(fills, asOf)
      && ((forall k :: 0 <= k < |fills| ==> IsInt64(fills[k].terms.quantity * fills[k].price)) && a.since <= asOf
          ==> Value(Until(a.entries, asOf)) == a.seed)
  {
    var a := ls[i].accounts[p];
    LedgerRun(ls, acts, i);
    assert AccountOk(ls[i], p);
    ReplayedValue(a.seed, a.since, Winners(a.grants), asOf);
    var fills := Fills(a.seed, a.since, Winners(a.grants));
    if forall k :: 0 <= k < |fills| ==> IsInt64(fills[k].terms.quantity * fills[k].price) {
      NoDrift(fills, asOf);
    }
  }
}
