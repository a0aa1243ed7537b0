/** Which quote a fill or a rejection goes back to, and at what price a fill is written. */
module Pricing {
  import opened Prelude
  import opened Model
  import opened JobTables
  import opened Book
  import Q = QueueMachine
  import L = LedgerMachine
  import opened System
  import opened SystemSafety
  import opened EndToEnd
  import opened TradeLegs

  /** A market order fills at its quote; a limit order at its limit, when the quote is no worse than that. */
  predicate FillsAtQuote(o: Order, quote: int, price: int) {
    match o.orderType
    case Market => price == quote
    case Limit(limit) => price == limit && if o.side == Buy then quote <= limit else quote >= limit
  }

  /** A limit order whose quote is worse than its limit. */
  predicate OutOfLimit(o: Order, quote: int) {
    match o.orderType
    case Market => false
    case Limit(limit) => if o.side == Buy then quote > limit else quote < limit
  }

  // ------------------------------------------------------------------- prices

  lemma PricedComesFrom(s: Sys, a: Act, s': Sys, e: nat)
    requires Next(s, a, s') && e in s'.pcs && s'.pcs[e].Priced?
    ensures e in s.pcs
    ensures s.pcs[e] == s'.pcs[e]
      || (a.TakeQuote? && a.e == e && FillsAtQuote(s'.pcs[e].order, a.quote, s'.pcs[e].price))
  {
  }

  lemma {:induction false} PricedFrom(ss: seq<Sys>, acts: seq<Act>, e: nat, k: nat) returns (i: nat, quote: int)
    requires Run(ss, acts) && k < |ss| && e in ss[k].pcs && ss[k].pcs[e].Priced?
    ensures i < k && acts[i] == TakeQuote(e, quote) && FillsAtQuote(ss[k].pcs[e].order, quote, ss[k].pcs[e].price)
  {
    assert StepAt(ss, acts, k - 1);
    PricedComesFrom(ss[k - 1], acts[k - 1], ss[k], e);
    if ss[k - 1].pcs[e] == ss[k].pcs[e] {
      i, quote := PricedFrom(ss, acts, e, k - 1);
    } else {
      i, quote := k - 1, acts[k - 1].quote;
    }
  }

  lemma BegunComesFrom(s: Sys, a: Act, s': Sys, e: nat)
    requires Next(s, a, s') && e in s'.l.txs
    ensures (e in s.l.txs && s.l.txs[e].ctx == s'.l.txs[e].ctx)
      || (a == BeginTx(e) && e in s.pcs && s.pcs[e].Priced?
          && s'.l.txs[e].ctx.terms == s.pcs[e].order && s'.l.txs[e].ctx.price == s.pcs[e].price
          && s'.l.txs[e].ctx.begun == s.q.clock)
  {
    if LPart(s, a).Some? {
      L.TxContext(s.l, LPart(s, a).value, e);
    }
  }

  lemma {:induction false} BegunFrom(ss: seq<Sys>, acts: seq<Act>, e: nat, k: nat) returns (m: nat)
    requires Run(ss, acts) && k < |ss| && e in ss[k].l.txs
    ensures m < k && acts[m] == BeginTx(e) && e in ss[m].pcs && ss[m].pcs[e].Priced?
    ensures ss[k].l.txs[e].ctx.terms == ss[m].pcs[e].order && ss[k].l.txs[e].ctx.price == ss[m].pcs[e].price
    ensures ss[k].l.txs[e].ctx.begun == ss[m].q.clock
  {
    assert StepAt(ss, acts, k - 1);
    BegunComesFrom(ss[k - 1], acts[k - 1], ss[k], e);
    if e in ss[k - 1].l.txs && ss[k - 1].l.txs[e].ctx == ss[k].l.txs[e].ctx {
      m := BegunFrom(ss, acts, e, k - 1);
    } else {
      m := k - 1;
    }
  }

  // --------------------------------------------------------------------- fills

  /** The two entries that a fill of these terms at this price appends to a stream. */
  function FillEntries(o: nat, e: nat, terms: Order, price: int, at: int, n: int): seq<Entry> {
    var stock, cash := if terms.side == Buy then 1 else -1, if terms.side == Buy then -1 else 1;
    [Entry(FillTrade(o, e), terms.instrument, stock, terms.quantity, Some(price), at, n + 1),
     Entry(FillTrade(o, e), "CASH", cash, Wrap64(terms.quantity * price), None, at, n + 2)]
  }

  /** Committing the buffer of a lock holder that fills appends the two entries. */
  lemma CommitAppends(a: L.Account, t: L.Tx)
    requires t.Writing? && t.stage == L.Close && L.Current(a, t) && L.Serial(a) && t.buf.status == Some(Filled)
    ensures t.buf.legs
            == FillEntries(t.ctx.order, t.ctx.exec, t.ctx.terms, t.ctx.price, t.ctx.begun, |a.entries|)
  {
    ReplayedTrail(a.seed, a.since, L.Winners(a.grants));
  }

  lemma CommitEntries(l: L.Ledger, e: nat)
    requires L.LedgerOk(l) && L.LEnabled(l, L.Commit(e)) && l.txs[e].buf.status == Some(Filled)
    ensures var c := l.txs[e].ctx;
      var es := l.accounts[c.terms.portfolio].entries;
      L.LDo(l, L.Commit(e)).accounts[c.terms.portfolio].entries
      == es + FillEntries(c.order, c.exec, c.terms, c.price, c.begun, |es|)
  {
    var t := l.txs[e];
    assert L.AccountOk(l, t.ctx.terms.portfolio);
    CommitAppends(l.accounts[t.ctx.terms.portfolio], t);
  }

  lemma FillOrder(s: Sys, a: Act, s': Sys, o: nat)
    requires Next(s, a, s') && Trades(s, a, o)
    ensures a.e in s.l.txs && L.LEnabled(s.l, L.Commit(a.e)) && s'.l == L.LDo(s.l, L.Commit(a.e))
    ensures s.l.txs[a.e].buf.status == Some(Filled) && o < |s.orders| && o < |s'.orders|
    ensures s'.orders[o].status == Filled && s'.orders[o].fillPrice == Some(s.l.txs[a.e].ctx.price)
  {
  }

  lemma FillStep(s: Sys, a: Act, s': Sys, o: nat)
    requires L.LedgerOk(s.l) && TxsOk(s) && Next(s, a, s') && Trades(s, a, o)
    ensures a.e in s.l.txs && o < |s.orders| && s.orders[o].portfolio < |s.l.accounts| <= |s'.l.accounts|
    ensures SameTerms(s.l.txs[a.e].ctx.terms, s.orders[o]) && o < |s'.orders|
    ensures var c, p := s.l.txs[a.e].ctx, s.orders[o].portfolio;
      && s'.l.accounts[p].entries == s.l.accounts[p].entries
           + FillEntries(o, a.e, s.orders[o], c.price, c.begun, |s.l.accounts[p].entries|)
      && s'.orders[o].status == Filled && s'.orders[o].fillPrice == Some(c.price)
  {
    FillOrder(s, a, s', o);
    CommitEntries(s.l, a.e);
    assert TxOk(s, a.e);
    AccountsGrow(s, a, s');
  }

  /**
   Every fill has its quote.  In every run, a fill of order o goes back to a quote that its
   execution took and to a transaction it began: it appends, at the end of the portfolio's
   stream, a stock leg and a cash leg with the order's instrument and quantity, the
   direction of its side and the time at which the transaction began, priced at the quote
   for a market order, and at the limit for a limit order whose quote was no worse.
   */
  lemma {:induction false} FillHasItsQuote(ss: seq<Sys>, acts: seq<Act>, o: nat, j: nat)
    returns (i: nat, m: nat, quote: int, price: int)
    requires Run(ss, acts) && FillsAt(ss, acts, o, j)
    ensures i < m < j && acts[j].CommitTx? && acts[i] == TakeQuote(acts[j].e, quote) && acts[m] == BeginTx(acts[j].e)
    ensures o < |ss[j].orders| && ss[j].orders[o].portfolio < |ss[j].l.accounts| <= |ss[j + 1].l.accounts|
    ensures o < |ss[j + 1].orders|
    ensures var order := ss[j].orders[o];
      var es := ss[j].l.accounts[order.portfolio].entries;
      && FillsAtQuote(order, quote, price)
      && ss[j + 1].l.accounts[order.portfolio].entries
         == es + FillEntries(o, acts[j].e, order, price, ss[m].q.clock, |es|)
      && ss[j + 1].orders[o].status == Filled && ss[j + 1].orders[o].fillPrice == Some(price)
  {
    var e := acts[j].e;
    assert StepAt(ss, acts, j);
    assert L.LedgerOk(ss[j].l) && TxsOk(ss[j]) by {
      SysOkRun(ss, acts, j);
    }
    FillStep(ss[j], acts[j], ss[j + 1], o);
    m := BegunFrom(ss, acts, e, j);
    i, quote := PricedFrom(ss, acts, e, m);
    price := ss[j].l.txs[e].ctx.price;
  }

  // ------------------------------------------------------------- what a commit weighs

  /** The books cover the order: cash for the wrapped cost of a purchase, shares for a sale. */
  predicate CoveredBy(es: seq<Entry>, terms: Order, price: int) {
    if terms.side == Buy then Net(es, "CASH") >= Wrap64(terms.quantity * price)
    else Net(es, terms.instrument) >= terms.quantity
  }

  lemma BufferWeighs(l: L.Ledger, e: nat)
    requires L.LedgerOk(l) && L.LEnabled(l, L.Commit(e))
    ensures var t := l.txs[e];
      t.buf.status == Some(if CoveredBy(l.accounts[t.ctx.terms.portfolio].entries, t.ctx.terms, t.ctx.price)
                           then Filled else Rejected)
  {
    var t := l.txs[e];
    assert L.AccountOk(l, t.ctx.terms.portfolio);
    L.CommitIsBody(l.accounts[t.ctx.terms.portfolio], t);
  }

  lemma CommitStatusWritten(s: Sys, a: Act, s': Sys)
    requires Next(s, a, s') && a.CommitTx?
    ensures ExecutesOrder(s, a.e) && a.e in s.l.txs && L.LEnabled(s.l, L.Commit(a.e))
    ensures var o, status := s.q.execs[a.e].kind.order, s.l.txs[a.e].buf.status;
      o < |s'.orders| && (status.Some? ==> s'.orders[o].status == status.value)
  {
  }

  /**
   What a commit decides.  In every run, a transaction that commits leaves its order filled if
   and only if, at that moment, the committed books of the portfolio cover it at the fill
   price, and rejected otherwise.
   */
  lemma {:induction false} CommitWeighsTheBooks(ss: seq<Sys>, acts: seq<Act>, o: nat, j: nat)
    requires Run(ss, acts) && j < |acts| && acts[j].CommitTx?
    requires acts[j].e in ss[j].q.execs && ss[j].q.execs[acts[j].e].kind == ExecuteOrder(o)
    ensures acts[j].e in ss[j].l.txs && o < |ss[j].orders| && o < |ss[j + 1].orders|
    ensures ss[j].orders[o].portfolio < |ss[j].l.accounts|
    ensures var order, price := ss[j].orders[o], ss[j].l.txs[acts[j].e].ctx.price;
      ss[j + 1].orders[o].status
      == if CoveredBy(ss[j].l.accounts[order.portfolio].entries, order, price) then Filled else Rejected
  {
    assert StepAt(ss, acts, j);
    CommitStatusWritten(ss[j], acts[j], ss[j + 1]);
    assert L.LedgerOk(ss[j].l) && TxOk(ss[j], acts[j].e) by {
      SysOkRun(ss, acts, j);
    }
    BufferWeighs(ss[j].l, acts[j].e);
  }

  // ---------------------------------------------------------------- rejections

  lemma RejectingComesFrom(s: Sys, a: Act, s': Sys, e: nat)
    requires Next(s, a, s') && e in s'.q.execs && e in s'.pcs && s'.pcs[e] == Rejecting
    ensures e in s.pcs && e in s.q.execs && s.q.execs[e].kind == s'.q.execs[e].kind
    ensures s.pcs[e] == Rejecting
      || (a.TakeQuote? && a.e == e && s.pcs[e].GotOrder? && OutOfLimit(s.pcs[e].order, a.quote))
  {
    ExecComesFrom(s, a, s', e);
  }

  lemma {:induction false} RejectingFrom(ss: seq<Sys>, acts: seq<Act>, e: nat, k: nat) returns (i: nat, quote: int)
    requires Run(ss, acts) && k < |ss| && e in ss[k].q.execs && e in ss[k].pcs && ss[k].pcs[e] == Rejecting
    ensures i < k && acts[i] == TakeQuote(e, quote) && e in ss[i].q.execs && e in ss[i].pcs && ss[i].pcs[e].GotOrder?
    ensures OutOfLimit(ss[i].pcs[e].order, quote) && ss[i].q.execs[e].kind == ss[k].q.execs[e].kind
  {
    assert StepAt(ss, acts, k - 1);
    RejectingComesFrom(ss[k - 1], acts[k - 1], ss[k], e);
    if ss[k - 1].pcs[e] == Rejecting {
      i, quote := RejectingFrom(ss, acts, e, k - 1);
    } else {
      i, quote := k - 1, acts[k - 1].quote;
    }
  }

  /** An order keeps the terms it was placed with. */
  lemma {:induction false} TermsStay(ss: seq<Sys>, acts: seq<Act>, o: nat, i: nat, j: nat)
    requires Run(ss, acts) && i <= j < |ss| && o < |ss[i].orders|
    ensures o < |ss[j].orders| && SameTerms(ss[i].orders[o], ss[j].orders[o])
    decreases j
  {
    if i < j {
      TermsStay(ss, acts, o, i, j - 1);
      assert StepAt(ss, acts, j - 1);
      OrdersStep(ss[j - 1], acts[j - 1], ss[j]);
    }
  }

  /**
   A rejection for the quote.  In every run, an order that is rejected outside a transaction
   is a limit order, and its execution took a quote that is worse than the limit: no market
   order is ever rejected for its quote.
   */
  lemma {:induction false} RejectedForItsQuote(ss: seq<Sys>, acts: seq<Act>, o: nat, j: nat)
    returns (i: nat, quote: int)
    requires Run(ss, acts) && j < |acts| && acts[j].RejectOrder?
    requires acts[j].e in ss[j].q.execs && ss[j].q.execs[acts[j].e].kind == ExecuteOrder(o)
    ensures i < j && acts[i] == TakeQuote(acts[j].e, quote)
    ensures o < |ss[j].orders| && o < |ss[j + 1].orders| && OutOfLimit(ss[j].orders[o], quote)
    ensures ss[j + 1].orders[o].status == Rejected && ss[j + 1].l == ss[j].l && ss[j + 1].q == ss[j].q
  {
    assert StepAt(ss, acts, j);
    i, quote := RejectingFrom(ss, acts, acts[j].e, j);
    assert HandlerOk(ss[i], acts[j].e) by {
      SysOkRun(ss, acts, i);
    }
    TermsStay(ss, acts, o, i, j);
  }
}
