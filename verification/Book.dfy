/**
 One portfolio's event stream run sequentially: holdings as sums over the
 stream, the body of an ExecuteOrder transaction as one atomic function, and
 what a portfolio's history of such bodies keeps.
 */
module Book {
  import opened Prelude
  import opened Model

  datatype Book = Book(entries: seq<Entry>, seqCounter: int)

  // ---------------------------------------------------------------- holdings

  function Signed(e: Entry, instrument: string): int {
    if e.instrument == instrument then e.direction * e.quantity else 0
  }

  /** Net quantity of an instrument: the sum over the stream of direction * quantity. */
  function Net(es: seq<Entry>, instrument: string): int {
    if es == [] then 0 else Net(es[..|es| - 1], instrument) + Signed(es[|es| - 1], instrument)
  }

  function Instruments(es: seq<Entry>): set<string> {
    set e | e in es :: e.instrument
  }

  /** The rows of the GROUP BY query. */
  function Holdings(es: seq<Entry>): map<string, int> {
    map i | i in Instruments(es) :: Net(es, i)
  }

  /** The query's cast to bigint fails unless every sum fits. */
  predicate HoldingsFit(es: seq<Entry>) {
    forall i :: i in Instruments(es) ==> IsInt64(Net(es, i))
  }

  /** Indexing a Go map yields zero for a missing key. */
  function Lookup(m: map<string, int>, key: string): int {
    if key in m then m[key] else 0
  }

  /** The entries a point-in-time query includes. */
  function Until(es: seq<Entry>, asOf: int): seq<Entry> {
    if es == [] then []
    else
      var rest := Until(es[..|es| - 1], asOf);
      if es[|es| - 1].createdAt <= asOf then rest + [es[|es| - 1]] else rest
  }

  lemma {:induction false} NetAppend(es: seq<Entry>, e: Entry, instrument: string)
    ensures Net(es + [e], instrument) == Net(es, instrument) + Signed(e, instrument)
  {
    assert (es + [e])[..|es|] == es;
  }

  lemma {:induction false} NetAbsent(es: seq<Entry>, instrument: string)
    requires instrument !in Instruments(es)
    ensures Net(es, instrument) == 0
  {
    if es != [] {
      var last := es[|es| - 1];
      assert last in es;
      forall e | e in es[..|es| - 1]
        ensures e.instrument != instrument
      {
        assert e in es;
      }
      NetAbsent(es[..|es| - 1], instrument);
    }
  }

  /** Reading the holdings map, with zero for a missing key, reads the sum. */
  lemma {:induction false} LookupHoldings(es: seq<Entry>, instrument: string)
    ensures Lookup(Holdings(es), instrument) == Net(es, instrument)
  {
    if instrument !in Instruments(es) {
      NetAbsent(es, instrument);
    }
  }

  // ------------------------------------------------------- the atomic body

  datatype Verdict = Fill | Refuse | Abort

  predicate Covers(es: seq<Entry>, c: Ctx) {
    if c.terms.side == Buy then Net(es, CASH) >= Cost(c) else Net(es, c.terms.instrument) >= c.terms.quantity
  }

  /** What the transaction decides when it runs alone: fill, reject the order, or roll back. */
  function Decision(b: Book, c: Ctx): Verdict {
    if !HoldingsFit(b.entries) then Abort
    else if !Covers(b.entries, c) then Refuse
    else if Cost(c) <= 0 then Abort             // CHECK (quantity > 0) on the cash leg
    else Fill
  }

  function Body(b: Book, c: Ctx): Book {
    if Decision(b, c) == Fill
    then Book(b.entries + [StockLeg(c, b.seqCounter), CashLeg(c, b.seqCounter)], b.seqCounter + 2)
    else b
  }

  function SeedEntry(seed: int, since: int): Entry {
    Entry(SeedTrade, CASH, 1, seed, None, since, 1)
  }

  function SeedBook(seed: int, since: int): Book {
    if seed > 0 then Book([SeedEntry(seed, since)], 1) else Book([], 0)
  }

  /** The book after running the bodies one by one, in this order. */
  function Replayed(seed: int, since: int, cs: seq<Ctx>): Book {
    if cs == [] then SeedBook(seed, since)
    else Body(Replayed(seed, since, cs[..|cs| - 1]), cs[|cs| - 1])
  }

  ghost predicate AllValid(cs: seq<Ctx>) {
    forall i :: 0 <= i < |cs| ==> ValidCtx(cs[i])
  }

  lemma {:induction false} NetBody(b: Book, c: Ctx, instrument: string)
    requires Decision(b, c) == Fill
    ensures Net(Body(b, c).entries, instrument)
            == Net(b.entries, instrument) + Signed(StockLeg(c, b.seqCounter), instrument)
               + Signed(CashLeg(c, b.seqCounter), instrument)
  {
    var s, k := StockLeg(c, b.seqCounter), CashLeg(c, b.seqCounter);
    NetAppend(b.entries, s, instrument);
    NetAppend(b.entries + [s], k, instrument);
    assert Body(b, c).entries == b.entries + [s] + [k];
  }

  // -------------------------------------------------------------- what moves

  /**
   What a fill moves.  A buy raises the instrument by exactly the quantity and lowers the
   cash by exactly the wrapped cost; a sale does the reverse; nothing else changes.
   */
  lemma {:induction false} FillMoves(b: Book, c: Ctx, instrument: string)
    requires Decision(b, c) == Fill && c.terms.instrument != "CASH"
    ensures var before, after := Net(b.entries, instrument), Net(Body(b, c).entries, instrument);
      var quantity, cost := c.terms.quantity, Wrap64(c.terms.quantity * c.price);
      if instrument == c.terms.instrument then
        after == if c.terms.side == Buy then before + quantity else before - quantity
      else if instrument == "CASH" then after == if c.terms.side == Buy then before - cost else before + cost
      else after == before
  {
    NetBody(b, c, instrument);
  }

  /** Entries carry +1 for what comes in and -1 for what goes out. */
  ghost predicate Directed(es: seq<Entry>) {
    forall k :: 0 <= k < |es| ==> es[k].direction == 1 || es[k].direction == -1
  }

  /** What has come in of an instrument up to a time. */
  function Inflow(es: seq<Entry>, instrument: string, asOf: int): int {
    if es == [] then 0
    else
      var e := es[|es| - 1];
      Inflow(es[..|es| - 1], instrument, asOf)
      + if e.instrument == instrument && e.direction == 1 && e.createdAt <= asOf then e.quantity else 0
  }

  /** What has gone out of it. */
  function Outflow(es: seq<Entry>, instrument: string, asOf: int): int {
    if es == [] then 0
    else
      var e := es[|es| - 1];
      Outflow(es[..|es| - 1], instrument, asOf)
      + if e.instrument == instrument && e.direction == -1 && e.createdAt <= asOf then e.quantity else 0
  }

  lemma SignedFlow(e: Entry, instrument: string)
    requires e.direction == 1 || e.direction == -1
    ensures Signed(e, instrument)
            == if e.instrument != instrument then 0 else if e.direction == 1 then e.quantity else -e.quantity
  {
  }

  /** A point-in-time balance is what has come in minus what has gone out by then. */
  lemma {:induction false} BalanceIsFlows(es: seq<Entry>, instrument: string, asOf: int)
    requires Directed(es)
    ensures Net(Until(es, asOf), instrument) == Inflow(es, instrument, asOf) - Outflow(es, instrument, asOf)
  {
    if es != [] {
      var rest, e := es[..|es| - 1], es[|es| - 1];
      BalanceIsFlows(rest, instrument, asOf);
      assert e.direction == 1 || e.direction == -1;
      SignedFlow(e, instrument);
      NetAppend(Until(rest, asOf), e, instrument);
      assert Until(es, asOf) == if e.createdAt <= asOf then Until(rest, asOf) + [e] else Until(rest, asOf);
    }
  }

  /** A time after every entry includes the whole stream: the current balance is the last of them. */
  lemma {:induction false} UntilAll(es: seq<Entry>, asOf: int)
    requires forall k :: 0 <= k < |es| ==> es[k].createdAt <= asOf
    ensures Until(es, asOf) == es
  {
    if es != [] {
      UntilAll(es[..|es| - 1], asOf);
      assert es == es[..|es| - 1] + [es[|es| - 1]];
    }
  }

  /** Shares of an instrument that the fills bought. */
  function Bought(fills: seq<Ctx>, instrument: string): int {
    if fills == [] then 0
    else
      var c := fills[|fills| - 1];
      Bought(fills[..|fills| - 1], instrument)
      + if c.terms.side == Buy && c.terms.instrument == instrument then c.terms.quantity else 0
  }

  /** Shares of an instrument that the fills sold. */
  function Sold(fills: seq<Ctx>, instrument: string): int {
    if fills == [] then 0
    else
      var c := fills[|fills| - 1];
      Sold(fills[..|fills| - 1], instrument)
      + if c.terms.side == Sell && c.terms.instrument == instrument then c.terms.quantity else 0
  }

  /** What the buying fills paid. */
  function Paid(fills: seq<Ctx>): int {
    if fills == [] then 0
    else
      var c := fills[|fills| - 1];
      Paid(fills[..|fills| - 1]) + if c.terms.side == Buy then Wrap64(c.terms.quantity * c.price) else 0
  }

  /** What the selling fills brought in. */
  function Earned(fills: seq<Ctx>): int {
    if fills == [] then 0
    else
      var c := fills[|fills| - 1];
      Earned(fills[..|fills| - 1]) + if c.terms.side == Sell then Wrap64(c.terms.quantity * c.price) else 0
  }

  lemma {:induction false} TalliesAppend(fills: seq<Ctx>, c: Ctx, instrument: string)
    ensures Bought(fills + [c], instrument) - Sold(fills + [c], instrument)
            == Bought(fills, instrument) - Sold(fills, instrument)
               + if c.terms.instrument != instrument then 0
                 else if c.terms.side == Buy then c.terms.quantity else -c.terms.quantity
    ensures Earned(fills + [c]) - Paid(fills + [c])
            == Earned(fills) - Paid(fills)
               + if c.terms.side == Buy then -Wrap64(c.terms.quantity * c.price) else Wrap64(c.terms.quantity * c.price)
  {
    assert (fills + [c])[..|fills|] == fills;
  }

  /** Balances are trades: shares are those bought minus those sold, cash is seed minus costs plus proceeds. */
  lemma {:induction false} ReplayedPositions(seed: int, since: int, cs: seq<Ctx>, instrument: string)
    requires seed >= 0 && AllValid(cs)
    ensures var fills, balance := Fills(seed, since, cs), Net(Replayed(seed, since, cs).entries, instrument);
      if instrument == "CASH" then balance == seed - Paid(fills) + Earned(fills)
      else balance == Bought(fills, instrument) - Sold(fills, instrument)
  {
    if cs == [] {
      if seed > 0 {
        NetAppend([], SeedEntry(seed, since), instrument);
        assert [] + [SeedEntry(seed, since)] == SeedBook(seed, since).entries;
      }
    } else {
      var before, c := cs[..|cs| - 1], cs[|cs| - 1];
      var b := Replayed(seed, since, before);
      ReplayedPositions(seed, since, before, instrument);
      if Decision(b, c) == Fill {
        FillMoves(b, c, instrument);
        TalliesAppend(Fills(seed, since, before), c, instrument);
      }
    }
  }

  // ----------------------------------------------------------------- solvency

  /** Solvency is kept by one body, for every quantity and price including a wrapping product. */
  lemma {:induction false} BodySolvent(b: Book, c: Ctx, instrument: string)
    requires ValidCtx(c) && forall i :: Net(b.entries, i) >= 0
    ensures Net(Body(b, c).entries, instrument) >= 0
  {
    if Decision(b, c) == Fill {
      NetBody(b, c, instrument);
    }
    assert Net(b.entries, instrument) >= 0;
  }

  lemma {:induction false} ReplayedSolvent(seed: int, since: int, cs: seq<Ctx>)
    requires seed >= 0 && AllValid(cs)
    ensures forall i :: Net(Replayed(seed, since, cs).entries, i) >= 0
  {
    if cs == [] {
      forall i
        ensures Net(SeedBook(seed, since).entries, i) >= 0
      {
        if seed > 0 {
          NetAppend([], SeedEntry(seed, since), i);
        }
      }
    } else {
      var before := cs[..|cs| - 1];
      ReplayedSolvent(seed, since, before);
      forall i
        ensures Net(Replayed(seed, since, cs).entries, i) >= 0
      {
        BodySolvent(Replayed(seed, since, before), cs[|cs| - 1], i);
      }
    }
  }

  // -------------------------------------------------------------- audit trail

  /** The contexts that filled, in order. */
  function Fills(seed: int, since: int, cs: seq<Ctx>): seq<Ctx> {
    if cs == [] then []
    else
      var before := cs[..|cs| - 1];
      if Decision(Replayed(seed, since, before), cs[|cs| - 1]) == Fill
      then Fills(seed, since, before) + [cs[|cs| - 1]]
      else Fills(seed, since, before)
  }

  function SeedCount(seed: int): nat {
    if seed > 0 then 1 else 0
  }

  /** The stream is the seed followed, fill by fill, by the two adjacent legs, numbered without gaps. */
  ghost predicate Trail(b: Book, seed: int, since: int, fills: seq<Ctx>) {
    && b.seqCounter == |b.entries| == SeedCount(seed) + 2 * |fills|
    && (seed > 0 ==> b.entries[0] == SeedEntry(seed, since))
    && (forall k :: 0 <= k < |fills| ==>
          var n := SeedCount(seed) + 2 * k;
          b.entries[n] == StockLeg(fills[k], n) && b.entries[n + 1] == CashLeg(fills[k], n))
  }

  lemma {:induction false} ReplayedTrail(seed: int, since: int, cs: seq<Ctx>)
    ensures Trail(Replayed(seed, since, cs), seed, since, Fills(seed, since, cs))
  {
    if cs != [] {
      ReplayedTrail(seed, since, cs[..|cs| - 1]);
    }
  }

  /** Entry i carries number i + 1: the numbers are 1..seqCounter, each once, in stream order. */
  lemma TrailNumbers(b: Book, seed: int, since: int, fills: seq<Ctx>, i: nat)
    requires Trail(b, seed, since, fills) && i < |b.entries|
    ensures b.entries[i].seqNo == i + 1
  {
    var base := SeedCount(seed);
    if i >= base {
      var k := (i - base) / 2;
      assert i == base + 2 * k || i == base + 2 * k + 1;
      assert b.entries[base + 2 * k] == StockLeg(fills[k], base + 2 * k);
    }
  }

  // ------------------------------------------------------------- conservation

  function Value(es: seq<Entry>): int {
    if es == [] then 0 else Value(es[..|es| - 1]) + ExactValue(es[|es| - 1])
  }

  lemma {:induction false} UntilAppend(es: seq<Entry>, e: Entry, asOf: int)
    ensures Until(es + [e], asOf) == if e.createdAt <= asOf then Until(es, asOf) + [e] else Until(es, asOf)
  {
    assert (es + [e])[..|es|] == es;
  }

  lemma {:induction false} ValueAppend(es: seq<Entry>, e: Entry)
    ensures Value(es + [e]) == Value(es) + ExactValue(e)
  {
    assert (es + [e])[..|es|] == es;
  }

  /** What the wrapped product of a fill adds to the books out of nothing. */
  function Drift(c: Ctx): int {
    StockDirection(c.terms.side) * (c.terms.quantity * c.price - Cost(c))
  }

  function DriftUntil(fills: seq<Ctx>, asOf: int): int {
    if fills == [] then 0
    else
      var rest := DriftUntil(fills[..|fills| - 1], asOf);
      var c := fills[|fills| - 1];
      rest + if c.begun <= asOf then Drift(c) else 0
  }

  /** Both legs of a fill share the transaction's timestamp, so a query sees both or neither. */
  lemma {:induction false} BodyValue(b: Book, c: Ctx, asOf: int)
    requires Decision(b, c) == Fill
    ensures Value(Until(Body(b, c).entries, asOf))
            == Value(Until(b.entries, asOf)) + if c.begun <= asOf then Drift(c) else 0
  {
    var s, k := StockLeg(c, b.seqCounter), CashLeg(c, b.seqCounter);
    assert Body(b, c).entries == b.entries + [s] + [k];
    UntilAppend(b.entries, s, asOf);
    UntilAppend(b.entries + [s], k, asOf);
    if c.begun <= asOf {
      ValueAppend(Until(b.entries, asOf), s);
      ValueAppend(Until(b.entries, asOf) + [s], k);
      TradeBalancesIff(c, b.seqCounter);
    }
  }

  lemma {:induction false} SeedValue(seed: int, since: int, asOf: int)
    requires seed >= 0
    ensures Value(Until(SeedBook(seed, since).entries, asOf)) == if since <= asOf then seed else 0
  {
    if seed > 0 {
      var e := SeedEntry(seed, since);
      assert [] + [e] == [e];
      UntilAppend([], e, asOf);
      ValueAppend([], e);
    }
  }

  lemma {:induction false} DriftAppend(fills: seq<Ctx>, c: Ctx, asOf: int)
    ensures DriftUntil(fills + [c], asOf) == DriftUntil(fills, asOf) + if c.begun <= asOf then Drift(c) else 0
  {
    assert (fills + [c])[..|fills|] == fills;
  }

  /** Value at any point in time: the seed plus the drift of the fills included. */
  lemma {:induction false} ReplayedValue(seed: int, since: int, cs: seq<Ctx>, asOf: int)
    requires seed >= 0
    ensures Value(Until(Replayed(seed, since, cs).entries, asOf))
            == (if since <= asOf then seed else 0) + DriftUntil(Fills(seed, since, cs), asOf)
  {
    if cs == [] {
      SeedValue(seed, since, asOf);
    } else {
      var before, c := cs[..|cs| - 1], cs[|cs| - 1];
      var b := Replayed(seed, since, before);
      ReplayedValue(seed, since, before, asOf);
      if Decision(b, c) == Fill {
        BodyValue(b, c, asOf);
        DriftAppend(Fills(seed, since, before), c, asOf);
      }
    }
  }

  lemma {:induction false} NoDrift(fills: seq<Ctx>, asOf: int)
    requires forall k :: 0 <= k < |fills| ==> IsInt64(fills[k].terms.quantity * fills[k].price)
    ensures DriftUntil(fills, asOf) == 0
  {
    if fills != [] {
      NoDrift(fills[..|fills| - 1], asOf);
      assert Drift(fills[|fills| - 1]) == 0;
    }
  }

  /**
   The hypothesis is needed.  A portfolio seeded with 2^32 paise buys 2^32 shares
   at 2^32 + 1 paise: the cost wraps to the whole of its cash, the double-entry
   test passes, and the books end up worth 2^64 paise more than the seed.
   */
  lemma {:induction false} WrapMakesValue(since: int)
    ensures var n: int := 0x1_0000_0000;
      var c := Ctx(0, 0, Order(0, "", Buy, "TCS", n, Market, Pending, None), n + 1, since);
      && ValidCtx(c) && Decision(SeedBook(n, since), c) == Fill
      && Net(Replayed(n, since, [c]).entries, CASH) == 0
      && Value(Until(Replayed(n, since, [c]).entries, since)) == n + 0x1_0000_0000_0000_0000
  {
    var n: int := 0x1_0000_0000;
    var c := Ctx(0, 0, Order(0, "", Buy, "TCS", n, Market, Pending, None), n + 1, since);
    var b := SeedBook(n, since);
    assert Cost(c) == n;
    assert forall i :: Net([SeedEntry(n, since)], i) == Signed(SeedEntry(n, since), i);
    assert Decision(b, c) == Fill;
    assert [c][..0] == [];
    assert Replayed(n, since, [c]) == Body(b, c);
    NetBody(b, c, CASH);
    BodyValue(b, c, since);
    SeedValue(n, since, since);
  }
}
