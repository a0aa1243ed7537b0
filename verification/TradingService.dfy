/**
 The trading service as one caller sees it: each call runs alone.  What the calls
 of several workers do together is the subject of LedgerMachine and System; the
 transaction of ExecuteOrder is specified here by the same Decision and Body.
 */
module TradingService {
  import opened Prelude
  import opened Model
  import opened Book
  import opened JobTables
  import Repo = JobRepository
  import SnapshotStore
  import Machine = System
  import opened Pricing

  datatype Error = ValidationError | InvariantError | NotFound | Retryable

  datatype Result<+T> = Ok(value: T) | Err(error: Error)

  /** The JSON body of an order request; quantities and prices are int64 by type. */
  datatype Request = Request(portfolio: nat, side: string, instrument: string, quantity: int,
                             orderType: string, limitPrice: Option<int>, key: string)

  predicate InRange(r: Request) {
    IsInt64(r.quantity) && (r.limitPrice.Some? ==> IsInt64(r.limitPrice.value))
  }

  /** The checks of PlaceOrder in source order; an empty type means a market order. */
  function Validated(r: Request): Result<Order> {
    if r.side != "buy" && r.side != "sell" then Err(ValidationError)
    else if r.orderType != "" && r.orderType != "market" && r.orderType != "limit" then Err(ValidationError)
    else if r.orderType == "limit" && (r.limitPrice.None? || r.limitPrice.value <= 0) then Err(ValidationError)
    else if r.quantity <= 0 then Err(ValidationError)
    else if r.instrument == "" || r.instrument == CASH then Err(ValidationError)
    else
      Ok(Order(r.portfolio, r.key, if r.side == "buy" then Buy else Sell, r.instrument, r.quantity,
               if r.orderType == "limit" then Limit(r.limitPrice.value) else Market, Pending, None))
  }

  /** The requests that PlaceOrder accepts. */
  predicate Acceptable(r: Request) {
    && (r.side == "buy" || r.side == "sell")
    && (r.orderType in {"", "market"} || (r.orderType == "limit" && r.limitPrice.Some? && r.limitPrice.value > 0))
    && r.quantity > 0 && r.instrument != "" && r.instrument != "CASH"
  }

  /** The order is the one that was requested, pending and without a price. */
  predicate IsRequested(o: Order, r: Request) {
    && o.portfolio == r.portfolio && o.key == r.key && o.instrument == r.instrument && o.quantity == r.quantity
    && (o.side == Buy <==> r.side == "buy") && (o.side == Sell <==> r.side == "sell")
    && (r.orderType == "limit" ==> o.orderType.Limit? && r.limitPrice == Some(o.orderType.price))
    && (r.orderType != "limit" ==> o.orderType == Market)
    && o.status == Pending && o.fillPrice == None
  }

  /** A request passes the checks exactly when it is acceptable, and its order is what was requested. */
  lemma ValidatedIff(r: Request)
    requires InRange(r)
    ensures Validated(r).Ok? <==> Acceptable(r)
    ensures Validated(r).Ok? ==> IsRequested(Validated(r).value, r) && ValidTerms(Validated(r).value)
  {
  }

  // ------------------------------------------------------------------- holdings

  function Included(es: seq<Entry>, asOf: Option<int>): seq<Entry> {
    if asOf.None? then es else Until(es, asOf.value)
  }

  lemma IncludedAppend(es: seq<Entry>, e: Entry, asOf: Option<int>)
    ensures Included(es + [e], asOf)
            == if asOf.None? || e.createdAt <= asOf.value then Included(es, asOf) + [e] else Included(es, asOf)
  {
    if asOf.Some? {
      UntilAppend(es, e, asOf.value);
    }
  }

  /** One row of the scan added to the sums. */
  function AddRow(sums: map<string, int>, e: Entry): map<string, int> {
    sums[e.instrument := Lookup(sums, e.instrument) + e.direction * e.quantity]
  }

  method SumRows(es: seq<Entry>, asOf: Option<int>) returns (sums: map<string, int>)
    ensures sums == Holdings(Included(es, asOf))
  {
    sums := map[];
    for k := 0 to |es|
      invariant sums == Holdings(Included(es[..k], asOf))
    {
      assert es[..k + 1] == es[..k] + [es[k]];
      IncludedAppend(es[..k], es[k], asOf);
      if asOf.None? || es[k].createdAt <= asOf.value {
        HoldingsAppend(Included(es[..k], asOf), es[k]);
        sums := AddRow(sums, es[k]);
      }
    }
    assert es[..|es|] == es;
  }

  /** The GROUP BY query: one pass over the stream, failing if a sum does not fit a bigint. */
  method QueryHoldings(es: seq<Entry>, asOf: Option<int>) returns (out: Option<map<string, int>>)
    ensures out.Some? <==> HoldingsFit(Included(es, asOf))
    ensures var included := if asOf.Some? then Until(es, asOf.value) else es;
      out.None? <==> exists e :: e in included && !IsInt64(Net(included, e.instrument))
    ensures out.Some? ==> out.value == Holdings(Included(es, asOf))
    ensures out.Some? ==>
      forall i :: Lookup(out.value, i) == Net(if asOf.Some? then Until(es, asOf.value) else es, i)
  {
    var sums := SumRows(es, asOf);
    assert forall i :: i in Instruments(Included(es, asOf)) ==> i in sums && sums[i] == Net(Included(es, asOf), i);
    if forall i :: i in sums ==> IsInt64(sums[i]) {
      out := Some(sums);
      forall i
        ensures Lookup(out.value, i) == Net(Included(es, asOf), i)
      {
        LookupHoldings(Included(es, asOf), i);
      }
    } else {
      out := None;
    }
  }

  lemma HoldingsAppend(es: seq<Entry>, e: Entry)
    ensures Holdings(es + [e]) == AddRow(Holdings(es), e)
  {
    var after, added := Holdings(es + [e]), AddRow(Holdings(es), e);
    assert forall i :: i in Instruments(es + [e]) <==> i in Instruments(es) || i == e.instrument by {
      assert forall x :: x in es + [e] <==> x in es || x == e;
    }
    assert after.Keys == added.Keys;
    LookupHoldings(es, e.instrument);
    forall i | i in after
      ensures after[i] == added[i]
    {
      NetAppend(es, e, i);
    }
  }

  /** The atomic body, written out. */
  lemma BodyWritten(b: Book, c: Ctx)
    ensures var p, price := c.terms.portfolio, c.price;
      Decision(b, c) == if !HoldingsFit(b.entries) then Abort
                        else if !CoveredBy(b.entries, c.terms, price) then Refuse
                        else if Wrap64(c.terms.quantity * price) <= 0 then Abort else Fill
    ensures Decision(b, c) == Fill ==>
      Body(b, c) == Book(b.entries + FillEntries(c.order, c.exec, c.terms, c.price, c.begun, b.seqCounter),
                         b.seqCounter + 2)
  {
  }

  // -------------------------------------------------------------------- service

  class TradingService {
    var books: seq<Book>
    var orders: seq<Order>
    var nextId: nat                    // source of fresh job ids
    const jobs: Repo.JobRepository
    const cache: SnapshotStore.Cache

    /** Job ids not yet drawn are not in use. */
    ghost predicate Valid()
      reads this, jobs
    {
      && (forall id :: id in jobs.jobs ==> id < nextId)
      && (forall o :: 0 <= o < |orders| ==> ValidTerms(orders[o]) && orders[o].portfolio < |books|)
    }

    constructor ()
      ensures Valid() && books == [] && orders == [] && fresh(jobs) && fresh(cache)
    {
      books, orders, nextId := [], [], 0;
      jobs := new Repo.JobRepository();
      cache := new SnapshotStore.Cache();
    }

    method CreatePortfolio(seed: int, now: int) returns (r: Result<nat>)
      requires Valid()
      modifies this
      ensures Valid() && orders == old(orders) && nextId == old(nextId)
      ensures r.Err? <==> seed < 0
      ensures books == if seed < 0 then old(books)
        else old(books) + [if seed == 0 then Book([], 0)
                           else Book([Entry(SeedTrade, "CASH", 1, seed, None, now, 1)], 1)]
      ensures r.Ok? ==> r.value == |old(books)|
    {
      if seed < 0 {
        return Err(ValidationError);
      }
      var entries: seq<Entry>, counter := [], 0;
      if seed > 0 {
        entries := entries + [Entry(SeedTrade, CASH, 1, seed, None, now, 1)];
        counter := counter + 1;
        assert entries == [SeedEntry(seed, now)];
      }
      books := books + [Book(entries, counter)];
      return Ok(|books| - 1);
    }

    /** An order carries this nonempty key. */
    ghost predicate Known(orders: seq<Order>, key: string) {
      key != "" && exists o :: 0 <= o < |orders| && orders[o].key == key
    }

    /** The first order that carries this key. */
    method FindKey(key: string) returns (found: Option<nat>)
      ensures found.None? <==> forall o :: 0 <= o < |orders| ==> orders[o].key != key
      ensures found.Some? ==> found.value < |orders| && orders[found.value].key == key
    {
      for o := 0 to |orders|
        invariant forall k :: 0 <= k < o ==> orders[k].key != key
      {
        if orders[o].key == key {
          return Some(o);
        }
      }
      return None;
    }

    /**
     Accepts an order and enqueues its execution together, or returns the order that
     already carries the idempotency key, or refuses and changes nothing.
     */
    method PlaceOrder(req: Request, now: int) returns (r: Result<nat>)
      requires Valid() && InRange(req)
      modifies this, jobs
      ensures Valid() && books == old(books)
      ensures r.Err? <==> !Acceptable(req) || (!Known(old(orders), req.key) && req.portfolio >= |books|)
      ensures r.Err? || Known(old(orders), req.key) ==> orders == old(orders) && jobs.State() == old(jobs.State())
      ensures r.Ok? && Known(old(orders), req.key) ==> r.value < |orders| && orders[r.value].key == req.key
      ensures r.Ok? && !Known(old(orders), req.key) ==>
        && r.value == |old(orders)| && |orders| == r.value + 1 && orders[..r.value] == old(orders)
        && IsRequested(orders[r.value], req)
        && jobs.jobs == old(jobs.jobs)[old(nextId) := Job(Kind.ExecuteOrder(r.value), 10, now, Queued, 0, 5, None)]
        && jobs.dead == old(jobs.dead)
    {
      ValidatedIff(req);
      if Validated(req).Err? {
        return Err(ValidationError);
      }
      if req.key != "" {
        var found := FindKey(req.key);
        if found.Some? {
          return Ok(found.value);
        }
      }
      if req.portfolio >= |books| {
        return Err(ValidationError);
      }
      orders := orders + [Validated(req).value];
      var enqueued := jobs.Enqueue(nextId, Kind.ExecuteOrder(|orders| - 1), 10, now, 5);
      nextId := nextId + 1;
      return Ok(|orders| - 1);
    }

    /** Cancels an order that is pending when it is read. */
    method CancelOrder(o: nat) returns (r: Result<Order>)
      requires Valid()
      modifies this
      ensures Valid() && books == old(books) && nextId == old(nextId)
      ensures r.Ok? <==> o < |old(orders)| && old(orders)[o].status == Pending
      ensures orders == if r.Ok? then old(orders)[o := old(orders)[o].(status := Cancelled)] else old(orders)
      ensures r.Ok? ==> r.value == orders[o]
      ensures r.Err? ==> r.error == if o < |old(orders)| then InvariantError else NotFound
    {
      if o >= |orders| {
        return Err(NotFound);
      }
      if orders[o].status != Pending {
        return Err(InvariantError);
      }
      orders := orders[o := orders[o].(status := Cancelled)];
      return Ok(orders[o]);
    }

    /** Only the order's status has changed, to rejected. */
    ghost predicate OnlyRejected(o: nat, books0: seq<Book>, orders0: seq<Order>, jobs0: Tables)
      reads this, jobs
    {
      && o < |orders0| && orders == orders0[o := orders0[o].(status := Rejected)]
      && books == books0 && jobs.State() == jobs0
    }

    /** What executing a pending order at a quote has done, in terms of the order, the quote and the books before. */
    ghost predicate Executed(order: Order, o: nat, quote: int, exec: nat, now: int, books0: seq<Book>,
                             orders0: seq<Order>, jobs0: Tables, snapshots0: map<nat, SnapshotStore.Cached>,
                             id: nat, err: bool)
      reads this, jobs, cache
      requires o < |orders0| && order.portfolio < |books0|
    {
      var p := order.portfolio;
      var b := books0[p];
      var price := if order.orderType.Limit? then order.orderType.price else quote;
      if OutOfLimit(order, quote) then !err && OnlyRejected(o, books0, orders0, jobs0)
      else if !HoldingsFit(b.entries) then err
      else if !CoveredBy(b.entries, order, price) then !err && OnlyRejected(o, books0, orders0, jobs0)
      else if Wrap64(order.quantity * price) <= 0 then err
      else
        && !err && FillsAtQuote(order, quote, price)
        && books == books0[p := Book(b.entries + FillEntries(o, exec, order, price, now, b.seqCounter),
                                     b.seqCounter + 2)]
        && orders == orders0[o := order.(status := Filled, fillPrice := Some(price))]
        && jobs.State()
           == Tables(jobs0.jobs[id := Job(Settle(o), 0, now + 86_400_000, Queued, 0, 3, None)], jobs0.dead)
        && cache.snapshots == snapshots0 - {p}
    }

    /**
     Executes an order at a quote (or fails when there is none).  A decided order is
     left alone; an unmarketable limit order is rejected; otherwise the transaction
     fills, rejects or rolls back as Decision says, and a fill writes Body's book,
     the order's status and price, and the settle job, all or nothing, and drops the
     cached view.
     */
    method ExecuteOrder(o: nat, quote: Option<int>, exec: nat, now: int) returns (err: bool)
      requires Valid() && (quote.Some? ==> IsInt64(quote.value))
      modifies this, jobs, cache
      ensures Valid() && |books| == |old(books)|
      ensures o >= |old(orders)| ==> err
      ensures books == old(books) ==> cache.snapshots == old(cache.snapshots)
      ensures err || (o < |old(orders)| && old(orders)[o].status != Pending) ==>
        books == old(books) && orders == old(orders) && jobs.State() == old(jobs.State())
      ensures o < |old(orders)| && old(orders)[o].status != Pending ==> !err
      ensures o < |old(orders)| && old(orders)[o].status == Pending && quote.None? ==> err
      ensures o < |old(orders)| && old(orders)[o].status == Pending && quote.Some? ==>
        Executed(old(orders)[o], o, quote.value, exec, now, old(books), old(orders), old(jobs.State()),
                 old(cache.snapshots), old(nextId), err)
    {
      if o >= |orders| {
        return true;
      }
      var order := orders[o];
      if order.status != Pending {
        return false;
      }
      if quote.None? {
        return true;
      }
      if !Machine.Marketable(order, quote.value) {
        orders := orders[o := order.(status := Rejected)];
        return false;
      }
      var price := Machine.FillPrice(order, quote.value);
      assert FillsAtQuote(order, quote.value, price);
      err := Transact(o, order, price, exec, now);
      BodyWritten(old(books)[order.portfolio], Ctx(o, exec, order, price, now));
    }

    /**
     What the transaction decides on these books: it aborts when a sum does not fit or the
     cash leg violates the CHECK, and refuses when cash or shares do not suffice.
     */
    method Weigh(b: Book, c: Ctx) returns (v: Verdict)
      requires c.terms.quantity > 0
      ensures v == Decision(b, c)
      ensures v == Abort <==> !HoldingsFit(b.entries) || (CoveredBy(b.entries, c.terms, c.price) && Cost(c) <= 0)
      ensures v == Refuse <==> HoldingsFit(b.entries) && !CoveredBy(b.entries, c.terms, c.price)
    {
      var holdings := QueryHoldings(b.entries, None);
      if holdings.None? {
        return Abort;
      }
      var cost := Wrap64(c.terms.quantity * c.price);
      if c.terms.side == Buy {
        if Lookup(holdings.value, CASH) < cost {
          return Refuse;
        }
      } else {
        if Lookup(holdings.value, c.terms.instrument) < c.terms.quantity {
          return Refuse;
        }
      }
      if c.terms.quantity <= 0 || cost <= 0 {
        return Abort;
      }
      return Fill;
    }

    /** The two entries of a fill, which the double-entry test always lets through. */
    method TwoLegs(c: Ctx, cost: int, seqNo: int) returns (stock: Entry, cash: Entry)
      requires cost == Cost(c)
      ensures stock == StockLeg(c, seqNo) && cash == CashLeg(c, seqNo)
      ensures [stock, cash] == FillEntries(c.order, c.exec, c.terms, c.price, c.begun, seqNo)
      ensures DoubleEntry(stock, cash)
    {
      var stockDir, cashDir := -1, 1;
      if c.terms.side == Buy {
        stockDir, cashDir := 1, -1;
      }
      var trade := FillTrade(c.order, c.exec);
      stock := Entry(trade, c.terms.instrument, stockDir, c.terms.quantity, Some(c.price), c.begun, seqNo + 1);
      cash := Entry(trade, CASH, cashDir, cost, None, c.begun, seqNo + 2);
      DoubleEntryNeverFires(c, seqNo);
    }

    /** The transaction; its writes are buffered and applied together at the end. */
    method Transact(o: nat, order: Order, price: int, exec: nat, now: int) returns (err: bool)
      requires Valid() && o < |orders| && orders[o] == order && IsInt64(price)
      modifies this, jobs, cache
      ensures Valid() && |books| == |old(books)|
      ensures books == old(books) ==> cache.snapshots == old(cache.snapshots)
      ensures var c := Ctx(o, exec, order, price, now);
        var p := order.portfolio;
        match Decision(old(books)[p], c)
        case Abort => err && books == old(books) && orders == old(orders) && jobs.State() == old(jobs.State())
        case Refuse =>
          !err && books == old(books) && jobs.State() == old(jobs.State())
          && orders == Machine.WithStatus(old(orders), o, Rejected)
        case Fill =>
          && !err && books == old(books)[p := Body(old(books)[p], c)] && cache.snapshots == old(cache.snapshots) - {p}
          && orders == old(orders)[o := order.(status := Filled, fillPrice := Some(price))]
          && jobs.State() == InsertJob(old(jobs.State()), old(nextId), NewJob(Settle(o), 0, now + Machine.DAY, 3))
    {
      var p := order.portfolio;
      var seqNo := books[p].seqCounter;
      var verdict := Weigh(books[p], Ctx(o, exec, order, price, now));
      if verdict == Abort {
        return true;
      }
      if verdict == Refuse {
        orders := orders[o := order.(status := Rejected)];
        return false;
      }
      var stock, cash := TwoLegs(Ctx(o, exec, order, price, now), Wrap64(order.quantity * price), seqNo);
      books := books[p := Book(books[p].entries + [stock, cash], seqNo + 2)];
      orders := orders[o := order.(status := Filled, fillPrice := Some(price))];
      var enqueued := jobs.Enqueue(nextId, Settle(o), 0, now + Machine.DAY, 3);
      nextId := nextId + 1;
      cache.InvalidateSnapshot(p);
      return false;
    }
  }
}
