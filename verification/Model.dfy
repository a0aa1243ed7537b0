/** Domain records and the arithmetic of one trade. */
module Model {
  import opened Prelude

  const CASH := "CASH"

  datatype Side = Buy | Sell
  datatype OrderType = Market | Limit(price: int)
  datatype OrderStatus = Pending | Filled | Rejected | Cancelled | Settled

  datatype Order = Order(portfolio: nat, key: string, side: Side, instrument: string, quantity: int,
                         orderType: OrderType, status: OrderStatus, fillPrice: Option<int>)

  /** A trade uuid, named by the order it fills and the execution that drew it. */
  datatype TradeId = SeedTrade | FillTrade(order: nat, exec: nat)

  datatype Entry = Entry(trade: TradeId, instrument: string, direction: int, quantity: int,
                         price: Option<int>, createdAt: int, seqNo: int)

  /** What order validation and the schema establish of every stored order. */
  predicate ValidTerms(o: Order) {
    && 0 < o.quantity && IsInt64(o.quantity)
    && o.instrument != "" && o.instrument != CASH
    && (o.orderType.Limit? ==> 0 < o.orderType.price && IsInt64(o.orderType.price))
  }

  function Unit(e: Entry): int {
    if e.price.Some? then e.price.value else 1
  }

  /** The value the code computes, wrapping after each multiplication. */
  function SignedValue(e: Entry): int {
    Wrap64(Wrap64(e.direction * e.quantity) * Unit(e))
  }

  /** The value the entry stands for. */
  function ExactValue(e: Entry): int {
    e.direction * e.quantity * Unit(e)
  }

  /** Everything a transaction of ExecuteOrder has read before it begins. */
  datatype Ctx = Ctx(order: nat, exec: nat, terms: Order, price: int, begun: int)

  predicate ValidCtx(c: Ctx) {
    ValidTerms(c.terms) && IsInt64(c.price)
  }

  function Cost(c: Ctx): int {
    Wrap64(c.terms.quantity * c.price)
  }

  function StockDirection(side: Side): int {
    if side == Buy then 1 else -1
  }

  function StockLeg(c: Ctx, seqNo: int): Entry {
    Entry(FillTrade(c.order, c.exec), c.terms.instrument, StockDirection(c.terms.side), c.terms.quantity,
          Some(c.price), c.begun, seqNo + 1)
  }

  function CashLeg(c: Ctx, seqNo: int): Entry {
    Entry(FillTrade(c.order, c.exec), CASH, -StockDirection(c.terms.side), Cost(c), None, c.begun, seqNo + 2)
  }

  /** The double-entry test that runs before the legs are inserted. */
  predicate DoubleEntry(stock: Entry, cash: Entry) {
    Wrap64(SignedValue(stock) + SignedValue(cash)) == 0
  }

  lemma OppositesCancel(x: int)
    ensures Wrap64(Wrap64(x) + Wrap64(-x)) == 0
  {
    WrapSummand(x, Wrap64(-x));
    WrapSummand(-x, x);
  }

  lemma StockLegValue(c: Ctx, seqNo: int)
    ensures SignedValue(StockLeg(c, seqNo)) == Wrap64(StockDirection(c.terms.side) * (c.terms.quantity * c.price))
  {
    var d, n, p := StockDirection(c.terms.side), c.terms.quantity, c.price;
    WrapFactor(d * n, p);
    assert d * n * p == d * (n * p);
  }

  lemma CashLegValue(c: Ctx, seqNo: int)
    ensures SignedValue(CashLeg(c, seqNo)) == Wrap64(-(StockDirection(c.terms.side) * (c.terms.quantity * c.price)))
  {
    var d, x := StockDirection(c.terms.side), c.terms.quantity * c.price;
    assert -d * Wrap64(x) == Wrap64(x) * -d && x * -d == -(d * x);
    WrapFactor(-d * Wrap64(x), 1);
    WrapFactor(x, -d);
  }

  /** The test passes for every quantity and price, also when their product wraps. */
  lemma DoubleEntryNeverFires(c: Ctx, seqNo: int)
    ensures DoubleEntry(StockLeg(c, seqNo), CashLeg(c, seqNo))
  {
    StockLegValue(c, seqNo);
    CashLegValue(c, seqNo);
    OppositesCancel(StockDirection(c.terms.side) * (c.terms.quantity * c.price));
  }

  /** The legs balance in fact, not only modulo 2^64, exactly when the product fits an int64. */
  lemma TradeBalancesIff(c: Ctx, seqNo: int)
    ensures ExactValue(StockLeg(c, seqNo)) + ExactValue(CashLeg(c, seqNo))
            == StockDirection(c.terms.side) * (c.terms.quantity * c.price - Cost(c))
    ensures ExactValue(StockLeg(c, seqNo)) + ExactValue(CashLeg(c, seqNo)) == 0
            <==> IsInt64(c.terms.quantity * c.price)
  {
    var d, n, p := StockDirection(c.terms.side), c.terms.quantity, c.price;
    assert d * n * p == d * (n * p);
    assert d == 1 || d == -1;
  }
}
