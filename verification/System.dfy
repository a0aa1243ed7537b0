/**
 The whole back end: the queue, the ledger, the orders table and the handlers of
 the outstanding executions, interleaved statement by statement.

 The state is a product.  Each step is given by its part in the queue (QPart),
 its part in the ledger (LPart) and its effect on the orders and on the program
 counters of the handlers, so every run of the system projects to a run of the
 queue machine and to a run of the ledger machine.
 */
module System {
  import opened Prelude
  import opened Model
  import opened JobTables
  import Q = QueueMachine
  import L = LedgerMachine

  /** How far the handler of an execution has come. */
  datatype Pc =
    | Start
    | GotOrder(order: Order)                 // the order was read, and was pending
    | Rejecting                              // a limit order that is not marketable
    | Priced(order: Order, price: int)       // a fill price is known
    | InTx                                   // inside the transaction (see the ledger)
    | Settling                               // the settle handler has read "filled"
    | Finished                               // about to return nil

  datatype Sys = Sys(
    q: Q.Queue,
    l: L.Ledger,
    orders: seq<Order>,
    pcs: map<nat, Pc>,
    cancels: multiset<nat>,       // CancelOrder calls between their read and their write
    seeders: nat,                 // seedPoller calls between their check and their enqueue
    outbox: seq<nat>,             // history: the job enqueued with each order
    lastSettle: map<nat, nat>)    // history: the settle job of each order's latest fill

  datatype Act =
    | QueueStep(qa: Q.QAct)
    | CrashWorker(e: nat)
    | OpenPortfolio(seed: int)
    | PlaceOrder(order: Order)
    | CancelRead(o: nat)
    | CancelWrite(o: nat)
    | SeedCheck
    | SeedEnqueue
    | SeedAbandon                 // the caller dies, or its enqueue fails
    | ReadOrder(e: nat)
    | TakeQuote(e: nat, quote: int)
    | RejectOrder(e: nat)
    | BeginTx(e: nat)
    | TxStep(e: nat, la: L.LAct)
    | CommitTx(e: nat)
    | ReadSettle(e: nat)
    | WriteSettled(e: nat)
    | Rearm(e: nat)
    | OtherDone(e: nat)
    | HandlerFails(e: nat)        // any error: a lookup, a quote, a statement, a lost reply
    | HandlerReturns(e: nat)

  const DAY := 86_400_000
  const POLL_EVERY := 15_000

  predicate SysInit(s: Sys) {
    && Q.QInit(s.q) && L.LInit(s.l) && s.orders == [] && s.pcs == map[]
    && s.cancels == multiset{} && s.seeders == 0 && s.outbox == [] && s.lastSettle == map[]
  }

  /** Execution e is running a handler of this kind and has come this far. */
  predicate At(s: Sys, e: nat) {
    e in s.q.execs && e in s.pcs && s.q.execs[e].phase == Q.Working
  }

  predicate ExecutesOrder(s: Sys, e: nat) {
    At(s, e) && s.q.execs[e].kind.ExecuteOrder? && s.q.execs[e].kind.order < |s.orders|
  }

  predicate SettlesOrder(s: Sys, e: nat) {
    At(s, e) && s.q.execs[e].kind.Settle? && s.q.execs[e].kind.order < |s.orders|
  }

  /** A limit order fills only on its own side of the limit. */
  predicate Marketable(o: Order, quote: int) {
    o.orderType.Limit? ==> if o.side == Buy then quote <= o.orderType.price else quote >= o.orderType.price
  }

  function FillPrice(o: Order, quote: int): int {
    if o.orderType.Limit? then o.orderType.price else quote
  }

  /** Statements of the transaction before its commit. */
  predicate InnerStatement(la: L.LAct, e: nat) {
    (la.Lock? || la.ReadHoldings? || la.Decide? || la.Write?) && la.e == e
  }

  /** Queue steps that touch nothing else. */
  predicate PureQueueStep(qa: Q.QAct) {
    !qa.Crash? && !qa.Return? && (qa.Enqueue? ==> qa.kind == AlertWebhook)
  }

  predicate KeyFree(orders: seq<Order>, key: string) {
    key == "" || forall i :: 0 <= i < |orders| ==> orders[i].key != key
  }

  predicate Guard(s: Sys, a: Act) {
    match a
    case QueueStep(qa) => PureQueueStep(qa)
    case CrashWorker(e) => e in s.q.execs
    case OpenPortfolio(_) => true
    case PlaceOrder(o) =>
      ValidTerms(o) && o.portfolio < |s.l.accounts| && KeyFree(s.orders, o.key)
      && o.status == Pending && o.fillPrice == None
    case CancelRead(o) => o < |s.orders| && s.orders[o].status == Pending
    case CancelWrite(o) => o in s.cancels && o < |s.orders|
    case SeedCheck => !HasActive(s.q.tables.jobs, PollQuotes)
    case SeedEnqueue => s.seeders > 0
    case SeedAbandon => s.seeders > 0
    case ReadOrder(e) => ExecutesOrder(s, e) && s.pcs[e] == Start
    case TakeQuote(e, quote) => ExecutesOrder(s, e) && s.pcs[e].GotOrder? && IsInt64(quote)
    case RejectOrder(e) => ExecutesOrder(s, e) && s.pcs[e] == Rejecting
    case BeginTx(e) => ExecutesOrder(s, e) && s.pcs[e].Priced?
    case TxStep(e, la) => ExecutesOrder(s, e) && s.pcs[e] == InTx && InnerStatement(la, e)
    case CommitTx(e) => ExecutesOrder(s, e) && s.pcs[e] == InTx && e in s.l.txs && s.l.txs[e].Writing?
    case ReadSettle(e) => SettlesOrder(s, e) && s.pcs[e] == Start
    case WriteSettled(e) => SettlesOrder(s, e) && s.pcs[e] == Settling
    case Rearm(e) => At(s, e) && s.q.execs[e].kind == PollQuotes && s.pcs[e] == Start
    case OtherDone(e) => At(s, e) && s.q.execs[e].kind == AlertWebhook && s.pcs[e] == Start
    case HandlerFails(e) => At(s, e)
    case HandlerReturns(e) => At(s, e) && s.pcs[e] == Finished
  }

  function QPart(s: Sys, a: Act): Option<Q.QAct>
    requires Guard(s, a)
  {
    match a
    case QueueStep(qa) => Some(qa)
    case CrashWorker(e) => Some(Q.Crash(e))
    case PlaceOrder(_) => Some(Q.Enqueue(ExecuteOrder(|s.orders|), 10, s.q.clock, 5))
    case CommitTx(e) =>
      if s.l.txs[e].buf.settle then Some(Q.Enqueue(Settle(s.q.execs[e].kind.order), 0, s.q.clock + DAY, 3)) else None
    case SeedEnqueue => Some(Q.Enqueue(PollQuotes, 0, s.q.clock, 1_000_000))
    case Rearm(_) => Some(Q.Enqueue(PollQuotes, 0, s.q.clock + POLL_EVERY, 1_000_000))
    case HandlerFails(e) => Some(Q.Return(e, false))
    case HandlerReturns(e) => Some(Q.Return(e, true))
    case _ => None
  }

  function LPart(s: Sys, a: Act): Option<L.LAct>
    requires Guard(s, a)
  {
    match a
    case OpenPortfolio(seed) => Some(L.OpenAccount(seed, s.q.clock))
    case BeginTx(e) =>
      Some(L.Begin(Ctx(s.q.execs[e].kind.order, e, s.pcs[e].order, s.pcs[e].price, s.q.clock)))
    case TxStep(_, la) => Some(la)
    case CommitTx(e) => Some(L.Commit(e))
    case CrashWorker(e) => if e in s.l.txs then Some(L.Rollback(e)) else None
    case HandlerFails(e) => if e in s.l.txs then Some(L.Rollback(e)) else None
    case _ => None
  }

  predicate Enabled(s: Sys, a: Act) {
    && Guard(s, a)
    && (QPart(s, a).Some? ==> Q.QEnabled(s.q, QPart(s, a).value))
    && (LPart(s, a).Some? ==> L.LEnabled(s.l, LPart(s, a).value))
  }

  function WithStatus(orders: seq<Order>, o: nat, status: OrderStatus): seq<Order>
    requires o < |orders|
  {
    orders[o := orders[o].(status := status)]
  }

  /** Effect on the orders table; status writes are not guarded by the current status. */
  function OrdersAfter(s: Sys, a: Act): seq<Order>
    requires Guard(s, a)
  {
    match a
    case PlaceOrder(o) => s.orders + [o]
    case CancelWrite(o) => WithStatus(s.orders, o, Cancelled)
    case RejectOrder(e) => WithStatus(s.orders, s.q.execs[e].kind.order, Rejected)
    case WriteSettled(e) => WithStatus(s.orders, s.q.execs[e].kind.order, Settled)
    case CommitTx(e) =>
      var o := s.q.execs[e].kind.order;
      (match s.l.txs[e].buf.status
       case Some(Filled) => s.orders[o := s.orders[o].(status := Filled, fillPrice := Some(s.l.txs[e].ctx.price))]
       case Some(st) => WithStatus(s.orders, o, st)
       case None => s.orders)
    case _ => s.orders
  }

  function PcsAfter(s: Sys, a: Act): map<nat, Pc>
    requires Guard(s, a)
  {
    match a
    case QueueStep(qa) => if qa.Claim? then s.pcs[s.q.nextExec := Start] else s.pcs
    case ReadOrder(e) =>
      var o := s.orders[s.q.execs[e].kind.order];
      s.pcs[e := if o.status == Pending then GotOrder(o) else Finished]
    case TakeQuote(e, quote) =>
      var o := s.pcs[e].order;
      s.pcs[e := if Marketable(o, quote) then Priced(o, FillPrice(o, quote)) else Rejecting]
    case RejectOrder(e) => s.pcs[e := Finished]
    case BeginTx(e) => s.pcs[e := InTx]
    case CommitTx(e) => s.pcs[e := Finished]
    case ReadSettle(e) => s.pcs[e := if s.orders[s.q.execs[e].kind.order].status == Filled then Settling else Finished]
    case WriteSettled(e) => s.pcs[e := Finished]
    case Rearm(e) => s.pcs[e := Finished]
    case OtherDone(e) => s.pcs[e := Finished]
    case _ => s.pcs
  }

  function Do(s: Sys, a: Act): Sys
    requires Enabled(s, a)
  {
    Sys(
      if QPart(s, a).Some? then Q.QDo(s.q, QPart(s, a).value) else s.q,
      if LPart(s, a).Some? then L.LDo(s.l, LPart(s, a).value) else s.l,
      OrdersAfter(s, a),
      PcsAfter(s, a),
      if a.CancelRead? then s.cancels + multiset{a.o}
      else if a.CancelWrite? then s.cancels - multiset{a.o} else s.cancels,
      if a.SeedCheck? then s.seeders + 1
      else if a.SeedEnqueue? || a.SeedAbandon? then s.seeders - 1 else s.seeders,
      if a.PlaceOrder? then s.outbox + [|s.q.log|] else s.outbox,
      if a.CommitTx? && s.l.txs[a.e].buf.settle then s.lastSettle[s.q.execs[a.e].kind.order := |s.q.log|]
      else s.lastSettle)
  }

  predicate Next(s: Sys, a: Act, s': Sys) {
    Enabled(s, a) && s' == Do(s, a)
  }

  /** Step i of the sequence leads from state i to state i + 1. */
  ghost predicate StepAt(ss: seq<Sys>, acts: seq<Act>, i: nat) {
    i < |acts| && i + 1 < |ss| && Next(ss[i], acts[i], ss[i + 1])
  }

  ghost predicate Run(ss: seq<Sys>, acts: seq<Act>) {
    && |ss| == |acts| + 1
    && SysInit(ss[0])
    && forall i :: 0 <= i < |acts| ==> StepAt(ss, acts, i)
  }

  /** The execution that performs a step; a crash is not an act of the execution. */
  function Actor(a: Act): Option<nat> {
    match a
    case QueueStep(qa) => Q.Actor(qa)
    case ReadOrder(e) => Some(e)
    case TakeQuote(e, _) => Some(e)
    case RejectOrder(e) => Some(e)
    case BeginTx(e) => Some(e)
    case TxStep(e, _) => Some(e)
    case CommitTx(e) => Some(e)
    case ReadSettle(e) => Some(e)
    case WriteSettled(e) => Some(e)
    case Rearm(e) => Some(e)
    case OtherDone(e) => Some(e)
    case HandlerFails(e) => Some(e)
    case HandlerReturns(e) => Some(e)
    case _ => None
  }

  /** "Timely": no execution acts after its lease has expired. */
  predicate Timely(s: Sys, a: Act) {
    Actor(a).Some? && Actor(a).value in s.q.execs ==> s.q.clock <= s.q.execs[Actor(a).value].lease
  }

  /** The same, asked only of the executions of one order's job. */
  predicate TimelyFor(s: Sys, a: Act, o: nat) {
    Actor(a).Some? && Actor(a).value in s.q.execs && s.q.execs[Actor(a).value].kind == ExecuteOrder(o) ==>
      s.q.clock <= s.q.execs[Actor(a).value].lease
  }
}
