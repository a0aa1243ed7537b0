/**
 Submitting an order under an idempotency key.  PlaceOrder looks the key up in one
 statement and inserts in a later transaction, so submits overlap.  The machine wraps
 the whole system: its other steps are those of the system, in any order.
 */
module Submits {
  import opened Prelude
  import opened Model
  import opened JobTables
  import Q = QueueMachine
  import L = LedgerMachine
  import opened System
  import opened SystemSafety

  /** A call of PlaceOrder: its lookup missed, or it returned the found order, stored its own, or was refused. */
  datatype Call = Missed(order: Order) | Found(o: nat) | Stored(o: nat) | Refused

  datatype Api = Api(s: Sys, calls: map<nat, Call>)

  datatype Step =
    | Other(a: Act)
    | Lookup(c: nat, order: Order)
    | Insert(c: nat)

  /** What PlaceOrder has built from a request that passed validation. */
  predicate Submittable(o: Order) {
    ValidTerms(o) && o.status == Pending && o.fillPrice == None
  }

  predicate StepEnabled(z: Api, st: Step) {
    match st
    case Other(a) => !a.PlaceOrder? && Enabled(z.s, a)
    case Lookup(c, order) =>
      && c !in z.calls && Submittable(order)
      && (KeyFree(z.s.orders, order.key) ==> order.portfolio < |z.s.l.accounts|)   // the portfolio exists
    case Insert(c) => c in z.calls && z.calls[c].Missed?
  }

  /** The order that carries the key. */
  function Holder(orders: seq<Order>, key: string): (o: nat)
    requires !KeyFree(orders, key)
    ensures o < |orders| && orders[o].key == key
  {
    var n := |orders| - 1;
    if orders[n].key == key then n
    else
      assert exists i :: 0 <= i < n && orders[..n][i].key == key by {
        var i :| 0 <= i < |orders| && orders[i].key == key;
        assert orders[..n][i].key == key;
      }
      Holder(orders[..n], key)
  }

  function StepDo(z: Api, st: Step): Api
    requires StepEnabled(z, st)
  {
    match st
    case Other(a) => z.(s := Do(z.s, a))
    case Lookup(c, order) =>
      z.(calls := z.calls[c := if KeyFree(z.s.orders, order.key) then Missed(order)
                               else Found(Holder(z.s.orders, order.key))])
    case Insert(c) =>
      var place := PlaceOrder(z.calls[c].order);
      if Enabled(z.s, place) then Api(Do(z.s, place), z.calls[c := Stored(|z.s.orders|)])
      else z.(calls := z.calls[c := Refused])   // the unique index: an error, nothing written
  }

  ghost predicate ApiRun(zs: seq<Api>, steps: seq<Step>) {
    && |zs| == |steps| + 1 && SysInit(zs[0].s) && zs[0].calls == map[]
    && forall i :: 0 <= i < |steps| ==> StepEnabled(zs[i], steps[i]) && zs[i + 1] == StepDo(zs[i], steps[i])
  }

  // ------------------------------------------------- runs of the system underneath

  /** The system step that a step of the wrapper takes, if it takes one. */
  function PartOf(z: Api, st: Step): seq<Act>
    requires StepEnabled(z, st)
  {
    match st
    case Other(a) => [a]
    case Lookup(_, _) => []
    case Insert(c) => if Enabled(z.s, PlaceOrder(z.calls[c].order)) then [PlaceOrder(z.calls[c].order)] else []
  }

  lemma SystemMove(z: Api, st: Step)
    requires StepEnabled(z, st)
    ensures PartOf(z, st) == [] ==> StepDo(z, st).s == z.s
    ensures PartOf(z, st) != [] ==> |PartOf(z, st)| == 1 && Next(z.s, PartOf(z, st)[0], StepDo(z, st).s)
  {
  }

  lemma ExtendRun(ss: seq<Sys>, acts: seq<Act>, a: Act, s': Sys) returns (ss': seq<Sys>, acts': seq<Act>)
    requires Run(ss, acts) && Next(ss[|ss| - 1], a, s')
    ensures Run(ss', acts') && ss'[|ss'| - 1] == s'
  {
    ss', acts' := ss + [s'], acts + [a];
    forall i | 0 <= i < |acts'|
      ensures StepAt(ss', acts', i)
    {
      if i < |acts| {
        assert StepAt(ss, acts, i);
      }
    }
  }

  /** Every run with overlapping submits is a run of the system, so what those keep, it keeps. */
  lemma {:induction false} ToSystem(zs: seq<Api>, steps: seq<Step>, n: nat) returns (ss: seq<Sys>, acts: seq<Act>)
    requires ApiRun(zs, steps) && n < |zs|
    ensures Run(ss, acts) && ss[|ss| - 1] == zs[n].s
  {
    if n == 0 {
      ss, acts := [zs[0].s], [];
    } else {
      ss, acts := ToSystem(zs, steps, n - 1);
      SystemMove(zs[n - 1], steps[n - 1]);
      if PartOf(zs[n - 1], steps[n - 1]) != [] {
        ss, acts := ExtendRun(ss, acts, PartOf(zs[n - 1], steps[n - 1])[0], zs[n].s);
      }
    }
  }

  // --------------------------------------------------------- when a key is stored

  /** Step k stores an order with this key. */
  ghost predicate StoresAt(zs: seq<Api>, steps: seq<Step>, key: string, k: nat) {
    && k < |steps| && k + 1 < |zs| && steps[k].Insert? && steps[k].c in zs[k].calls && steps[k].c in zs[k + 1].calls
    && zs[k].calls[steps[k].c].Missed? && zs[k].calls[steps[k].c].order.key == key
    && zs[k + 1].calls[steps[k].c].Stored?
  }

  predicate Stores(z: Api, st: Step, key: string)
    requires StepEnabled(z, st)
  {
    st.Insert? && z.calls[st.c].order.key == key && Enabled(z.s, PlaceOrder(z.calls[st.c].order))
  }

  lemma OtherKeepsKeys(s: Sys, a: Act, key: string)
    requires Enabled(s, a) && !a.PlaceOrder?
    ensures KeyFree(Do(s, a).orders, key) <==> KeyFree(s.orders, key)
  {
    var s' := Do(s, a);
    OrdersStep(s, a, s');
    assert forall o :: 0 <= o < |s.orders| ==> s'.orders[o].key == s.orders[o].key;
  }

  lemma InsertAddsKey(s: Sys, order: Order, key: string)
    requires Enabled(s, PlaceOrder(order)) && key != ""
    ensures Do(s, PlaceOrder(order)).orders == s.orders + [order]
    ensures !KeyFree(Do(s, PlaceOrder(order)).orders, key) <==> !KeyFree(s.orders, key) || order.key == key
  {
    var orders := s.orders + [order];
    assert orders[|s.orders|] == order;
    assert forall o :: 0 <= o < |s.orders| ==> orders[o] == s.orders[o];
  }

  lemma KeyStep(z: Api, st: Step, key: string)
    requires StepEnabled(z, st) && key != ""
    ensures !KeyFree(StepDo(z, st).s.orders, key) <==> !KeyFree(z.s.orders, key) || Stores(z, st, key)
  {
    match st
    case Other(a) => OtherKeepsKeys(z.s, a, key);
    case Lookup(_, _) =>
    case Insert(c) =>
      if Enabled(z.s, PlaceOrder(z.calls[c].order)) {
        InsertAddsKey(z.s, z.calls[c].order, key);
      }
  }

  /** A key is taken exactly when some earlier step stored an order with it. */
  lemma {:induction false} TakenIff(zs: seq<Api>, steps: seq<Step>, key: string, n: nat)
    requires ApiRun(zs, steps) && n < |zs| && key != ""
    ensures !KeyFree(zs[n].s.orders, key) <==> exists k :: 0 <= k < n && StoresAt(zs, steps, key, k)
  {
    if n > 0 {
      var k := n - 1;
      TakenIff(zs, steps, key, k);
      KeyStep(zs[k], steps[k], key);
      StoresIff(zs, steps, key, k);
    }
  }

  lemma StoresIff(zs: seq<Api>, steps: seq<Step>, key: string, k: nat)
    requires ApiRun(zs, steps) && k < |steps|
    ensures StepEnabled(zs[k], steps[k])
    ensures StoresAt(zs, steps, key, k) <==> Stores(zs[k], steps[k], key)
  {
  }

  // -------------------------------------------------------------- what a call returns

  /**
   A submit returns a stored order, and creates none, if and only if an order with its
   key was stored before its lookup.
   */
  lemma {:induction false} FoundIff(zs: seq<Api>, steps: seq<Step>, i: nat)
    requires ApiRun(zs, steps) && i < |steps| && steps[i].Lookup?
    ensures steps[i].c in zs[i + 1].calls && zs[i + 1].s == zs[i].s
    ensures var key := steps[i].order.key;
      zs[i + 1].calls[steps[i].c].Found? <==> key != "" && exists k :: 0 <= k < i && StoresAt(zs, steps, key, k)
    ensures zs[i + 1].calls[steps[i].c].Found? ==>
      var o := zs[i + 1].calls[steps[i].c].o;
      o < |zs[i].s.orders| && zs[i].s.orders[o].key == steps[i].order.key
  {
    var key := steps[i].order.key;
    if key != "" {
      TakenIff(zs, steps, key, i);
    }
  }

  /** A call whose lookup missed still stands where the lookup left it. */
  lemma {:induction false} LookedUp(zs: seq<Api>, steps: seq<Step>, c: nat, j: nat) returns (i: nat)
    requires ApiRun(zs, steps) && j < |zs| && c in zs[j].calls && zs[j].calls[c].Missed?
    ensures i < j && steps[i] == Lookup(c, zs[j].calls[c].order)
    ensures KeyFree(zs[i].s.orders, zs[j].calls[c].order.key)
    ensures Submittable(zs[j].calls[c].order) && zs[j].calls[c].order.portfolio < |zs[j].s.l.accounts|
  {
    MissedComesFrom(zs[j - 1], steps[j - 1], c);
    if c in zs[j - 1].calls {
      i := LookedUp(zs, steps, c, j - 1);
    } else {
      i := j - 1;
    }
  }

  lemma MissedComesFrom(z: Api, st: Step, c: nat)
    requires StepEnabled(z, st) && c in StepDo(z, st).calls && StepDo(z, st).calls[c].Missed?
    ensures |StepDo(z, st).s.l.accounts| >= |z.s.l.accounts|
    ensures if c in z.calls then StepDo(z, st).calls[c] == z.calls[c]
      else var order := StepDo(z, st).calls[c].order;
           st == Lookup(c, order) && KeyFree(z.s.orders, order.key) && Submittable(order)
           && order.portfolio < |z.s.l.accounts|
  {
    SystemMove(z, st);
    if PartOf(z, st) != [] {
      AccountsGrow(z.s, PartOf(z, st)[0], StepDo(z, st).s);
    }
  }

  lemma InsertIff(s: Sys, order: Order)
    requires Submittable(order) && order.portfolio < |s.l.accounts|
    ensures Enabled(s, PlaceOrder(order)) <==> KeyFree(s.orders, order.key)
  {
  }

  /**
   A submit whose lookup missed is refused, and changes nothing, if and only if an order
   with its key was stored between its lookup and its insert; otherwise it stores its
   order with the execution job.
   */
  lemma {:induction false} RefusedIff(zs: seq<Api>, steps: seq<Step>, j: nat) returns (i: nat)
    requires ApiRun(zs, steps) && j < |steps| && steps[j].Insert?
    ensures var c := steps[j].c;
      && c in zs[j].calls && zs[j].calls[c].Missed? && c in zs[j + 1].calls
      && i < j && steps[i] == Lookup(c, zs[j].calls[c].order)
    ensures var key, after := zs[j].calls[steps[j].c].order.key, zs[j + 1].calls[steps[j].c];
      && (after == Refused <==> key != "" && exists k :: i < k < j && StoresAt(zs, steps, key, k))
      && (after == Refused ==> zs[j + 1].s == zs[j].s)
      && (after != Refused ==>
            after == Stored(|zs[j].s.orders|) && zs[j + 1].s == Do(zs[j].s, PlaceOrder(zs[j].calls[steps[j].c].order)))
  {
    var c := steps[j].c;
    var order := zs[j].calls[c].order;
    i := LookedUp(zs, steps, c, j);
    InsertIff(zs[j].s, order);
    if order.key != "" {
      StoredBetween(zs, steps, order.key, i, j);
    }
  }

  /** A key that is free at a lookup and taken later was stored in between. */
  lemma StoredBetween(zs: seq<Api>, steps: seq<Step>, key: string, i: nat, j: nat)
    requires ApiRun(zs, steps) && i < j < |zs| && key != "" && steps[i].Lookup? && KeyFree(zs[i].s.orders, key)
    ensures !KeyFree(zs[j].s.orders, key) <==> exists k :: i < k < j && StoresAt(zs, steps, key, k)
  {
    TakenIff(zs, steps, key, i);
    TakenIff(zs, steps, key, j);
    if k :| 0 <= k < j && StoresAt(zs, steps, key, k) {
      assert k > i;
    }
  }

  // ------------------------------------------------------ the order that is returned

  lemma KeyKept(z: Api, st: Step, o: nat)
    requires StepEnabled(z, st) && o < |z.s.orders|
    ensures o < |StepDo(z, st).s.orders| && StepDo(z, st).s.orders[o].key == z.s.orders[o].key
  {
    SystemMove(z, st);
    if PartOf(z, st) != [] {
      OrdersStep(z.s, PartOf(z, st)[0], StepDo(z, st).s);
      assert SameTerms(StepDo(z, st).s.orders[o], z.s.orders[o]);
    }
  }

  /** The order that step k stored keeps its place and its key. */
  lemma {:induction false} StoredStays(zs: seq<Api>, steps: seq<Step>, key: string, k: nat, n: nat)
    requires ApiRun(zs, steps) && StoresAt(zs, steps, key, k) && k < n < |zs|
    ensures var o := zs[k + 1].calls[steps[k].c].o;
      o < |zs[n].s.orders| && zs[n].s.orders[o].key == key
  {
    if n == k + 1 {
      InsertAddsOne(zs[k], steps[k]);
    } else {
      StoredStays(zs, steps, key, k, n - 1);
      KeyKept(zs[n - 1], steps[n - 1], zs[k + 1].calls[steps[k].c].o);
    }
  }

  lemma InsertAddsOne(z: Api, st: Step)
    requires StepEnabled(z, st) && st.Insert? && StepDo(z, st).calls[st.c].Stored?
    ensures var o := StepDo(z, st).calls[st.c].o;
      o == |z.s.orders| && StepDo(z, st).s.orders == z.s.orders + [z.calls[st.c].order]
  {
  }

  /** The order that a later submit returns is the one that the first submit with its key stored. */
  lemma {:induction false} FoundIsOriginal(zs: seq<Api>, steps: seq<Step>, k: nat, i: nat)
    requires ApiRun(zs, steps) && k < i < |steps| && steps[i].Lookup?
    requires steps[i].order.key != "" && StoresAt(zs, steps, steps[i].order.key, k)
    ensures steps[i].c in zs[i + 1].calls
    ensures zs[i + 1].calls[steps[i].c] == Found(zs[k + 1].calls[steps[k].c].o)
  {
    FoundIff(zs, steps, i);
    StoredStays(zs, steps, steps[i].order.key, k, i);
    assert KeysDiffer(zs[i].s.orders) by {
      var ss, acts := ToSystem(zs, steps, i);
      KeysAreUnique(ss, acts, |ss| - 1);
    }
  }

  // ------------------------------------------------------------- overlapping submits

  lemma Extend(zs: seq<Api>, steps: seq<Step>, st: Step) returns (zs': seq<Api>, steps': seq<Step>)
    requires ApiRun(zs, steps) && StepEnabled(zs[|zs| - 1], st)
    ensures ApiRun(zs', steps') && zs' == zs + [StepDo(zs[|zs| - 1], st)] && steps' == steps + [st]
  {
    var z' := StepDo(zs[|zs| - 1], st);
    zs', steps' := zs + [z'], steps + [st];
    forall i | 0 <= i < |steps'|
      ensures StepEnabled(zs'[i], steps'[i]) && zs'[i + 1] == StepDo(zs'[i], steps'[i])
    {
      if i < |steps| {
        assert zs'[i] == zs[i] && zs'[i + 1] == zs[i + 1] && steps'[i] == steps[i];
      }
    }
  }

  lemma BothMiss(zs: seq<Api>, steps: seq<Step>, order: Order, c: nat, d: nat)
    returns (zs': seq<Api>, steps': seq<Step>)
    requires ApiRun(zs, steps) && Submittable(order)
    requires var z := zs[|zs| - 1];
      c != d && c !in z.calls && d !in z.calls
      && KeyFree(z.s.orders, order.key) && order.portfolio < |z.s.l.accounts|
    ensures ApiRun(zs', steps') && zs <= zs'
    ensures var z, z' := zs[|zs| - 1], zs'[|zs'| - 1];
      z'.s == z.s && z'.calls == z.calls[c := Missed(order)][d := Missed(order)]
  {
    zs', steps' := Extend(zs, steps, Lookup(c, order));
    zs', steps' := Extend(zs', steps', Lookup(d, order));
  }

  /**
   The race: from every reachable state, two submits of one order under a free key whose
   lookups both run before either insert end with one order stored and the other submit
   refused.
   */
  lemma OverlappingSubmits(zs: seq<Api>, steps: seq<Step>, order: Order, c: nat, d: nat)
    returns (zs': seq<Api>, steps': seq<Step>)
    requires ApiRun(zs, steps) && Submittable(order) && order.key != ""
    requires var z := zs[|zs| - 1];
      c != d && c !in z.calls && d !in z.calls
      && KeyFree(z.s.orders, order.key) && order.portfolio < |z.s.l.accounts|
    ensures ApiRun(zs', steps') && zs <= zs'
    ensures var z, z' := zs[|zs| - 1], zs'[|zs'| - 1];
      && z'.s.orders == z.s.orders + [order]
      && c in z'.calls && z'.calls[c] == Stored(|z.s.orders|) && d in z'.calls && z'.calls[d] == Refused
  {
    var z := zs[|zs| - 1];
    zs', steps' := BothMiss(zs, steps, order, c, d);
    InsertIff(z.s, order);
    InsertAddsKey(z.s, order, order.key);
    zs', steps' := Extend(zs', steps', Insert(c));
    InsertIff(zs'[|zs'| - 1].s, order);
    zs', steps' := Extend(zs', steps', Insert(d));
  }
}
