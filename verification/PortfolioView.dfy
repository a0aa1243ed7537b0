/**
 The derived view.  The service walks a Go map in an unspecified order, appends a
 position per holding, adds up market values in int64 and sorts by instrument;
 the result does not depend on the order of the walk.
 */
module PortfolioView {
  import opened Prelude
  import opened Model
  import opened Book

  datatype Position = Position(instrument: string, quantity: int, price: int, marketValue: int)

  datatype View = View(cash: int, positions: seq<Position>, marketValue: int, totalValue: int)

  // ----------------------------------------------------------- order on strings

  /** Go's `<` on strings: lexicographic. */
  predicate Less(a: string, b: string) {
    if b == [] then false
    else if a == [] then true
    else a[0] < b[0] || (a[0] == b[0] && Less(a[1..], b[1..]))
  }

  lemma {:induction false} LessTransitive(a: string, b: string, c: string)
    requires Less(a, b) && Less(b, c)
    ensures Less(a, c)
  {
    if a != [] && a[0] == b[0] && b[0] == c[0] {
      LessTransitive(a[1..], b[1..], c[1..]);
    }
  }

  lemma {:induction false} LessTotal(a: string, b: string)
    ensures Less(a, b) || Less(b, a) || a == b
  {
    if a != [] && b != [] && a[0] == b[0] {
      LessTotal(a[1..], b[1..]);
      assert a == [a[0]] + a[1..] && b == [b[0]] + b[1..];
    }
  }

  /** The first k characters agree, and then the one string ends or has the smaller character. */
  predicate LessAt(a: string, b: string, k: nat) {
    k <= |a| && k < |b| && a[..k] == b[..k] && (k == |a| || a[k] < b[k])
  }

  /** Less is the lexicographic order: a proper prefix, or smaller at the first difference. */
  lemma {:induction false} LessIff(a: string, b: string)
    ensures Less(a, b) <==> exists k :: LessAt(a, b, k)
  {
    if b != [] && a == [] {
      assert LessAt(a, b, 0);
    } else if b != [] && a[0] < b[0] {
      assert LessAt(a, b, 0);
    } else if b != [] {
      LessIff(a[1..], b[1..]);
      if k: nat :| a[0] == b[0] && LessAt(a[1..], b[1..], k) {
        assert a == [a[0]] + a[1..] && b == [b[0]] + b[1..];
        assert a[..k + 1] == [a[0]] + a[1..][..k] && b[..k + 1] == [b[0]] + b[1..][..k];
        assert LessAt(a, b, k + 1);
      }
      if k: nat :| LessAt(a, b, k) {
        assert k > 0 && a[..k][0] == b[..k][0];
        assert a[1..][..k - 1] == a[..k][1..] && b[1..][..k - 1] == b[..k][1..];
        assert LessAt(a[1..], b[1..], k - 1);
      }
    }
  }

  lemma {:induction false} LessIrreflexive(a: string)
    ensures !Less(a, a)
  {
    if a != [] {
      LessIrreflexive(a[1..]);
    }
  }

  // ------------------------------------------------------------------- sorting

  /** Strictly increasing by instrument. */
  ghost predicate Sorted(ps: seq<Position>) {
    forall i, j :: 0 <= i < j < |ps| ==> Less(ps[i].instrument, ps[j].instrument)
  }

  function Elements(ps: seq<Position>): set<Position> {
    set p | p in ps
  }

  ghost predicate DistinctNames(ps: seq<Position>) {
    forall i, j :: 0 <= i < j < |ps| ==> ps[i].instrument != ps[j].instrument
  }

  /** Puts a position into its place in a sorted list. */
  method Insert(sorted: seq<Position>, p: Position) returns (r: seq<Position>)
    requires Sorted(sorted) && forall k :: 0 <= k < |sorted| ==> sorted[k].instrument != p.instrument
    ensures Sorted(r) && Elements(r) == Elements(sorted) + {p} && |r| == |sorted| + 1
  {
    var i := 0;
    while i < |sorted| && Less(sorted[i].instrument, p.instrument)
      invariant 0 <= i <= |sorted|
      invariant forall k :: 0 <= k < i ==> Less(sorted[k].instrument, p.instrument)
    {
      i := i + 1;
    }
    forall k | i <= k < |sorted|
      ensures Less(p.instrument, sorted[k].instrument)
    {
      LessTotal(sorted[i].instrument, p.instrument);
      if k > i {
        LessTransitive(p.instrument, sorted[i].instrument, sorted[k].instrument);
      }
    }
    r := sorted[..i] + [p] + sorted[i..];
    assert sorted == sorted[..i] + sorted[i..];
  }

  method SortPositions(ps: seq<Position>) returns (r: seq<Position>)
    requires DistinctNames(ps)
    ensures Sorted(r) && Elements(r) == Elements(ps) && |r| == |ps|
  {
    r := [];
    for i := 0 to |ps|
      invariant Sorted(r) && |r| == i && Elements(r) == Elements(ps[..i])
    {
      assert ps[..i + 1] == ps[..i] + [ps[i]];
      forall k | 0 <= k < |r|
        ensures r[k].instrument != ps[i].instrument
      {
        assert r[k] in Elements(ps[..i]);
      }
      r := Insert(r, ps[i]);
    }
    assert ps[..|ps|] == ps;
  }

  lemma SomeElement(b: seq<Position>)
    ensures Elements(b) == {} ==> b == []
  {
    if b != [] {
      assert b[0] in Elements(b);
    }
  }

  /** Two strictly sorted lists with the same elements are the same list. */
  lemma {:induction false} SortedUnique(a: seq<Position>, b: seq<Position>)
    requires Sorted(a) && Sorted(b) && Elements(a) == Elements(b)
    ensures a == b
  {
    if a == [] {
      SomeElement(b);
    } else {
      assert a[0] in Elements(a) && a[0] in Elements(b);
      SameHead(a, b);
      TailElements(a);
      TailElements(b);
      SortedUnique(a[1..], b[1..]);
      assert a == [a[0]] + a[1..] && b == [b[0]] + b[1..];
    }
  }

  lemma SameHead(a: seq<Position>, b: seq<Position>)
    requires Sorted(a) && Sorted(b) && Elements(a) == Elements(b) && a != [] && b != []
    ensures a[0] == b[0]
  {
    assert a[0] in Elements(b) && b[0] in Elements(a);
    var i :| 0 <= i < |b| && b[i] == a[0];
    var j :| 0 <= j < |a| && a[j] == b[0];
    if i > 0 && j > 0 {
      LessTransitive(a[0].instrument, b[0].instrument, a[0].instrument);
      LessIrreflexive(a[0].instrument);
    }
  }

  lemma TailElements(a: seq<Position>)
    requires Sorted(a) && a != []
    ensures Elements(a[1..]) == Elements(a) - {a[0]} && Sorted(a[1..])
  {
    forall p | p in a[1..]
      ensures p != a[0]
    {
      var k :| 0 <= k < |a[1..]| && a[1..][k] == p;
      assert Less(a[0].instrument, a[k + 1].instrument);
      LessIrreflexive(a[0].instrument);
    }
    assert a == [a[0]] + a[1..];
  }

  // ------------------------------------------------------------------- the view

  /** A failed quote counts as price 0. */
  function Price(quotes: map<string, int>, instrument: string): int {
    Lookup(quotes, instrument)
  }

  function PositionOf(h: map<string, int>, quotes: map<string, int>, i: string): Position {
    Position(i, Lookup(h, i), Price(quotes, i), Wrap64(Lookup(h, i) * Price(quotes, i)))
  }

  /** Instruments that get a position: held in a nonzero quantity, cash excepted. */
  function Held(h: map<string, int>): set<string> {
    set i | i in h && i != CASH && h[i] != 0
  }

  /** The exact market value of a set of holdings. */
  ghost function Worth(s: set<string>, h: map<string, int>, quotes: map<string, int>): int {
    if s == {} then 0
    else
      var i :| i in s;
      Lookup(h, i) * Price(quotes, i) + Worth(s - {i}, h, quotes)
  }

  lemma {:induction false} WorthRemove(s: set<string>, i: string, h: map<string, int>, quotes: map<string, int>)
    requires i in s
    ensures Worth(s, h, quotes) == Lookup(h, i) * Price(quotes, i) + Worth(s - {i}, h, quotes)
    decreases s
  {
    var k :| k in s && Worth(s, h, quotes) == Lookup(h, k) * Price(quotes, k) + Worth(s - {k}, h, quotes);
    if k != i {
      WorthRemove(s - {k}, i, h, quotes);
      WorthRemove(s - {i}, k, h, quotes);
      assert s - {k} - {i} == s - {i} - {k};
    }
  }

  /** An order in which Go's range may walk the map: every key once. */
  ghost predicate Walk(walk: seq<string>, keys: set<string>) {
    && (forall k :: 0 <= k < |walk| ==> walk[k] in keys)
    && (forall i :: i in keys ==> i in walk)
    && (forall j, k :: 0 <= j < k < |walk| ==> walk[j] != walk[k])
  }

  /** The position of a held instrument: its quantity, its quote or 0, and their int64 product. */
  predicate IsPosition(p: Position, h: map<string, int>, quotes: map<string, int>) {
    && p.instrument in h && p.instrument != "CASH" && p.quantity == h[p.instrument] && p.quantity != 0
    && p.price == (if p.instrument in quotes then quotes[p.instrument] else 0)
    && p.marketValue == Wrap64(p.quantity * p.price)
  }

  /** What the view must be, whatever the order of the walk. */
  ghost predicate IsViewOf(v: View, h: map<string, int>, quotes: map<string, int>) {
    && v.cash == (if "CASH" in h then h["CASH"] else 0)
    && Sorted(v.positions)
    && (forall p :: p in Elements(v.positions) <==> IsPosition(p, h, quotes))
    && v.marketValue == Wrap64(Worth(Held(h), h, quotes))
    && v.totalValue == Wrap64(v.cash + v.marketValue)
  }

  lemma IsPositionOf(p: Position, h: map<string, int>, quotes: map<string, int>)
    ensures IsPosition(p, h, quotes) <==> p.instrument in Held(h) && p == PositionOf(h, quotes, p.instrument)
  {
  }

  /** The loop's state after a prefix of the walk. */
  ghost predicate Gathered(ps: seq<Position>, total: int, seen: set<string>, h: map<string, int>,
                           quotes: map<string, int>) {
    && DistinctNames(ps)
    && (forall p :: p in Elements(ps) <==> p.instrument in seen && p == PositionOf(h, quotes, p.instrument))
    && total == Wrap64(Worth(seen, h, quotes))
  }

  lemma GatherOne(ps: seq<Position>, total: int, seen: set<string>, i: string, h: map<string, int>,
                  quotes: map<string, int>)
    requires Gathered(ps, total, seen, h, quotes) && i !in seen
    ensures var p := PositionOf(h, quotes, i);
      Gathered(ps + [p], Wrap64(total + p.marketValue), seen + {i}, h, quotes)
  {
    var p := PositionOf(h, quotes, i);
    forall k | 0 <= k < |ps|
      ensures ps[k].instrument != i
    {
      assert ps[k] in Elements(ps);
    }
    assert Elements(ps + [p]) == Elements(ps) + {p};
    WorthRemove(seen + {i}, i, h, quotes);
    assert seen + {i} - {i} == seen;
    var x, y := Worth(seen, h, quotes), Lookup(h, i) * Price(quotes, i);
    WrapSummand(x, p.marketValue);
    WrapSummand(y, x);
  }

  /** Instruments of the first k keys of the walk that get a position. */
  function Seen(walk: seq<string>, k: nat, h: map<string, int>): set<string>
    requires k <= |walk|
  {
    set i | i in walk[..k] && i in Held(h)
  }

  lemma SeenGrows(walk: seq<string>, k: nat, h: map<string, int>)
    requires Walk(walk, h.Keys) && k < |walk|
    ensures walk[k] !in Seen(walk, k, h)
    ensures Seen(walk, k + 1, h) == if walk[k] in Held(h) then Seen(walk, k, h) + {walk[k]} else Seen(walk, k, h)
  {
    assert walk[..k + 1] == walk[..k] + [walk[k]];
  }

  lemma SeenAll(walk: seq<string>, h: map<string, int>)
    requires Walk(walk, h.Keys)
    ensures Seen(walk, |walk|, h) == Held(h)
  {
    assert walk[..|walk|] == walk;
  }

  /** The loop of Portfolio. */
  method Gather(h: map<string, int>, walk: seq<string>, quotes: map<string, int>)
    returns (positions: seq<Position>, marketValue: int)
    requires Walk(walk, h.Keys)
    ensures Gathered(positions, marketValue, Held(h), h, quotes)
  {
    positions, marketValue := [], 0;
    for k := 0 to |walk|
      invariant Gathered(positions, marketValue, Seen(walk, k, h), h, quotes)
    {
      var i := walk[k];
      SeenGrows(walk, k, h);
      if i != CASH && h[i] != 0 {
        GatherOne(positions, marketValue, Seen(walk, k, h), i, h, quotes);
        var mv := Wrap64(h[i] * Price(quotes, i));
        positions := positions + [Position(i, h[i], Price(quotes, i), mv)];
        marketValue := Wrap64(marketValue + mv);
      }
    }
    SeenAll(walk, h);
  }

  /** The derivation of Portfolio, from the holdings, a walk of the map and the quotes. */
  method BuildView(h: map<string, int>, walk: seq<string>, quotes: map<string, int>) returns (v: View)
    requires Walk(walk, h.Keys)
    ensures IsViewOf(v, h, quotes)
  {
    var positions, marketValue := Gather(h, walk, quotes);
    var sorted := SortPositions(positions);
    forall p
      ensures IsPosition(p, h, quotes) <==> p.instrument in Held(h) && p == PositionOf(h, quotes, p.instrument)
    {
      IsPositionOf(p, h, quotes);
    }
    var cash := Lookup(h, CASH);
    v := View(cash, sorted, marketValue, Wrap64(cash + marketValue));
  }

  /** There is one view only: every order of the walk yields the same positions, values and total. */
  lemma ViewIsUnique(v: View, w: View, h: map<string, int>, quotes: map<string, int>)
    requires IsViewOf(v, h, quotes) && IsViewOf(w, h, quotes)
    ensures v == w
  {
    assert Elements(v.positions) == Elements(w.positions) by {
      forall p
        ensures p in Elements(v.positions) <==> p in Elements(w.positions)
      {
      }
    }
    SortedUnique(v.positions, w.positions);
  }

  /** The sum of quantity * price over a list of positions. */
  function Total(ps: seq<Position>): int {
    if ps == [] then 0 else ps[0].quantity * ps[0].price + Total(ps[1..])
  }

  /** The positions of exactly these instruments, each once. */
  ghost predicate PositionsOf(ps: seq<Position>, s: set<string>, h: map<string, int>, quotes: map<string, int>) {
    && Sorted(ps)
    && (forall k :: 0 <= k < |ps| ==> IsPosition(ps[k], h, quotes) && ps[k].instrument in s)
    && (forall i :: i in s ==> exists k :: 0 <= k < |ps| && ps[k].instrument == i)
  }

  lemma RestOf(ps: seq<Position>, s: set<string>, h: map<string, int>, quotes: map<string, int>)
    requires ps != [] && PositionsOf(ps, s, h, quotes)
    ensures PositionsOf(ps[1..], s - {ps[0].instrument}, h, quotes)
  {
    var rest := ps[1..];
    forall k | 0 <= k < |rest|
      ensures IsPosition(rest[k], h, quotes) && rest[k].instrument in s - {ps[0].instrument}
    {
      assert rest[k] == ps[k + 1] && Less(ps[0].instrument, ps[k + 1].instrument);
      LessIrreflexive(ps[0].instrument);
    }
    forall i | i in s - {ps[0].instrument}
      ensures exists k :: 0 <= k < |rest| && rest[k].instrument == i
    {
      var k :| 0 <= k < |ps| && ps[k].instrument == i;
      assert rest[k - 1].instrument == i;
    }
  }

  lemma {:induction false} WorthIsTotal(ps: seq<Position>, s: set<string>, h: map<string, int>,
                                        quotes: map<string, int>)
    requires PositionsOf(ps, s, h, quotes)
    ensures Worth(s, h, quotes) == Total(ps)
    decreases |ps|
  {
    if ps == [] {
      assert s == {};
    } else {
      assert IsPosition(ps[0], h, quotes);
      RestOf(ps, s, h, quotes);
      WorthIsTotal(ps[1..], s - {ps[0].instrument}, h, quotes);
      WorthRemove(s, ps[0].instrument, h, quotes);
    }
  }

  lemma ViewPositions(v: View, h: map<string, int>, quotes: map<string, int>)
    requires IsViewOf(v, h, quotes)
    ensures PositionsOf(v.positions, Held(h), h, quotes)
  {
    var ps := v.positions;
    forall k | 0 <= k < |ps|
      ensures IsPosition(ps[k], h, quotes) && ps[k].instrument in Held(h)
    {
      assert ps[k] in Elements(ps);
    }
    forall i | i in Held(h)
      ensures exists k :: 0 <= k < |ps| && ps[k].instrument == i
    {
      IsPositionOf(PositionOf(h, quotes, i), h, quotes);
      assert PositionOf(h, quotes, i) in Elements(ps);
    }
  }

  /**
   The total is the cash plus the sum of quantity * price over the positions of the view
   exactly when that sum fits an int64; otherwise it is that sum wrapped.
   */
  lemma {:induction false} TotalIsExactIff(v: View, h: map<string, int>, quotes: map<string, int>)
    requires IsViewOf(v, h, quotes)
    ensures var exact := v.cash + Total(v.positions);
      v.totalValue == Wrap64(exact) && (v.totalValue == exact <==> IsInt64(exact))
    ensures v.marketValue == Wrap64(Total(v.positions))
  {
    ViewPositions(v, h, quotes);
    WorthIsTotal(v.positions, Held(h), h, quotes);
    WrapSummand(Total(v.positions), v.cash);
  }
}
