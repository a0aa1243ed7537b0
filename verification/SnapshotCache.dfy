/**
 Cached portfolio views against the ledger they summarise.  Readers fill the
 cache some time after they queried the holdings; transactions invalidate it
 before they commit; neither is ordered with the other.
 */
module SnapshotCache {
  import opened Prelude
  import opened Model
  import opened Book
  import L = LedgerMachine

  const TTL := 5_000

  /** A committed state of one portfolio's stream and the time it was committed. */
  datatype Version = Version(entries: seq<Entry>, since: int)

  /** A reader between its Holdings query and its SetSnapshot. */
  datatype Reader = Reader(version: nat, at: int, holdings: map<string, int>)

  /** The cached view: what it shows, and (as history) the version and the time it was read at. */
  datatype Snapshot = Snapshot(holdings: map<string, int>, expires: int, version: nat, at: int)

  /** The ledger, with the committed states of portfolio p so far as history, and the cache of p. */
  datatype State = State(clock: int, l: L.Ledger, versions: seq<Version>, cached: Option<Snapshot>,
                         readers: map<nat, Reader>)

  datatype Act =
    | Tick(dt: nat)
    | Statement(la: L.LAct)
    | Invalidate
    | Query(r: nat)
    | SetSnapshot(r: nat)      // a computed view is stored, and returned to its caller

  /** The committed stream of portfolio p. */
  function Stream(l: L.Ledger, p: nat): seq<Entry> {
    if p < |l.accounts| then l.accounts[p].entries else []
  }

  predicate Init(s: State) {
    L.LInit(s.l) && s.versions == [Version([], s.clock)] && s.cached == None && s.readers == map[]
  }

  /** Bounded readers take at most d between Holdings and SetSnapshot. */
  predicate Enabled(s: State, a: Act, d: int) {
    match a
    case Statement(la) => L.LEnabled(s.l, la)
    case SetSnapshot(r) => r in s.readers && s.clock - s.readers[r].at <= d
    case _ => |s.versions| > 0
  }

  function Do(s: State, a: Act, p: nat, d: int): State
    requires Enabled(s, a, d)
  {
    match a
    case Tick(dt) => s.(clock := s.clock + dt)
    case Statement(la) =>
      var l' := L.LDo(s.l, la);
      s.(l := l',
         versions := if Stream(l', p) == Stream(s.l, p) then s.versions
                     else s.versions + [Version(Stream(l', p), s.clock)])
    case Invalidate => s.(cached := None)
    case Query(r) => s.(readers := s.readers[r := Reader(|s.versions| - 1, s.clock, Holdings(Stream(s.l, p)))])
    case SetSnapshot(r) =>
      var x := s.readers[r];
      s.(cached := Some(Snapshot(x.holdings, s.clock + TTL, x.version, x.at)), readers := s.readers - {r})
  }

  ghost predicate Run(ss: seq<State>, acts: seq<Act>, p: nat, d: int) {
    && |ss| == |acts| + 1
    && Init(ss[0])
    && forall i :: 0 <= i < |acts| ==> Enabled(ss[i], acts[i], d) && ss[i + 1] == Do(ss[i], acts[i], p, d)
  }

  /** What the cache serves now: nothing, or a view that has not expired. */
  function Served(s: State): Option<map<string, int>> {
    if s.cached.Some? && s.clock < s.cached.value.expires then Some(s.cached.value.holdings) else None
  }

  /** A view read at time `at` from version `n` was current then. */
  ghost predicate CurrentAt(s: State, holdings: map<string, int>, n: nat, at: int) {
    && n < |s.versions| && holdings == Holdings(s.versions[n].entries) && at <= s.clock
    && (forall k :: n < k < |s.versions| ==> s.versions[k].since >= at)
  }

  ghost predicate CacheOk(s: State, p: nat, d: int) {
    && |s.versions| > 0 && s.versions[|s.versions| - 1].entries == Stream(s.l, p)
    && (forall k :: 0 <= k < |s.versions| ==> s.versions[k].since <= s.clock)
    && (forall r :: r in s.readers ==> CurrentAt(s, s.readers[r].holdings, s.readers[r].version, s.readers[r].at))
    && (s.cached.Some? ==>
          var c := s.cached.value;
          CurrentAt(s, c.holdings, c.version, c.at) && c.expires <= c.at + d + TTL)
  }

  lemma CacheStep(s: State, a: Act, p: nat, d: int)
    requires CacheOk(s, p, d) && Enabled(s, a, d)
    ensures CacheOk(Do(s, a, p, d), p, d)
  {
    if a.Statement? {
      StatementKeeps(s, a, p, d);
    }
  }

  lemma StatementKeeps(s: State, a: Act, p: nat, d: int)
    requires CacheOk(s, p, d) && Enabled(s, a, d) && a.Statement?
    ensures CacheOk(Do(s, a, p, d), p, d)
  {
    var s' := Do(s, a, p, d);
    assert forall k :: 0 <= k < |s.versions| ==> s'.versions[k] == s.versions[k];
    forall r | r in s'.readers
      ensures CurrentAt(s', s'.readers[r].holdings, s'.readers[r].version, s'.readers[r].at)
    {
      assert CurrentAt(s, s.readers[r].holdings, s.readers[r].version, s.readers[r].at);
    }
  }

  lemma {:induction false} CacheRun(ss: seq<State>, acts: seq<Act>, p: nat, d: int, i: nat)
    requires Run(ss, acts, p, d) && i < |ss|
    ensures CacheOk(ss[i], p, d)
  {
    if i > 0 {
      CacheRun(ss, acts, p, d, i - 1);
      CacheStep(ss[i - 1], acts[i - 1], p, d);
    }
  }

  // ------------------------------------------------------------ versions only grow

  lemma StreamGrows(l: L.Ledger, la: L.LAct, p: nat)
    requires L.LEnabled(l, la)
    ensures Stream(l, p) <= Stream(L.LDo(l, la), p)
  {
  }

  ghost predicate Growing(s: State) {
    forall j, k :: 0 <= j <= k < |s.versions| ==> s.versions[j].entries <= s.versions[k].entries
  }

  lemma GrowingStep(s: State, a: Act, p: nat, d: int)
    requires Growing(s) && CacheOk(s, p, d) && Enabled(s, a, d)
    ensures Growing(Do(s, a, p, d))
  {
    if a.Statement? {
      StreamGrows(s.l, a.la, p);
      var n := |s.versions| - 1;
      assert forall j :: 0 <= j <= n ==> s.versions[j].entries <= s.versions[n].entries;
    }
  }

  lemma {:induction false} GrowingRun(ss: seq<State>, acts: seq<Act>, p: nat, d: int, i: nat)
    requires Run(ss, acts, p, d) && i < |ss|
    ensures Growing(ss[i])
  {
    if i > 0 {
      GrowingRun(ss, acts, p, d, i - 1);
      CacheRun(ss, acts, p, d, i - 1);
      GrowingStep(ss[i - 1], acts[i - 1], p, d);
    }
  }

  /** The view is the holdings of one committed state and includes everything committed by `since`. */
  ghost predicate Includes(s: State, view: map<string, int>, n: nat, since: int) {
    && n < |s.versions| && view == Holdings(s.versions[n].entries)
    && forall k :: 0 <= k < |s.versions| && s.versions[k].since <= since ==>
         k <= n && s.versions[k].entries <= s.versions[n].entries
  }

  /**
   Cached views are untorn and boundedly stale.  Whatever the cache serves is the
   holdings of one committed state of the ledger; and if readers take at most d,
   every entry committed at least 5 s + d earlier is included in it.
   */
  lemma ServedIsRecent(ss: seq<State>, acts: seq<Act>, p: nat, d: int, i: nat) returns (n: nat)
    requires Run(ss, acts, p, d) && i < |ss| && Served(ss[i]).Some?
    ensures Includes(ss[i], Served(ss[i]).value, n, ss[i].clock - 5_000 - d)
  {
    CacheRun(ss, acts, p, d, i);
    GrowingRun(ss, acts, p, d, i);
    n := ss[i].cached.value.version;
  }

  /** A view that is computed on a miss includes every entry committed more than d before it is returned. */
  lemma ComputedIsRecent(ss: seq<State>, acts: seq<Act>, p: nat, d: int, i: nat) returns (n: nat)
    requires Run(ss, acts, p, d) && i < |acts| && acts[i].SetSnapshot?
    ensures acts[i].r in ss[i].readers && Includes(ss[i], ss[i].readers[acts[i].r].holdings, n, ss[i].clock - d - 1)
  {
    CacheRun(ss, acts, p, d, i);
    GrowingRun(ss, acts, p, d, i);
    assert Enabled(ss[i], acts[i], d);
    n := ss[i].readers[acts[i].r].version;
  }

  lemma Extend(ss: seq<State>, acts: seq<Act>, p: nat, d: int, a: Act) returns (ss': seq<State>, acts': seq<Act>)
    requires Run(ss, acts, p, d) && Enabled(ss[|ss| - 1], a, d)
    ensures Run(ss', acts', p, d) && ss' == ss + [Do(ss[|ss| - 1], a, p, d)] && acts' == acts + [a]
  {
    ss', acts' := ss + [Do(ss[|ss| - 1], a, p, d)], acts + [a];
  }

  /** A reader queries the holdings, and then the transaction invalidates the cache and commits. */
  lemma ReadThenCommit(ss: seq<State>, acts: seq<Act>, p: nat, d: int, e: nat)
    returns (ss': seq<State>, acts': seq<Act>)
    requires Run(ss, acts, p, d)
    requires var l := ss[|ss| - 1].l;
      L.LEnabled(l, L.Commit(e)) && Stream(L.LDo(l, L.Commit(e)), p) != Stream(l, p)
    ensures Run(ss', acts', p, d) && ss <= ss'
    ensures var l, s := ss[|ss| - 1].l, ss'[|ss'| - 1];
      && s.l == L.LDo(l, L.Commit(e)) && s.cached == None
      && 0 in s.readers && s.readers[0].at == s.clock && s.readers[0].holdings == Holdings(Stream(l, p))
      && |s.versions| > 0 && s.versions[|s.versions| - 1] == Version(Stream(s.l, p), s.clock)
  {
    CacheRun(ss, acts, p, d, |ss| - 1);
    ss', acts' := Extend(ss, acts, p, d, Query(0));
    ss', acts' := Extend(ss', acts', p, d, Invalidate);
    ss', acts' := Extend(ss', acts', p, d, Statement(L.Commit(e)));
  }

  /**
   The bound is tight: for every d >= 0, from every reachable state in which a trade of the
   portfolio is about to commit, the run can go on so that 5 s + d - 1 ms after the
   commit the cache still serves the holdings from before it, although the
   transaction invalidated the cache.
   */
  lemma StalenessIsReached(ss: seq<State>, acts: seq<Act>, p: nat, d: int, e: nat)
    returns (ss': seq<State>, acts': seq<Act>)
    requires d >= 0 && Run(ss, acts, p, d)
    requires var l := ss[|ss| - 1].l;
      L.LEnabled(l, L.Commit(e)) && Stream(L.LDo(l, L.Commit(e)), p) != Stream(l, p)
    ensures Run(ss', acts', p, d) && ss <= ss'
    ensures var l, s := ss[|ss| - 1].l, ss'[|ss'| - 1];
      && s.l == L.LDo(l, L.Commit(e)) && Served(s) == Some(Holdings(Stream(l, p)))
      && |s.versions| > 0 && s.versions[|s.versions| - 1] == Version(Stream(s.l, p), s.clock - 5_000 - d + 1)
  {
    ss', acts' := ReadThenCommit(ss, acts, p, d, e);
    ss', acts' := Extend(ss', acts', p, d, Tick(d));
    ss', acts' := Extend(ss', acts', p, d, SetSnapshot(0));
    ss', acts' := Extend(ss', acts', p, d, Tick(TTL - 1));
  }
}
