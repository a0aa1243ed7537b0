/** The cached read path: the Portfolio call, which goes through the snapshot store. */
module PortfolioService {
  import opened Prelude
  import opened Model
  import opened Book
  import opened PortfolioView
  import opened SnapshotStore
  import C = SnapshotCache
  import T = TradingService

  /**
   Portfolio: cache first for a current view, always recomputed for a point in time.
   A recomputed view is the view of the holdings included by asOf, and only a current
   one is stored.  `walk` is the order in which the holdings map is ranged over.
   */
  method Portfolio(cache: Cache, books: seq<Book>, id: nat, asOf: Option<int>, quotes: map<string, int>,
                   now: int, walk: seq<string>)
    returns (r: T.Result<View>)
    requires id < |books| ==> Walk(walk, Holdings(T.Included(books[id].entries, asOf)).Keys)
    modifies cache
    ensures asOf.None? && old(cache.Lookup(id, now)).Some? ==>
      r == T.Ok(old(cache.Lookup(id, now)).value) && cache.snapshots == old(cache.snapshots)
    ensures !(asOf.None? && old(cache.Lookup(id, now)).Some?) ==>
      && (r.Ok? <==> id < |books| && HoldingsFit(T.Included(books[id].entries, asOf)))
      && (r.Ok? ==> IsViewOf(r.value, Holdings(T.Included(books[id].entries, asOf)), quotes))
      && cache.snapshots == (if r.Ok? && asOf.None?
                             then old(cache.snapshots)[id := Cached(r.value, now + 5_000)] else old(cache.snapshots))
  {
    if asOf.None? {
      var hit := cache.GetSnapshot(id, now);
      if hit.Some? {
        return T.Ok(hit.value);
      }
    }
    if id >= |books| {
      return T.Err(T.NotFound);
    }
    var holdings := T.QueryHoldings(books[id].entries, asOf);
    if holdings.None? {
      return T.Err(T.Retryable);
    }
    var view := BuildView(holdings.value, walk, quotes);
    if asOf.None? {
      cache.SetSnapshot(id, view, now);
    }
    return T.Ok(view);
  }
}
