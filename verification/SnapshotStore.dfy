/** The portfolio snapshots in Redis: a keyed store whose keys expire. */
module SnapshotStore {
  import opened Prelude
  import opened PortfolioView
  import C = SnapshotCache

  datatype Cached = Cached(view: View, expires: int)

  class Cache {
    var snapshots: map<nat, Cached>

    constructor ()
      ensures snapshots == map[]
    {
      snapshots := map[];
    }

    /** What Redis returns: a key past its expiry is a miss. */
    ghost function Lookup(id: nat, now: int): Option<View>
      reads this
    {
      if id in snapshots && now < snapshots[id].expires then Some(snapshots[id].view) else None
    }

    method GetSnapshot(id: nat, now: int) returns (v: Option<View>)
      ensures v == Lookup(id, now)
    {
      v := if id in snapshots && now < snapshots[id].expires then Some(snapshots[id].view) else None;
    }

    /** A stored view is served for exactly the next five seconds, unless replaced or dropped. */
    method SetSnapshot(id: nat, v: View, now: int)
      modifies this
      ensures snapshots == old(snapshots)[id := Cached(v, now + 5_000)]
      ensures forall t :: now <= t ==> Lookup(id, t) == if t < now + 5_000 then Some(v) else None
    {
      snapshots := snapshots[id := Cached(v, now + C.TTL)];
    }

    method InvalidateSnapshot(id: nat)
      modifies this
      ensures snapshots == old(snapshots) - {id}
      ensures forall t :: Lookup(id, t) == None
    {
      snapshots := snapshots - {id};
    }
  }
}
