/** What the sliding window's replies promise: the Remaining and Retry-After headers, and what colliding members do. */
module SlidingHeaders {
  import opened Prelude
  import opened SlidingWindow

  function RunFrom(c: Config, k: Key, more: seq<Arrival>): Key
    decreases |more|
  {
    if more == [] then k else RunFrom(c, Request(c, Some(k), more[0]), more[1..])
  }

  predicate AllAdmitted(c: Config, k: Key, more: seq<Arrival>)
    decreases |more|
  {
    more == [] || (ReplyOf(c, Some(k), more[0]).allowed && AllAdmitted(c, Request(c, Some(k), more[0]), more[1..]))
  }

  predicate AllDenied(c: Config, k: Key, gap: seq<Arrival>)
    decreases |gap|
  {
    gap == [] || (!ReplyOf(c, Some(k), gap[0]).allowed && AllDenied(c, Request(c, Some(k), gap[0]), gap[1..]))
  }

  lemma PruneSize(scores: map<Member, int>, cutoff: int)
    ensures |Prune(scores, cutoff)| <= |scores|
  {
    assert Prune(scores, cutoff).Keys <= scores.Keys;
    assert scores.Keys == Prune(scores, cutoff).Keys + (scores.Keys - Prune(scores, cutoff).Keys);
  }

  lemma UpdateSize(scores: map<Member, int>, m: Member, t: int)
    ensures |scores[m := t]| <= |scores| + 1
  {
    assert scores[m := t].Keys == scores.Keys + {m};
  }

  lemma {:induction false} RoomIsKept(c: Config, k: Key, more: seq<Arrival>)
    requires |k.scores| + |more| <= c.limit
    ensures AllAdmitted(c, k, more)
    decreases |more|
  {
    if more != [] {
      var kept := Prune(Present(Some(k), more[0].now), more[0].now - c.window);
      PruneSize(Present(Some(k), more[0].now), more[0].now - c.window);
      UpdateSize(kept, MemberOf(more[0]), more[0].now);
      RoomIsKept(c, Request(c, Some(k), more[0]), more[1..]);
    }
  }

  /**
   The Remaining header is a promise: after a reply with Remaining = k, the next k
   requests are admitted, whenever they arrive and whatever their members.
   */
  lemma {:induction false} RemainingIsPromised(c: Config, b: Option<Key>, a: Arrival, more: seq<Arrival>)
    requires |more| <= ReplyOf(c, b, a).remaining
    ensures AllAdmitted(c, Request(c, b, a), more)
  {
    var kept := Prune(Present(b, a.now), a.now - c.window);
    UpdateSize(kept, MemberOf(a), a.now);
    if more != [] {
      RoomIsKept(c, Request(c, b, a), more);
    }
  }

  /** Every score in the set lies between 0 and `t`. */
  predicate ScoredBy(k: Key, t: int) {
    forall m :: m in k.scores ==> 0 <= k.scores[m] <= t
  }

  lemma {:induction false} DenialsAddNothing(c: Config, k: Key, gap: seq<Arrival>, t: int)
    requires ScoredBy(k, t) && AllDenied(c, k, gap)
    ensures ScoredBy(RunFrom(c, k, gap), t)
    decreases |gap|
  {
    if gap != [] {
      DenialsAddNothing(c, Request(c, Some(k), gap[0]), gap[1..], t);
    }
  }

  lemma {:induction false} RetryAfterFrom(c: Config, k: Key, a: Arrival, gap: seq<Arrival>, later: Arrival)
    requires c.limit >= 1 && ScoredBy(k, a.now) && !ReplyOf(c, Some(k), a).allowed
    requires AllDenied(c, Request(c, Some(k), a), gap)
    requires later.now >= a.now + 1000 * ReplyOf(c, Some(k), a).reset
    ensures ReplyOf(c, Some(RunFrom(c, Request(c, Some(k), a), gap)), later).allowed
  {
    var k' := RunFrom(c, Request(c, Some(k), a), gap);
    DenialsAddNothing(c, Request(c, Some(k), a), gap, a.now);
    assert 1000 * CeilSeconds(c.window) >= c.window;
    assert Prune(Present(Some(k'), later.now), later.now - c.window) == map[];
  }

  lemma RequestScores(c: Config, b: Option<Key>, a: Arrival)
    requires a.now >= 0 && (b.Some? ==> ScoredBy(b.value, a.now))
    ensures ScoredBy(Request(c, b, a), a.now)
  {
  }

  /** The scores stored after a sequence of requests are times of those requests. */
  lemma {:induction false} StoredScores(c: Config, rs: seq<Arrival>, t: int)
    requires Timed(rs) && rs != [] && rs[|rs| - 1].now <= t
    ensures After(c, rs).Some? && ScoredBy(After(c, rs).value, t)
  {
    var before, a := rs[..|rs| - 1], rs[|rs| - 1];
    assert Timed(before) && a.now >= 0;
    if before != [] {
      StoredScores(c, before, a.now);
    }
    RequestScores(c, After(c, before), a);
  }

  /** Running on from the stored key is running the longer sequence. */
  lemma {:induction false} RunFromIsAfter(c: Config, rs: seq<Arrival>, k: Key, more: seq<Arrival>)
    requires After(c, rs) == Some(k)
    ensures After(c, rs + more) == Some(RunFrom(c, k, more))
    decreases |more|
  {
    if more == [] {
      assert rs + more == rs;
    } else {
      var first, rest := more[0], more[1..];
      AppendOne(c, rs, first);
      assert rs + more == rs + [first] + rest;
      RunFromIsAfter(c, rs + [first], Request(c, Some(k), first), rest);
      RunFromFirst(c, k, more);
    }
  }

  lemma {:induction false} RunFromFirst(c: Config, k: Key, more: seq<Arrival>)
    requires more != []
    ensures RunFrom(c, k, more) == RunFrom(c, Request(c, Some(k), more[0]), more[1..])
  {
  }

  /**
   Retry-After is honoured: after any sequence of requests whose last one is denied,
   a request at least Retry-After seconds later, with only denied requests in between,
   is admitted when the limit is at least one.
   */
  lemma {:induction false} RetryAfterHonoured(c: Config, rs: seq<Arrival>, a: Arrival, gap: seq<Arrival>,
                                              later: Arrival)
    requires c.limit >= 1 && Timed(rs + [a]) && !ReplyOf(c, After(c, rs), a).allowed
    requires AllDenied(c, Request(c, After(c, rs), a), gap)
    requires later.now >= a.now + 1000 * ReplyOf(c, After(c, rs), a).reset
    ensures ReplyOf(c, After(c, rs + [a] + gap), later).allowed
  {
    TimedInit(rs, a);
    FirstIsAdmitted(c, a);
    if rs != [] {
      StoredScores(c, rs, a.now);
      RetryAfterFrom(c, After(c, rs).value, a, gap, later);
      AppendOne(c, rs, a);
      RunFromIsAfter(c, rs + [a], Request(c, After(c, rs), a), gap);
    }
  }

  lemma FirstIsAdmitted(c: Config, a: Arrival)
    requires c.limit >= 1
    ensures Admits(c, None, a) && Request(c, None, a) == OneMember(c, a)
  {
    assert Prune(map[], a.now - c.window) == map[];
  }

  /** `n` requests with one member at one time. */
  function Repeated(a: Arrival, n: nat): (r: seq<Arrival>)
    ensures |r| == n && forall i :: 0 <= i < n ==> r[i] == a
  {
    if n == 0 then [] else Repeated(a, n - 1) + [a]
  }

  function OneMember(c: Config, a: Arrival): Key {
    Key(map[MemberOf(a) := a.now], a.now + c.window)
  }

  /** A second request with the same member and time is admitted and changes nothing. */
  lemma OneMemberStays(c: Config, a: Arrival)
    requires c.limit >= 2 && c.window > 0 && a.now >= 0
    ensures Admits(c, Some(OneMember(c, a)), a) && Request(c, Some(OneMember(c, a)), a) == OneMember(c, a)
  {
    var scores := OneMember(c, a).scores;
    var kept := Prune(scores, a.now - c.window);
    assert kept.Keys == {MemberOf(a)};
    assert kept == scores;
    assert kept[MemberOf(a) := a.now] == kept;
    assert |kept| == |kept.Keys| == 1;
  }

  lemma {:induction false} RepeatedKey(c: Config, a: Arrival, n: nat)
    requires c.limit >= 2 && c.window > 0 && a.now >= 0
    ensures After(c, Repeated(a, n)) == if n == 0 then None else Some(OneMember(c, a))
  {
    if n > 0 {
      RepeatedKey(c, a, n - 1);
      AppendOne(c, Repeated(a, n - 1), a);
      FirstIsAdmitted(c, a);
      OneMemberStays(c, a);
    }
  }

  lemma {:induction false} RepeatedAdmits(c: Config, a: Arrival, n: nat)
    requires c.limit >= 2 && c.window > 0 && a.now >= 0
    ensures Admits(c, After(c, Repeated(a, n)), a)
  {
    var k := After(c, Repeated(a, n));
    assert k == if n == 0 then None else Some(OneMember(c, a)) by {
      RepeatedKey(c, a, n);
    }
    if n == 0 {
      FirstIsAdmitted(c, a);
    } else {
      OneMemberStays(c, a);
    }
  }

  /**
   Distinct members are needed: under a limit of two or more, every one of n requests with
   one member in one instant is admitted, for every n, because the set holds them once.
   */
  lemma {:induction false} CollidingMembersUnlimited(c: Config, a: Arrival, n: nat, i: nat)
    requires c.limit >= 2 && c.window > 0 && a.now >= 0 && i < n
    ensures Decisions(c, Repeated(a, n))[i]
    decreases n
  {
    DecideOne(c, Repeated(a, n - 1), a);
    if i < n - 1 {
      CollidingMembersUnlimited(c, a, n - 1, i);
    } else {
      RepeatedAdmits(c, a, n - 1);
    }
  }

  // ------------------------------------------------------------- exact headers

  /** Nothing in the set is old enough at `t` to be pruned, and the key does not expire in that instant. */
  predicate CurrentAt(c: Config, k: Key, t: int) {
    c.window > 0 && k.expires == t + c.window && forall m :: m in k.scores ==> !(0 <= k.scores[m] <= t - c.window)
  }

  lemma NothingPruned(c: Config, k: Key, t: int)
    requires CurrentAt(c, k, t)
    ensures Prune(Present(Some(k), t), t - c.window) == k.scores
  {
  }

  lemma RequestIsCurrent(c: Config, b: Option<Key>, a: Arrival)
    requires c.window > 0
    ensures CurrentAt(c, Request(c, b, a), a.now)
  {
  }

  /** One more request in the same instant, with a member of its own. */
  lemma OneMore(c: Config, k: Key, x: Arrival)
    requires CurrentAt(c, k, x.now) && MemberOf(x) !in k.scores
    ensures Admits(c, Some(k), x) <==> |k.scores| < c.limit
    ensures Admits(c, Some(k), x) ==>
      && Request(c, Some(k), x).scores == k.scores[MemberOf(x) := x.now]
      && |Request(c, Some(k), x).scores| == |k.scores| + 1
  {
    NothingPruned(c, k, x.now);
    assert k.scores[MemberOf(x) := x.now].Keys == k.scores.Keys + {MemberOf(x)};
  }

  /** Arrivals at `t` whose members differ from each other and from those stored. */
  predicate NewAt(k: Key, t: int, more: seq<Arrival>) {
    && (forall i :: 0 <= i < |more| ==> more[i].now == t && MemberOf(more[i]) !in k.scores)
    && (forall i, j :: 0 <= i < j < |more| ==> MemberOf(more[i]) != MemberOf(more[j]))
  }

  lemma {:induction false} RoomIsUsed(c: Config, k: Key, more: seq<Arrival>, x: Arrival)
    requires CurrentAt(c, k, x.now) && NewAt(k, x.now, more + [x]) && (more == [] || |k.scores| + |more| <= c.limit)
    ensures ReplyOf(c, Some(RunFrom(c, k, more)), x).allowed <==> |k.scores| + |more| < c.limit
    decreases |more|
  {
    var all := more + [x];
    assert all[|more|] == x && MemberOf(x) !in k.scores;
    if more == [] {
      OneMore(c, k, x);
    } else {
      var first, rest := more[0], more[1..];
      assert all[0] == first && first.now == x.now;
      OneMore(c, k, first);
      var k' := Request(c, Some(k), first);
      RequestIsCurrent(c, Some(k), first);
      StillNew(k, k', more, x);
      RoomIsUsed(c, k', rest, x);
    }
  }

  lemma StillNew(k: Key, k': Key, more: seq<Arrival>, x: Arrival)
    requires more != [] && NewAt(k, x.now, more + [x]) && k'.scores == k.scores[MemberOf(more[0]) := more[0].now]
    ensures NewAt(k', x.now, more[1..] + [x])
  {
    var all, rest := more + [x], more[1..] + [x];
    assert forall i :: 0 <= i < |rest| ==> rest[i] == all[i + 1];
    assert all[0] == more[0];
  }

  /**
   Remaining is exact.  After Remaining = k, of further requests in the same instant with
   members of their own the first k are admitted and the next one is denied.
   */
  lemma {:induction false} RemainingIsExact(c: Config, b: Option<Key>, a: Arrival, more: seq<Arrival>, x: Arrival)
    requires c.window > 0 && MemberOf(a) !in Present(b, a.now)
    requires x.now == a.now && NewAt(Request(c, b, a), a.now, more + [x])
    requires more == [] || |more| <= ReplyOf(c, b, a).remaining
    ensures ReplyOf(c, Some(RunFrom(c, Request(c, b, a), more)), x).allowed <==> |more| < ReplyOf(c, b, a).remaining
  {
    var k := Request(c, b, a);
    RequestIsCurrent(c, b, a);
    StoredCount(c, b, a);
    RoomIsUsed(c, k, more, x);
  }

  lemma StoredCount(c: Config, b: Option<Key>, a: Arrival)
    requires MemberOf(a) !in Present(b, a.now)
    ensures ReplyOf(c, b, a).remaining
            == if c.limit - |Request(c, b, a).scores| < 0 then 0 else c.limit - |Request(c, b, a).scores|
  {
    var kept := Prune(Present(b, a.now), a.now - c.window);
    assert kept[MemberOf(a) := a.now].Keys == kept.Keys + {MemberOf(a)};
  }

  /** The reset is the window in whole seconds, rounded up. */
  lemma ResetIsWindow(c: Config, b: Option<Key>, a: Arrival)
    ensures 1000 * (ReplyOf(c, b, a).reset - 1) < c.window <= 1000 * ReplyOf(c, b, a).reset
  {
  }
}
