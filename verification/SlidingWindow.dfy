/**
 The sliding-window script over a sorted set that is pruned and that expires,
 against the full log of requests.  All times are nonnegative milliseconds.
 */
module SlidingWindow {
  import opened Prelude

  datatype Config = Config(window: int, limit: int)

  /** The sorted set under the key (member -> score) and the time at which the key expires. */
  datatype Key = Key(scores: map<Member, int>, expires: int)

  /** The member string "now-counter": the time of the request and the limiter's own counter. */
  datatype Member = Member(stamp: int, serial: nat)

  datatype Arrival = Arrival(now: int, serial: nat)

  function MemberOf(a: Arrival): Member {
    Member(a.now, a.serial)
  }

  datatype Reply = Reply(allowed: bool, remaining: int, reset: int)

  /** What Redis finds under the key. */
  function Present(k: Option<Key>, now: int): map<Member, int> {
    if k.Some? && now < k.value.expires then k.value.scores else map[]
  }

  /** ZREMRANGEBYSCORE from 0 to now - window. */
  function Prune(scores: map<Member, int>, cutoff: int): map<Member, int> {
    map m | m in scores && !(0 <= scores[m] <= cutoff) :: scores[m]
  }

  predicate Admits(c: Config, k: Option<Key>, a: Arrival) {
    |Prune(Present(k, a.now), a.now - c.window)| < c.limit
  }

  function Request(c: Config, k: Option<Key>, a: Arrival): Key {
    var kept := Prune(Present(k, a.now), a.now - c.window);
    Key(if Admits(c, k, a) then kept[MemberOf(a) := a.now] else kept, a.now + c.window)
  }

  function CeilSeconds(ms: int): int {
    -((-ms) / 1000)
  }

  function ReplyOf(c: Config, k: Option<Key>, a: Arrival): Reply {
    var count := |Prune(Present(k, a.now), a.now - c.window)|;
    var after := if Admits(c, k, a) then count + 1 else count;
    Reply(Admits(c, k, a), if c.limit - after < 0 then 0 else c.limit - after, CeilSeconds(c.window))
  }

  function After(c: Config, rs: seq<Arrival>): Option<Key> {
    if rs == [] then None else Some(Request(c, After(c, rs[..|rs| - 1]), rs[|rs| - 1]))
  }

  function Decisions(c: Config, rs: seq<Arrival>): (r: seq<bool>)
    ensures |r| == |rs|
  {
    if rs == [] then []
    else Decisions(c, rs[..|rs| - 1]) + [Admits(c, After(c, rs[..|rs| - 1]), rs[|rs| - 1])]
  }

  /** Times are nonnegative and never step back. */
  predicate Timed(rs: seq<Arrival>) {
    rs == [] ||
    var n := |rs| - 1;
    Timed(rs[..n]) && 0 <= rs[n].now && forall i :: 0 <= i < n ==> rs[i].now <= rs[n].now
  }

  /** No two requests carry the same member. */
  predicate Distinct(rs: seq<Arrival>) {
    rs == [] ||
    var n := |rs| - 1;
    Distinct(rs[..n]) && forall i :: 0 <= i < n ==> MemberOf(rs[i]) != MemberOf(rs[n])
  }

  // ------------------------------------------------------------- the full log

  /** Admissions in the log after `cutoff`. */
  function CountSince(rs: seq<Arrival>, flags: seq<bool>, cutoff: int): nat
    requires |rs| == |flags|
  {
    if rs == [] then 0
    else
      var n := |rs| - 1;
      CountSince(rs[..n], flags[..n], cutoff) + if flags[n] && rs[n].now > cutoff then 1 else 0
  }

  /** The decisions of a limiter that keeps every request and counts those in (now - window, now]. */
  function LogDecisions(c: Config, rs: seq<Arrival>): (r: seq<bool>)
    ensures |r| == |rs|
  {
    if rs == [] then []
    else
      var n := |rs| - 1;
      var before := LogDecisions(c, rs[..n]);
      before + [CountSince(rs[..n], before, rs[n].now - c.window) < c.limit]
  }

  /** The sorted set that the log defines: admitted members after `cutoff`, at their latest times. */
  function LogScores(rs: seq<Arrival>, flags: seq<bool>, cutoff: int): map<Member, int>
    requires |rs| == |flags|
  {
    if rs == [] then map[]
    else
      var n := |rs| - 1;
      var rest := LogScores(rs[..n], flags[..n], cutoff);
      if flags[n] && rs[n].now > cutoff then rest[MemberOf(rs[n]) := rs[n].now] else rest
  }

  lemma {:induction false} LogScoresFrom(rs: seq<Arrival>, flags: seq<bool>, cutoff: int, m: Member) returns (k: nat)
    requires |rs| == |flags| && m in LogScores(rs, flags, cutoff)
    ensures k < |rs| && flags[k] && MemberOf(rs[k]) == m && rs[k].now == LogScores(rs, flags, cutoff)[m] > cutoff
  {
    var n := |rs| - 1;
    if flags[n] && rs[n].now > cutoff && MemberOf(rs[n]) == m {
      k := n;
    } else {
      k := LogScoresFrom(rs[..n], flags[..n], cutoff, m);
    }
  }

  /** Raising the cutoff of the log's set is pruning it. */
  lemma {:induction false} PruneLogScores(rs: seq<Arrival>, flags: seq<bool>, cutoff: int, later: int)
    requires |rs| == |flags| && cutoff <= later && Timed(rs)
    ensures Prune(LogScores(rs, flags, cutoff), later) == LogScores(rs, flags, later)
  {
    if rs != [] {
      var n := |rs| - 1;
      PruneLogScores(rs[..n], flags[..n], cutoff, later);
      if flags[n] && cutoff < rs[n].now <= later && MemberOf(rs[n]) in LogScores(rs[..n], flags[..n], later) {
        var k := LogScoresFrom(rs[..n], flags[..n], later, MemberOf(rs[n]));
      }
    }
  }

  /** With distinct members the set has one member for each admission in the log. */
  lemma {:induction false} LogScoresSize(rs: seq<Arrival>, flags: seq<bool>, cutoff: int)
    requires |rs| == |flags| && Distinct(rs)
    ensures |LogScores(rs, flags, cutoff)| == CountSince(rs, flags, cutoff)
  {
    if rs != [] {
      var n := |rs| - 1;
      LogScoresSize(rs[..n], flags[..n], cutoff);
      if MemberOf(rs[n]) in LogScores(rs[..n], flags[..n], cutoff) {
        var k := LogScoresFrom(rs[..n], flags[..n], cutoff, MemberOf(rs[n]));
      }
    }
  }

  /** Once the window has passed, the log's set is empty. */
  lemma {:induction false} LogScoresEmpty(rs: seq<Arrival>, flags: seq<bool>, cutoff: int)
    requires |rs| == |flags| && forall i :: 0 <= i < |rs| ==> rs[i].now <= cutoff
    ensures LogScores(rs, flags, cutoff) == map[]
  {
    if rs != [] {
      LogScoresEmpty(rs[..|rs| - 1], flags[..|rs| - 1], cutoff);
    }
  }

  // --------------------------------------------------------------- refinement

  lemma {:induction false} AppendOne(c: Config, rs: seq<Arrival>, a: Arrival)
    ensures After(c, rs + [a]) == Some(Request(c, After(c, rs), a))
  {
    assert (rs + [a])[..|rs|] == rs;
  }

  lemma {:induction false} DecideOne(c: Config, rs: seq<Arrival>, a: Arrival)
    ensures Decisions(c, rs + [a]) == Decisions(c, rs) + [Admits(c, After(c, rs), a)]
  {
    assert (rs + [a])[..|rs|] == rs;
  }

  lemma {:induction false} LogScoresAppend(rs: seq<Arrival>, flags: seq<bool>, a: Arrival, ok: bool, cutoff: int)
    requires |rs| == |flags|
    ensures LogScores(rs + [a], flags + [ok], cutoff)
            == if ok && a.now > cutoff then LogScores(rs, flags, cutoff)[MemberOf(a) := a.now]
               else LogScores(rs, flags, cutoff)
  {
    assert (rs + [a])[..|rs|] == rs && (flags + [ok])[..|rs|] == flags;
  }

  /** Neither pruning nor expiry loses an admission that still counts. */
  lemma KeptIsLog(c: Config, k: Key, rs: seq<Arrival>, flags: seq<bool>, last: int, now: int)
    requires |rs| == |flags| && Timed(rs) && last <= now
    requires forall i :: 0 <= i < |rs| ==> rs[i].now <= last
    requires k.expires == last + c.window
    requires c.window > 0 ==> k.scores == LogScores(rs, flags, last - c.window)
    ensures Prune(Present(Some(k), now), now - c.window) == LogScores(rs, flags, now - c.window)
  {
    if now < last + c.window {
      PruneLogScores(rs, flags, last - c.window, now - c.window);
    } else {
      LogScoresEmpty(rs, flags, now - c.window);
    }
  }

  lemma {:induction false} TimedLast(rs: seq<Arrival>)
    requires Timed(rs) && rs != []
    ensures forall i :: 0 <= i < |rs| ==> rs[i].now <= rs[|rs| - 1].now
  {
  }

  lemma {:induction false} RequestStores(c: Config, b: Option<Key>, rs: seq<Arrival>, flags: seq<bool>, a: Arrival)
    requires |rs| == |flags|
    requires Prune(Present(b, a.now), a.now - c.window) == LogScores(rs, flags, a.now - c.window)
    ensures Request(c, b, a).expires == a.now + c.window
    ensures c.window > 0 ==>
      Request(c, b, a).scores == LogScores(rs + [a], flags + [Admits(c, b, a)], a.now - c.window)
  {
    LogScoresAppend(rs, flags, a, Admits(c, b, a), a.now - c.window);
  }

  lemma {:induction false} StoresOne(c: Config, rs: seq<Arrival>, a: Arrival)
    requires Prune(Present(After(c, rs), a.now), a.now - c.window) == LogScores(rs, Decisions(c, rs), a.now - c.window)
    ensures After(c, rs + [a]).Some? && After(c, rs + [a]).value.expires == a.now + c.window
    ensures c.window > 0 ==>
      After(c, rs + [a]).value.scores == LogScores(rs + [a], Decisions(c, rs + [a]), a.now - c.window)
  {
    RequestStores(c, After(c, rs), rs, Decisions(c, rs), a);
    AppendOne(c, rs, a);
    DecideOne(c, rs, a);
  }

  lemma {:induction false} TimedInit(rs: seq<Arrival>, a: Arrival)
    requires Timed(rs + [a])
    ensures Timed(rs) && (rs != [] ==> rs[|rs| - 1].now <= a.now)
  {
    var all := rs + [a];
    assert all[..|rs|] == rs;
    assert rs != [] ==> all[|rs| - 1].now <= all[|rs|].now;
  }

  /** After each request the stored set is the log's set. */
  lemma {:induction false} StoresLog(c: Config, rs: seq<Arrival>, a: Arrival)
    requires Timed(rs + [a])
    ensures After(c, rs + [a]).Some? && After(c, rs + [a]).value.expires == a.now + c.window
    ensures c.window > 0 ==>
      After(c, rs + [a]).value.scores == LogScores(rs + [a], Decisions(c, rs + [a]), a.now - c.window)
    decreases |rs|, 1
  {
    TimedInit(rs, a);
    CountsLog(c, rs, a.now);
    StoresOne(c, rs, a);
  }

  lemma {:induction false} CountsLogOne(c: Config, rs: seq<Arrival>, a: Arrival, now: int)
    requires Timed(rs + [a]) && a.now <= now
    ensures Prune(Present(After(c, rs + [a]), now), now - c.window)
            == LogScores(rs + [a], Decisions(c, rs + [a]), now - c.window)
    decreases |rs|, 2
  {
    StoresLog(c, rs, a);
    TimedLast(rs + [a]);
    KeptIsLog(c, After(c, rs + [a]).value, rs + [a], Decisions(c, rs + [a]), a.now, now);
  }

  /** What the script counts at `now` is what the log holds. */
  lemma {:induction false} CountsLog(c: Config, rs: seq<Arrival>, now: int)
    requires Timed(rs) && (rs != [] ==> rs[|rs| - 1].now <= now)
    ensures Prune(Present(After(c, rs), now), now - c.window) == LogScores(rs, Decisions(c, rs), now - c.window)
    decreases |rs|, 0
  {
    if rs != [] {
      var before, a := rs[..|rs| - 1], rs[|rs| - 1];
      assert rs == before + [a];
      CountsLogOne(c, before, a, now);
    }
  }

  lemma {:induction false} LogAppendOne(c: Config, rs: seq<Arrival>, a: Arrival)
    ensures LogDecisions(c, rs + [a])
            == LogDecisions(c, rs) + [CountSince(rs, LogDecisions(c, rs), a.now - c.window) < c.limit]
  {
    assert (rs + [a])[..|rs|] == rs;
  }

  /** What ZCARD returns to a request at `now`. */
  function ScriptCount(c: Config, rs: seq<Arrival>, now: int): nat {
    |Prune(Present(After(c, rs), now), now - c.window)|
  }

  lemma {:induction false} ScriptCountIsSize(c: Config, rs: seq<Arrival>, now: int)
    requires Timed(rs) && (rs != [] ==> rs[|rs| - 1].now <= now)
    ensures ScriptCount(c, rs, now) == |LogScores(rs, Decisions(c, rs), now - c.window)|
  {
    CountsLog(c, rs, now);
  }

  lemma {:induction false} DistinctCount(c: Config, rs: seq<Arrival>, now: int)
    requires Timed(rs) && (rs != [] ==> rs[|rs| - 1].now <= now) && Distinct(rs)
    ensures ScriptCount(c, rs, now) == CountSince(rs, Decisions(c, rs), now - c.window)
  {
    var n, flags, cutoff := ScriptCount(c, rs, now), Decisions(c, rs), now - c.window;
    assert n == |LogScores(rs, flags, cutoff)| by {
      ScriptCountIsSize(c, rs, now);
    }
    assert |LogScores(rs, flags, cutoff)| == CountSince(rs, flags, cutoff) by {
      LogScoresSize(rs, flags, cutoff);
    }
  }

  lemma {:induction false} DistinctInit(rs: seq<Arrival>, a: Arrival)
    requires Distinct(rs + [a])
    ensures Distinct(rs)
  {
    assert (rs + [a])[..|rs|] == rs;
  }

  /**
   The sliding window refines the full log.  For times that never step back and
   distinct members, each decision is "fewer than limit admissions in
   (now - window, now]" over the unpruned history; pruning and the expiry of the key
   never change a decision.
   */
  lemma {:induction false} RefinesLog(c: Config, rs: seq<Arrival>)
    requires Timed(rs) && Distinct(rs)
    ensures Decisions(c, rs) == LogDecisions(c, rs)
  {
    if rs != [] {
      var before, a := rs[..|rs| - 1], rs[|rs| - 1];
      assert rs == before + [a];
      assert ScriptCount(c, before, a.now) == CountSince(before, Decisions(c, before), a.now - c.window) by {
        TimedInit(before, a);
        DistinctInit(before, a);
        DistinctCount(c, before, a.now);
      }
      assert Decisions(c, before) == LogDecisions(c, before) by {
        TimedInit(before, a);
        DistinctInit(before, a);
        RefinesLog(c, before);
      }
      RefinesOne(c, before, a);
    }
  }

  lemma {:induction false} RefinesOne(c: Config, rs: seq<Arrival>, a: Arrival)
    requires Decisions(c, rs) == LogDecisions(c, rs)
    requires ScriptCount(c, rs, a.now) == CountSince(rs, Decisions(c, rs), a.now - c.window)
    ensures Decisions(c, rs + [a]) == LogDecisions(c, rs + [a])
  {
    DecideOne(c, rs, a);
    LogAppendOne(c, rs, a);
  }

  /** Admissions in the half-open interval (lo, hi]. */
  function CountIn(rs: seq<Arrival>, flags: seq<bool>, lo: int, hi: int): nat
    requires |rs| == |flags|
  {
    if rs == [] then 0
    else
      var n := |rs| - 1;
      CountIn(rs[..n], flags[..n], lo, hi) + if flags[n] && lo < rs[n].now <= hi then 1 else 0
  }

  lemma {:induction false} CountInSince(rs: seq<Arrival>, flags: seq<bool>, lo: int, hi: int, cutoff: int)
    requires |rs| == |flags| && cutoff <= lo
    ensures CountIn(rs, flags, lo, hi) <= CountSince(rs, flags, cutoff)
  {
    if rs != [] {
      CountInSince(rs[..|rs| - 1], flags[..|rs| - 1], lo, hi, cutoff);
    }
  }

  /** Every half-open interval of one window's length holds at most `limit` admissions. */
  lemma {:induction false} WindowBound(c: Config, rs: seq<Arrival>, hi: int)
    requires Timed(rs) && Distinct(rs) && c.limit >= 0
    ensures CountIn(rs, Decisions(c, rs), hi - c.window, hi) <= c.limit
  {
    if rs != [] {
      var n := |rs| - 1;
      var before, flags := rs[..n], Decisions(c, rs);
      assert flags[..n] == Decisions(c, before);
      WindowBound(c, before, hi);
      if flags[n] && rs[n].now <= hi {
        RefinesLog(c, rs);
        RefinesLog(c, before);
        CountInSince(before, flags[..n], hi - c.window, hi, rs[n].now - c.window);
      }
    }
  }

  // --------------------------------------------------- members that collide

  /** Two admissions after the cutoff share a member. */
  ghost predicate Collision(rs: seq<Arrival>, flags: seq<bool>, cutoff: int)
    requires |rs| == |flags|
  {
    exists i, j :: 0 <= i < j < |rs| && Clash(rs, flags, cutoff, i, j)
  }

  predicate Clash(rs: seq<Arrival>, flags: seq<bool>, cutoff: int, i: nat, j: nat)
    requires |rs| == |flags| && i < |rs| && j < |rs|
  {
    flags[i] && flags[j] && rs[i].now > cutoff && rs[j].now > cutoff && MemberOf(rs[i]) == MemberOf(rs[j])
  }

  lemma {:induction false} LogScoresHas(rs: seq<Arrival>, flags: seq<bool>, cutoff: int, k: nat)
    requires |rs| == |flags| && k < |rs| && flags[k] && rs[k].now > cutoff
    ensures MemberOf(rs[k]) in LogScores(rs, flags, cutoff)
  {
    var n := |rs| - 1;
    if k < n {
      LogScoresHas(rs[..n], flags[..n], cutoff, k);
    }
  }

  /** The set counts the admissions in the window exactly when no two of them share a member. */
  lemma {:induction false} CountExactIff(rs: seq<Arrival>, flags: seq<bool>, cutoff: int)
    requires |rs| == |flags|
    ensures |LogScores(rs, flags, cutoff)| <= CountSince(rs, flags, cutoff)
    ensures |LogScores(rs, flags, cutoff)| == CountSince(rs, flags, cutoff) <==> !Collision(rs, flags, cutoff)
  {
    if rs != [] {
      var n := |rs| - 1;
      var rs', flags' := rs[..n], flags[..n];
      CountExactIff(rs', flags', cutoff);
      if Collision(rs', flags', cutoff) {
        var i, j :| 0 <= i < j < |rs'| && Clash(rs', flags', cutoff, i, j);
        assert Clash(rs, flags, cutoff, i, j);
      } else if flags[n] && rs[n].now > cutoff && MemberOf(rs[n]) in LogScores(rs', flags', cutoff) {
        var k := LogScoresFrom(rs', flags', cutoff, MemberOf(rs[n]));
        assert Clash(rs, flags, cutoff, k, n);
      } else {
        if Collision(rs, flags, cutoff) {
          var i, j :| 0 <= i < j < |rs| && Clash(rs, flags, cutoff, i, j);
          if j < n {
            assert Clash(rs', flags', cutoff, i, j);
          } else {
            LogScoresHas(rs', flags', cutoff, i);
          }
        }
      }
    }
  }

  /** The script's count at `now` is the log's count exactly when no two counted admissions share a member. */
  lemma {:induction false} ScriptCountsIff(c: Config, rs: seq<Arrival>, now: int)
    requires Timed(rs) && (rs != [] ==> rs[|rs| - 1].now <= now)
    ensures ScriptCount(c, rs, now) == CountSince(rs, Decisions(c, rs), now - c.window)
            <==> !Collision(rs, Decisions(c, rs), now - c.window)
  {
    var n, flags, cutoff := ScriptCount(c, rs, now), Decisions(c, rs), now - c.window;
    assert n == |LogScores(rs, flags, cutoff)| by {
      ScriptCountIsSize(c, rs, now);
    }
    SizeCountsIff(n, rs, flags, cutoff);
  }

  lemma {:induction false} SizeCountsIff(n: nat, rs: seq<Arrival>, flags: seq<bool>, cutoff: int)
    requires |rs| == |flags| && n == |LogScores(rs, flags, cutoff)|
    ensures n == CountSince(rs, flags, cutoff) <==> !Collision(rs, flags, cutoff)
  {
    CountExactIff(rs, flags, cutoff);
  }

  /** Rising serials make distinct members. */
  lemma {:induction false} RisingIsDistinct(rs: seq<Arrival>)
    requires forall i, j :: 0 <= i < j < |rs| ==> rs[i].serial < rs[j].serial
    ensures Distinct(rs)
  {
    if rs != [] {
      RisingIsDistinct(rs[..|rs| - 1]);
    }
  }
}
