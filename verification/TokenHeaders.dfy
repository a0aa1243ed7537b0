/** What the token bucket's replies promise: the Remaining and Retry-After headers on the script's own key. */
module TokenHeaders {
  import opened Prelude
  import opened TokenBucket

  /** The reply to the last request of a sequence, on a key that expires. */
  function LastReply(c: Config, nows: seq<int>): Reply
    requires nows != []
  {
    var n := |nows| - 1;
    ReplyOf(c, Present(c, After(c, nows[..n]), nows[n]), nows[n])
  }

  lemma {:induction false} ExpiringOne(c: Config, nows: seq<int>, t: int)
    ensures After(c, nows + [t]) == Some(Request(c, Present(c, After(c, nows), t), t))
    ensures Decisions(c, nows + [t])
            == Decisions(c, nows) + [Level(c, Present(c, After(c, nows), t), t) >= 1.0]
  {
    assert (nows + [t])[..|nows|] == nows;
  }

  /** With no negative rate the level at a request is at least what was stored, expired or not. */
  lemma LevelKeeps(c: Config, k: Bucket, now: int)
    requires c.rate >= 0.0 && k.tokens <= c.burst as real
    ensures Level(c, Present(c, Some(k), now), now) >= k.tokens
  {
  }

  lemma {:induction false} StoredBelowBurst(c: Config, nows: seq<int>)
    requires nows != []
    ensures After(c, nows).Some? && After(c, nows).value.tokens <= c.burst as real
  {
  }

  lemma {:induction false} TokensLast(c: Config, nows: seq<int>, more: seq<int>)
    requires nows != [] && c.rate >= 0.0 && |more| as real <= After(c, nows).value.tokens
    ensures After(c, nows + more).Some?
    ensures After(c, nows + more).value.tokens >= After(c, nows).value.tokens - |more| as real
    ensures forall k :: |nows| <= k < |nows + more| ==> Decisions(c, nows + more)[k]
  {
    if more == [] {
      assert nows + more == nows;
    } else {
      var m := |more| - 1;
      var before := nows + more[..m];
      TokensLast(c, nows, more[..m]);
      assert nows + more == before + [more[m]];
      ExpiringOne(c, before, more[m]);
      StoredBelowBurst(c, before);
      LevelKeeps(c, After(c, before).value, more[m]);
    }
  }

  /** After a reply with Remaining = k, the requests in `more`, at most k of them, are admitted. */
  ghost predicate KeepsPromise(c: Config, nows: seq<int>, more: seq<int>)
    requires nows != []
  {
    |more| <= LastReply(c, nows).remaining ==>
      forall k :: |nows| <= k < |nows + more| ==> Decisions(c, nows + more)[k]
  }

  /**
   The Remaining header is a promise: for a rate that is not negative, after a reply with
   Remaining = k the next k requests are admitted, whenever they arrive.
   */
  lemma {:induction false} RemainingIsPromised(c: Config, nows: seq<int>, more: seq<int>)
    requires nows != [] && c.rate >= 0.0
    ensures KeepsPromise(c, nows, more)
  {
    if |more| <= LastReply(c, nows).remaining {
      assert After(c, nows).value.tokens >= LastReply(c, nows).remaining as real;
      TokensLast(c, nows, more);
    }
  }

  /** One request at time 0 and `n` at time 1. */
  function ZeroThenOnes(n: nat): (r: seq<int>)
    ensures |r| == n + 1 && r[0] == 0 && forall i :: 1 <= i <= n ==> r[i] == 1
  {
    if n == 0 then [0] else ZeroThenOnes(n - 1) + [1]
  }

  lemma {:induction false} FullAfterFirst(c: Config)
    requires c.rate < 0.0 && c.burst >= 2
    ensures After(c, ZeroThenOnes(0)) == Some(Bucket((c.burst - 1) as real, 0))
    ensures LastReply(c, ZeroThenOnes(0)).remaining == c.burst - 1
  {
    assert ZeroThenOnes(0)[..0] == [];
  }

  lemma LeakStep(c: Config, k: Bucket)
    requires c.rate < 0.0 && (k.ts == 0 || k.ts == 1) && k.tokens <= c.burst as real
    ensures Level(c, Present(c, Some(k), 1), 1) == k.tokens + if k.ts == 0 then Gain(c.rate, 1) else 0.0
    ensures Gain(c.rate, 1) < 0.0
  {
    assert Present(c, Some(k), 1) == Some(k);
    assert Gain(c.rate, 0) == 0.0;
    assert Gain(c.rate, 1) < 0.0;
  }

  /** What is stored after one request at time 0 and n at time 1 that were all admitted. */
  function Leaked(c: Config, n: nat): Bucket {
    if n == 0 then Bucket((c.burst - 1) as real, 0) else Bucket((c.burst - 1 - n) as real + Gain(c.rate, 1), 1)
  }

  lemma LeakRequest(c: Config, n: nat)
    requires c.rate < 0.0 && n >= 1 && Level(c, Present(c, Some(Leaked(c, n - 1)), 1), 1) >= 1.0
    ensures Request(c, Present(c, Some(Leaked(c, n - 1)), 1), 1) == Leaked(c, n) && Leaked(c, n).tokens >= 0.0
  {
    LeakStep(c, Bucket((c.burst - 1) as real, 0));
    LeakStep(c, Leaked(c, n - 1));
    assert (c.burst - n) as real - 1.0 == (c.burst - 1 - n) as real;
  }

  /** With a negative rate the tokens leak between time 0 and time 1. */
  lemma {:induction false} LeaksAtOne(c: Config, n: nat)
    requires c.rate < 0.0 && c.burst >= 2
    requires forall k :: 1 <= k <= n ==> Decisions(c, ZeroThenOnes(n))[k]
    ensures After(c, ZeroThenOnes(n)) == Some(Leaked(c, n))
    ensures n >= 1 ==> Leaked(c, n).tokens >= 0.0
  {
    if n == 0 {
      FullAfterFirst(c);
    } else {
      var before := ZeroThenOnes(n - 1);
      ExpiringOne(c, before, 1);
      forall k | 1 <= k <= n - 1
        ensures Decisions(c, before)[k]
      {
        assert Decisions(c, ZeroThenOnes(n))[k];
      }
      LeaksAtOne(c, n - 1);
      assert Decisions(c, ZeroThenOnes(n))[n];
      LeakRequest(c, n);
    }
  }

  lemma {:induction false} PromiseBroken(c: Config)
    requires c.rate < 0.0 && c.burst >= 2
    ensures !KeepsPromise(c, [0], ZeroThenOnes(c.burst - 1)[1..])
    ensures Nondecreasing([0] + ZeroThenOnes(c.burst - 1)[1..])
  {
    var n := c.burst - 1;
    var all := ZeroThenOnes(n);
    assert [0] + all[1..] == all;
    FullAfterFirst(c);
    LeakStep(c, Leaked(c, 0));
    if forall k :: 1 <= k <= n ==> Decisions(c, all)[k] {
      LeaksAtOne(c, n);
    }
  }

  lemma NothingRemains(c: Config, b: Option<Bucket>, now: int)
    requires c.burst <= 1
    ensures ReplyOf(c, b, now).remaining <= 0
  {
  }

  /**
   The promise is kept on every sequence of requests, for nondecreasing times, exactly for
   a rate that is not negative or a capacity of at most one.
   */
  lemma {:induction false} RemainingIsPromisedIff(c: Config)
    ensures (forall nows, more :: nows != [] && Nondecreasing(nows + more) ==> KeepsPromise(c, nows, more))
            <==> c.rate >= 0.0 || c.burst <= 1
  {
    if c.rate >= 0.0 {
      forall nows, more | nows != [] && Nondecreasing(nows + more)
        ensures KeepsPromise(c, nows, more)
      {
        RemainingIsPromised(c, nows, more);
      }
    } else if c.burst <= 1 {
      forall nows, more | nows != [] && Nondecreasing(nows + more)
        ensures KeepsPromise(c, nows, more)
      {
        var n := |nows| - 1;
        NothingRemains(c, Present(c, After(c, nows[..n]), nows[n]), nows[n]);
      }
    } else {
      PromiseBroken(c);
    }
  }

  /** The key after further requests. */
  function RunFrom(c: Config, k: Bucket, gap: seq<int>): Bucket
    decreases |gap|
  {
    if gap == [] then k else RunFrom(c, Request(c, Some(k), gap[0]), gap[1..])
  }

  predicate AllDenied(c: Config, k: Bucket, gap: seq<int>)
    decreases |gap|
  {
    gap == [] || (!ReplyOf(c, Some(k), gap[0]).allowed && AllDenied(c, Request(c, Some(k), gap[0]), gap[1..]))
  }

  /** Each time is at or after the one before, the first at or after `from`, the last at or before `to`. */
  predicate Between(from: int, gap: seq<int>, to: int)
    decreases |gap|
  {
    if gap == [] then from <= to else from <= gap[0] && Between(gap[0], gap[1..], to)
  }

  /** The key holds at least what it held at `from` plus the refill since, up to its capacity. */
  predicate RefilledSince(c: Config, k: Bucket, tokens: real, from: int) {
    from <= k.ts && k.tokens >= Min(c.burst as real, tokens + Gain(c.rate, k.ts - from))
  }

  /** Refills of consecutive waits add up. */
  lemma RefillOne(c: Config, k: Bucket, now: int, tokens: real, from: int)
    requires c.rate >= 0.0 && RefilledSince(c, k, tokens, from) && k.ts <= now
    ensures Level(c, Some(k), now) >= Min(c.burst as real, tokens + Gain(c.rate, now - from))
  {
    GainAdds(c.rate, k.ts - from, now - k.ts);
  }

  /** Without admissions the key refills at the full rate, up to its capacity. */
  lemma {:induction false} RefillsWhileDenied(c: Config, k: Bucket, gap: seq<int>, to: int, tokens: real, from: int)
    requires c.rate >= 0.0 && RefilledSince(c, k, tokens, from) && Between(k.ts, gap, to) && AllDenied(c, k, gap)
    ensures RefilledSince(c, RunFrom(c, k, gap), tokens, from) && RunFrom(c, k, gap).ts <= to
    decreases |gap|
  {
    if gap != [] {
      RefillOne(c, k, gap[0], tokens, from);
      RefillsWhileDenied(c, Request(c, Some(k), gap[0]), gap[1..], to, tokens, from);
    }
  }

  lemma ResetFills(c: Config, tokens: real, ms: int)
    requires c.rate > 0.0 && ms >= 1000 * Ceil((c.burst as real - tokens) / c.rate)
    ensures tokens + Gain(c.rate, ms) >= c.burst as real
  {
    var x := (c.burst as real - tokens) / c.rate;
    CeilBounds(x);
    assert ms as real / 1000.0 >= x;
    assert ms as real / 1000.0 * c.rate >= x * c.rate;
    assert x * c.rate == c.burst as real - tokens;
  }

  /** On a key that is kept for ever, from any stored state. */
  lemma {:induction false} KeptRetry(c: Config, b: Option<Bucket>, now: int, gap: seq<int>, t: int)
    requires c.rate > 0.0 && c.burst >= 1 && !ReplyOf(c, b, now).allowed
    requires Between(now, gap, t) && AllDenied(c, Request(c, b, now), gap)
    requires t >= now + 1000 * ReplyOf(c, b, now).reset
    ensures ReplyOf(c, Some(RunFrom(c, Request(c, b, now), gap)), t).allowed
  {
    var k := Request(c, b, now);
    assert Gain(c.rate, 0) == 0.0;
    RefillsWhileDenied(c, k, gap, t, k.tokens, now);
    RefillOne(c, RunFrom(c, k, gap), t, k.tokens, now);
    ResetFills(c, k.tokens, t - now);
  }

  lemma {:induction false} KeptOne(c: Config, nows: seq<int>, t: int)
    ensures KeptAfter(c, nows + [t]) == Some(Request(c, KeptAfter(c, nows), t))
  {
    assert (nows + [t])[..|nows|] == nows;
  }

  /** Denied requests of a longer sequence, seen from the key at which they start. */
  lemma {:induction false} GapDenied(c: Config, nows: seq<int>, k: Bucket, gap: seq<int>)
    requires KeptAfter(c, nows) == Some(k)
    requires forall i :: |nows| <= i < |nows + gap| ==> !KeptDecisions(c, nows + gap)[i]
    ensures AllDenied(c, k, gap) && KeptAfter(c, nows + gap) == Some(RunFrom(c, k, gap))
    decreases |gap|
  {
    if gap == [] {
      assert nows + gap == nows;
    } else {
      var first, rest := gap[0], gap[1..];
      var all := nows + gap;
      assert all == nows + [first] + rest && all[..|nows|] == nows;
      DecisionAt(c, all, |nows|);
      assert !KeptDecisions(c, all)[|nows|];
      KeptOne(c, nows, first);
      GapDenied(c, nows + [first], Request(c, Some(k), first), rest);
    }
  }

  /** A request that comes Retry-After seconds after a denial, with only denials in between, is admitted. */
  ghost predicate Honoured(c: Config, nows: seq<int>, gap: seq<int>, t: int)
    requires nows != []
  {
    var last, all := nows[|nows| - 1], nows + gap;
    && !Decisions(c, nows)[|nows| - 1]
    && (forall i :: |nows| <= i < |all| ==> !Decisions(c, all)[i])
    && Between(last, gap, t) && t >= last + 1000 * LastReply(c, nows).reset
    ==> Decisions(c, all + [t])[|all|]
  }

  /**
   Retry-After is honoured: after any sequence of requests whose last one the script
   denies, a request that comes at least Retry-After seconds later, with only denied
   requests in between, is admitted when the capacity is at least one and the rate is
   positive.
   */
  lemma {:induction false} RetryAfterHonoured(c: Config, nows: seq<int>, gap: seq<int>, t: int)
    requires nows != [] && c.rate > 0.0 && c.burst >= 1
    ensures Honoured(c, nows, gap, t)
  {
    var before, last, all := nows[..|nows| - 1], nows[|nows| - 1], nows + gap;
    assert nows == before + [last];
    ExpiryUnobservable(c, before);
    ExpiryUnobservable(c, nows);
    ExpiryUnobservable(c, all);
    ExpiryUnobservable(c, all + [t]);
    KeptReplies(c, before, last);
    DecisionAt(c, all + [t], |all|);
    assert (all + [t])[..|all|] == all;
    if !Decisions(c, nows)[|nows| - 1] && (forall i :: |nows| <= i < |all| ==> !Decisions(c, all)[i])
       && Between(last, gap, t) && t >= last + 1000 * LastReply(c, nows).reset {
      GapDenied(c, nows, Request(c, KeptAfter(c, before), last), gap);
      KeptRetry(c, KeptAfter(c, before), last, gap, t);
    }
  }

  /** For a positive rate the script's reply is that of a key kept for ever. */
  lemma {:induction false} KeptReplies(c: Config, nows: seq<int>, t: int)
    requires c.rate > 0.0
    ensures LastReply(c, nows + [t]).reset == ReplyOf(c, KeptAfter(c, nows), t).reset
    ensures Decisions(c, nows + [t])[|nows|] == ReplyOf(c, KeptAfter(c, nows), t).allowed
    ensures KeptAfter(c, nows + [t]) == Some(Request(c, KeptAfter(c, nows), t))
  {
    assert (nows + [t])[..|nows|] == nows;
    ExpiryUnobservable(c, nows);
    ExpiryUnobservable(c, nows + [t]);
  }

  lemma {:induction false} DrainedDenies(c: Config, nows: seq<int>)
    requires c.rate <= 0.0 && c.burst >= 1 && After(c, nows) == Some(Bucket(0.0, 0))
    ensures After(c, nows + [0]) == Some(Bucket(0.0, 0)) && !Decisions(c, nows + [0])[|nows|]
    ensures LastReply(c, nows + [0]).reset == 0
  {
    SameInstant(c, Bucket(0.0, 0));
    ExpiringOne(c, nows, 0);
    assert (nows + [0])[..|nows|] == nows;
  }

  /** A bucket without refill denies again at once, with Retry-After 0. */
  lemma {:induction false} DeniedAgain(c: Config)
    requires c.rate <= 0.0 && c.burst >= 1
    ensures !Honoured(c, Zeros(c.burst) + [0], [], 0)
  {
    var nows := Zeros(c.burst);
    DrainAtZero(c, c.burst);
    DrainedDenies(c, nows);
    DrainedDenies(c, nows + [0]);
    assert nows + [0] + [] == nows + [0];
  }

  lemma {:induction false} NeverAdmits(c: Config)
    requires c.burst < 1
    ensures exists t :: !Honoured(c, [0], [], t)
  {
    var t := Positive(1000 * LastReply(c, [0]).reset);
    assert [0] + [] == [0] && [0, t][..1] == [0];
    assert !Decisions(c, [0] + [t])[1];
    assert !Honoured(c, [0], [], t);
  }

  /** That holds after every sequence of requests exactly for a positive rate and a capacity of at least one. */
  lemma {:induction false} RetryAfterHonouredIff(c: Config)
    ensures (forall nows, gap, t :: nows != [] ==> Honoured(c, nows, gap, t)) <==> c.rate > 0.0 && c.burst >= 1
  {
    if c.rate > 0.0 && c.burst >= 1 {
      forall nows, gap, t | nows != []
        ensures Honoured(c, nows, gap, t)
      {
        RetryAfterHonoured(c, nows, gap, t);
      }
    } else if c.burst < 1 {
      NeverAdmits(c);
    } else {
      DeniedAgain(c);
    }
  }

  // ------------------------------------------------------------ exact headers

  /** What a request `ms` milliseconds after the last one would find in the bucket, left alone until then. */
  function LevelLater(c: Config, nows: seq<int>, ms: int): real
    requires nows != []
  {
    var t := nows[|nows| - 1] + ms;
    Level(c, Present(c, After(c, nows), t), t)
  }

  lemma SecondsGain(rate: real, s: int)
    ensures Gain(rate, 1000 * s) == s as real * rate
  {
    assert (1000 * s) as real == 1000.0 * s as real;
  }

  /** Fewer whole seconds than the reset do not fill the bucket. */
  lemma TooEarly(c: Config, tokens: real, s: int)
    requires c.rate > 0.0 && 0 <= s < Ceil((c.burst as real - tokens) / c.rate)
    ensures tokens + Gain(c.rate, 1000 * s) < c.burst as real
    ensures s as real < (c.burst as real - tokens) / c.rate
  {
    var x := (c.burst as real - tokens) / c.rate;
    CeilBounds(x);
    SecondsGain(c.rate, s);
    assert s as real <= Ceil(x) as real - 1.0 < x;
    Scaled(s as real, x, c.rate);
    assert x * c.rate == c.burst as real - tokens;
  }

  lemma Scaled(x: real, y: real, rate: real)
    requires rate > 0.0 && x < y
    ensures x * rate < y * rate
  {
  }

  lemma Divided(x: real, y: real, rate: real)
    requires rate > 0.0 && x <= y
    ensures x / rate <= y / rate
  {
  }

  /** A key is not dropped before it has refilled. */
  lemma NotYetExpired(c: Config, tokens: real, s: int)
    requires c.rate > 0.0 && tokens >= 0.0 && s as real < (c.burst as real - tokens) / c.rate
    ensures 1000 * s < Ttl(c)
  {
    var x := c.burst as real / c.rate;
    Divided(c.burst as real - tokens, c.burst as real, c.rate);
    CeilBounds(x * 1000.0);
    assert (1000 * s) as real == s as real * 1000.0 < x * 1000.0;
  }

  lemma {:induction false} StoredKey(c: Config, nows: seq<int>)
    requires nows != [] && c.rate > 0.0
    ensures After(c, nows).Some? && After(c, nows).value.ts == nows[|nows| - 1]
    ensures var k := After(c, nows).value;
      && Min(0.0, c.burst as real) <= k.tokens <= c.burst as real
      && LastReply(c, nows).reset == Ceil((c.burst as real - k.tokens) / c.rate)
  {
    ExpiryUnobservable(c, nows);
    TokensAtLeast(c, nows);
    StoredBelowBurst(c, nows);
  }

  lemma NotFullBefore(c: Config, k: Bucket, s: int)
    requires c.rate > 0.0 && Min(0.0, c.burst as real) <= k.tokens <= c.burst as real
    requires 0 <= s < Ceil((c.burst as real - k.tokens) / c.rate)
    ensures Level(c, Present(c, Some(k), k.ts + 1000 * s), k.ts + 1000 * s) < c.burst as real
  {
    TooEarly(c, k.tokens, s);
    if c.burst >= 0 {
      NotYetExpired(c, k.tokens, s);
    }
  }

  lemma FullAtReset(c: Config, k: Bucket)
    requires c.rate > 0.0 && k.tokens <= c.burst as real
    ensures var r := Ceil((c.burst as real - k.tokens) / c.rate);
      r >= 0 && Level(c, Present(c, Some(k), k.ts + 1000 * r), k.ts + 1000 * r) == c.burst as real
  {
    var x := (c.burst as real - k.tokens) / c.rate;
    Divided(0.0, c.burst as real - k.tokens, c.rate);
    CeilBounds(x);
    ResetFills(c, k.tokens, 1000 * Ceil(x));
  }

  /**
   The reset is exact.  For a positive rate it is the least whole number of seconds after
   which the bucket, left alone, is full again: full then, and not full after any smaller
   number of seconds.
   */
  lemma {:induction false} ResetIsExact(c: Config, nows: seq<int>)
    requires nows != [] && c.rate > 0.0
    ensures var r := LastReply(c, nows).reset;
      && r >= 0 && LevelLater(c, nows, 1000 * r) == c.burst as real
      && forall s :: 0 <= s < r ==> LevelLater(c, nows, 1000 * s) < c.burst as real
  {
    StoredKey(c, nows);
    var k := After(c, nows).value;
    FullAtReset(c, k);
    forall s | 0 <= s < LastReply(c, nows).reset
      ensures LevelLater(c, nows, 1000 * s) < c.burst as real
    {
      NotFullBefore(c, k, s);
    }
  }

  /** `n` more requests in the instant of the last one. */
  function Again(nows: seq<int>, n: nat): (r: seq<int>)
    requires nows != []
    ensures |r| == |nows| + n && r[..|nows|] == nows && forall i :: |nows| <= i < |r| ==> r[i] == nows[|nows| - 1]
  {
    if n == 0 then nows else Again(nows, n - 1) + [nows[|nows| - 1]]
  }

  lemma AtOnce(c: Config, k: Bucket)
    requires k.tokens <= c.burst as real
    ensures Level(c, Some(k), k.ts) == k.tokens
    ensures Level(c, Present(c, Some(k), k.ts), k.ts) == k.tokens
            || (c.burst < 0 && Level(c, Present(c, Some(k), k.ts), k.ts) < 1.0)
  {
    assert Gain(c.rate, 0) == 0.0;
    if c.rate > 0.0 && c.burst >= 0 {
      Divided(0.0, c.burst as real, c.rate);
      CeilBounds(c.burst as real / c.rate * 1000.0);
    }
  }

  /** One more request in the same instant takes a token if there is one. */
  lemma OneMore(c: Config, k: Bucket)
    requires k.tokens <= c.burst as real
    ensures var found := Present(c, Some(k), k.ts);
      && (Level(c, found, k.ts) >= 1.0 <==> k.tokens >= 1.0)
      && (k.tokens >= 1.0 ==> Request(c, found, k.ts) == Bucket(k.tokens - 1.0, k.ts))
  {
    AtOnce(c, k);
  }

  /** The key after n more admissions in the same instant. */
  function Left(k: Bucket, n: nat): Bucket {
    Bucket(k.tokens - n as real, k.ts)
  }

  lemma LeftNext(c: Config, k: Bucket, n: nat)
    requires n > 0 && n as real <= k.tokens <= c.burst as real
    ensures 1.0 <= Left(k, n - 1).tokens <= c.burst as real
    ensures Left(k, n) == Bucket(Left(k, n - 1).tokens - 1.0, k.ts)
  {
  }

  lemma {:induction false} DrainsAtOnce(c: Config, nows: seq<int>, k: Bucket, n: nat)
    requires nows != [] && After(c, nows) == Some(k) && k.ts == nows[|nows| - 1] && k.tokens <= c.burst as real
    requires n == 0 || n as real <= k.tokens
    ensures After(c, Again(nows, n)) == Some(Left(k, n))
  {
    if n == 0 {
      assert Left(k, 0) == k;
    } else {
      LeftNext(c, k, n);
      assert n == 1 || (n - 1) as real <= k.tokens;
      DrainsAtOnce(c, nows, k, n - 1);
      OneMoreStored(c, Again(nows, n - 1), Left(k, n - 1));
    }
  }

  lemma {:induction false} OneMoreStored(c: Config, nows: seq<int>, b: Bucket)
    requires After(c, nows) == Some(b) && 1.0 <= b.tokens <= c.burst as real
    ensures After(c, nows + [b.ts]) == Some(Bucket(b.tokens - 1.0, b.ts))
  {
    OneMore(c, b);
    assert (nows + [b.ts])[..|nows|] == nows;
  }

  lemma {:induction false} LastStored(c: Config, nows: seq<int>)
    requires nows != []
    ensures After(c, nows).Some? && After(c, nows).value.ts == nows[|nows| - 1]
    ensures After(c, nows).value.tokens <= c.burst as real
    ensures LastReply(c, nows).remaining == After(c, nows).value.tokens.Floor
  {
  }

  /**
   Remaining is exact, for every configuration.  After Remaining = k, of further requests in
   the same instant the first k are admitted and the next one is denied.
   */
  lemma {:induction false} RemainingIsExact(c: Config, nows: seq<int>, n: nat)
    requires nows != [] && (n == 0 || n <= LastReply(c, nows).remaining)
    ensures Decisions(c, Again(nows, n + 1))[|nows| + n] <==> n < LastReply(c, nows).remaining
  {
    LastStored(c, nows);
    var k := After(c, nows).value;
    assert n == 0 || n as real <= k.tokens;
    DrainsAtOnce(c, nows, k, n);
    OneMore(c, Left(k, n));
    ExpiringOne(c, Again(nows, n), k.ts);
    assert k.tokens - n as real >= 1.0 <==> n < k.tokens.Floor;
  }
}
