/**
 The token-bucket script over exact reals, against a limiter that keeps the whole
 log of admissions and decides by counting.

 The script's key expires.  `Decisions` and `After` are those of the script;
 `KeptDecisions` and `KeptAfter`, on a key that is kept for ever, are a step on the way.
 */
module TokenBucket {
  import opened Prelude

  datatype Config = Config(rate: real, burst: int)

  /** The hash stored under the key. */
  datatype Bucket = Bucket(tokens: real, ts: int)

  datatype Reply = Reply(allowed: bool, remaining: int, reset: int)

  function Min(x: real, y: real): real {
    if x <= y then x else y
  }

  function Ceil(x: real): int {
    -((-x).Floor)
  }

  /** Tokens that `ms` milliseconds earn. */
  function Gain(rate: real, ms: int): real {
    ms as real / 1000.0 * rate
  }

  function Positive(ms: int): int {
    if ms > 0 then ms else 0
  }

  /** Tokens after the refill and before the decision; a missing key starts full. */
  function Level(c: Config, b: Option<Bucket>, now: int): real {
    match b
    case None => c.burst as real
    case Some(k) => Min(c.burst as real, k.tokens + Gain(c.rate, Positive(now - k.ts)))
  }

  function Request(c: Config, b: Option<Bucket>, now: int): Bucket {
    var level := Level(c, b, now);
    Bucket(if level >= 1.0 then level - 1.0 else level, now)
  }

  function ReplyOf(c: Config, b: Option<Bucket>, now: int): Reply {
    var after := Request(c, b, now);
    Reply(Level(c, b, now) >= 1.0, after.tokens.Floor,
          if c.rate > 0.0 then Ceil((c.burst as real - after.tokens) / c.rate) else 0)
  }

  /** The key after a sequence of requests, if it were kept for ever. */
  function KeptAfter(c: Config, nows: seq<int>): Option<Bucket> {
    if nows == [] then None
    else Some(Request(c, KeptAfter(c, nows[..|nows| - 1]), nows[|nows| - 1]))
  }

  /** The decisions on a key that is kept for ever. */
  function KeptDecisions(c: Config, nows: seq<int>): (r: seq<bool>)
    ensures |r| == |nows|
  {
    if nows == [] then []
    else
      var n := |nows| - 1;
      KeptDecisions(c, nows[..n]) + [Level(c, KeptAfter(c, nows[..n]), nows[n]) >= 1.0]
  }

  ghost predicate Nondecreasing(nows: seq<int>) {
    forall i, j :: 0 <= i <= j < |nows| ==> nows[i] <= nows[j]
  }

  // -------------------------------------------------- the limiter that never forgets

  /** What is left of burst + rate * elapsed since request i when request n arrives. */
  function Slack(c: Config, nows: seq<int>, flags: seq<bool>, i: nat, n: nat): real
    requires i <= n < |nows| && n <= |flags|
  {
    c.burst as real + Gain(c.rate, nows[n] - nows[i]) - Count(flags, i, n) as real
  }

  /** Admitting request n keeps every interval that ends with it within burst + rate * elapsed. */
  ghost predicate Fits(c: Config, nows: seq<int>, flags: seq<bool>, n: nat)
    requires n < |nows| && n <= |flags|
  {
    forall i :: 0 <= i <= n ==> Count(flags, i, n) as real + 1.0 <= c.burst as real + Gain(c.rate, nows[n] - nows[i])
  }

  /** The decisions of a limiter that keeps the log and admits whenever the bound allows. */
  ghost function LogDecisions(c: Config, nows: seq<int>): (r: seq<bool>)
    ensures |r| == |nows|
  {
    if nows == [] then []
    else
      var n := |nows| - 1;
      var before := LogDecisions(c, nows[..n]);
      before + [Fits(c, nows, before, n)]
  }

  /** `rate` tokens a second: in 1000 times the milliseconds, the milliseconds times the rate. */
  lemma GainIsRate(rate: real, ms: int)
    ensures 1000.0 * Gain(rate, ms) == ms as real * rate
  {
  }

  lemma GainAdds(rate: real, a: int, b: int)
    ensures Gain(rate, a + b) == Gain(rate, a) + Gain(rate, b)
  {
  }

  /** How the slack of request i changes from one request to the next. */
  lemma {:induction false} SlackStep(c: Config, nows: seq<int>, i: nat, n: nat)
    requires i < n < |nows|
    ensures var f, g := KeptDecisions(c, nows[..n - 1]), KeptDecisions(c, nows[..n]);
      Slack(c, nows, g, i, n)
      == Slack(c, nows, f, i, n - 1) + Gain(c.rate, nows[n] - nows[n - 1]) - if g[n - 1] then 1.0 else 0.0
  {
    assert nows[..n][..n - 1] == nows[..n - 1];
    var f, g := KeptDecisions(c, nows[..n - 1]), KeptDecisions(c, nows[..n]);
    CountPrefix(f, [g[n - 1]], i, n - 1);
    assert g == f + [g[n - 1]];
    GainAdds(c.rate, nows[n - 1] - nows[i], nows[n] - nows[n - 1]);
  }

  /** The level at request n is the least slack over all earlier-or-equal requests. */
  lemma {:induction false} LevelIsLeastSlack(c: Config, nows: seq<int>, n: nat) returns (w: nat)
    requires Nondecreasing(nows) && n < |nows|
    ensures var flags, level := KeptDecisions(c, nows[..n]), Level(c, KeptAfter(c, nows[..n]), nows[n]);
      && (forall i :: 0 <= i <= n ==> level <= Slack(c, nows, flags, i, n))
      && w <= n && level == Slack(c, nows, flags, w, n)
  {
    var flags, level := KeptDecisions(c, nows[..n]), Level(c, KeptAfter(c, nows[..n]), nows[n]);
    assert Slack(c, nows, flags, n, n) == c.burst as real;
    if n == 0 {
      w := 0;
    } else {
      var v := LevelIsLeastSlack(c, nows, n - 1);
      assert nows[..n][..n - 1] == nows[..n - 1];
      assert nows[n - 1] <= nows[n];
      forall i | 0 <= i <= n
        ensures level <= Slack(c, nows, flags, i, n)
      {
        if i < n {
          SlackStep(c, nows, i, n);
        }
      }
      SlackStep(c, nows, v, n);
      w := if level == c.burst as real then n else v;
    }
  }

  lemma {:induction false} FitsIffSlack(c: Config, nows: seq<int>, flags: seq<bool>, n: nat, least: real, w: nat)
    requires w <= n < |nows| && n <= |flags|
    requires forall i :: 0 <= i <= n ==> least <= Slack(c, nows, flags, i, n)
    requires least == Slack(c, nows, flags, w, n)
    ensures Fits(c, nows, flags, n) <==> least >= 1.0
  {
    if least >= 1.0 {
      forall i | 0 <= i <= n
        ensures Count(flags, i, n) as real + 1.0 <= c.burst as real + Gain(c.rate, nows[n] - nows[i])
      {
        assert least <= Slack(c, nows, flags, i, n);
      }
    }
  }

  /** On a key that is kept for ever, the script decides as the limiter that keeps the whole log. */
  lemma {:induction false} KeptIsExact(c: Config, nows: seq<int>)
    requires Nondecreasing(nows)
    ensures KeptDecisions(c, nows) == LogDecisions(c, nows)
  {
    if nows != [] {
      var n := |nows| - 1;
      var before := nows[..n];
      KeptIsExact(c, before);
      var w := LevelIsLeastSlack(c, nows, n);
      var flags := KeptDecisions(c, before);
      FitsIffSlack(c, nows, flags, n, Level(c, KeptAfter(c, before), nows[n]), w);
    }
  }

  /** On such a key no interval between two requests holds more than burst + rate * elapsed admissions. */
  lemma {:induction false} KeptInterval(c: Config, nows: seq<int>, i: nat, j: nat)
    requires Nondecreasing(nows) && i <= j < |nows| && c.rate >= 0.0 && c.burst >= 0
    ensures Count(KeptDecisions(c, nows), i, j + 1) as real <= c.burst as real + Gain(c.rate, nows[j] - nows[i])
  {
    if KeptDecisions(c, nows)[j] {
      RoomWhenAdmitted(c, nows, i, j);
    } else if i < j {
      KeptInterval(c, nows, i, j - 1);
      GainGrows(c.rate, nows[j - 1] - nows[i], nows[j] - nows[i]);
    } else {
      GainGrows(c.rate, 0, 0);
    }
  }

  lemma GainGrows(rate: real, a: int, b: int)
    requires rate >= 0.0 && a <= b
    ensures Gain(rate, a) <= Gain(rate, b)
    ensures a >= 0 ==> Gain(rate, a) >= 0.0
  {
    GainAdds(rate, a, b - a);
  }

  lemma {:induction false} RoomWhenAdmitted(c: Config, nows: seq<int>, i: nat, j: nat)
    requires Nondecreasing(nows) && i <= j < |nows| && KeptDecisions(c, nows)[j]
    ensures Count(KeptDecisions(c, nows), i, j) as real + 1.0 <= c.burst as real + Gain(c.rate, nows[j] - nows[i])
  {
    CountSoFar(c, nows, i, j);
    DecisionAt(c, nows, j);
    var w := LevelIsLeastSlack(c, nows, j);
    assert Level(c, KeptAfter(c, nows[..j]), nows[j]) <= Slack(c, nows, KeptDecisions(c, nows[..j]), i, j);
  }

  /** Later requests do not change the count so far. */
  lemma {:induction false} CountSoFar(c: Config, nows: seq<int>, i: nat, j: nat)
    requires i <= j <= |nows|
    ensures Count(KeptDecisions(c, nows), i, j) == Count(KeptDecisions(c, nows[..j]), i, j)
  {
    DecisionsPrefix(c, nows, j);
    var flags := KeptDecisions(c, nows);
    assert flags == flags[..j] + flags[j..];
    CountPrefix(flags[..j], flags[j..], i, j);
  }

  lemma {:induction false} DecisionAt(c: Config, nows: seq<int>, j: nat)
    requires j < |nows|
    ensures KeptDecisions(c, nows)[j] == (Level(c, KeptAfter(c, nows[..j]), nows[j]) >= 1.0)
  {
    DecisionsPrefix(c, nows, j + 1);
    assert nows[..j + 1][..j] == nows[..j];
    assert KeptDecisions(c, nows)[j] == KeptDecisions(c, nows)[..j + 1][j];
  }

  lemma {:induction false} DecisionsPrefix(c: Config, nows: seq<int>, n: nat)
    requires n <= |nows|
    ensures KeptDecisions(c, nows)[..n] == KeptDecisions(c, nows[..n])
  {
    if n < |nows| {
      var m := |nows| - 1;
      DecisionsPrefix(c, nows[..m], n);
      assert nows[..m][..n] == nows[..n];
      assert KeptDecisions(c, nows)[..n] == KeptDecisions(c, nows[..m])[..n];
    } else {
      assert nows[..n] == nows;
    }
  }

  // ------------------------------------------------------------ arbitrary clocks

  /** The sum of the clock's forward jumps, in milliseconds. */
  function Forward(nows: seq<int>): nat {
    if |nows| <= 1 then 0
    else
      var n := |nows| - 1;
      Forward(nows[..n]) + if nows[n] > nows[n - 1] then nows[n] - nows[n - 1] else 0
  }

  lemma {:induction false} TokensNonnegative(c: Config, nows: seq<int>)
    requires c.rate >= 0.0 && c.burst >= 0 && nows != []
    ensures 0.0 <= KeptAfter(c, nows).value.tokens <= c.burst as real
  {
    if |nows| > 1 {
      TokensNonnegative(c, nows[..|nows| - 1]);
    }
  }

  /** Admissions and tokens together never exceed what the burst and the forward jumps provide. */
  lemma {:induction false} Budget(c: Config, nows: seq<int>)
    requires c.rate >= 0.0 && nows != []
    ensures Count(KeptDecisions(c, nows), 0, |nows|) as real + KeptAfter(c, nows).value.tokens
            <= c.burst as real + Gain(c.rate, Forward(nows))
  {
    var n := |nows| - 1;
    var flags := KeptDecisions(c, nows[..n]);
    CountPrefix(flags, [KeptDecisions(c, nows)[n]], 0, n);
    if n > 0 {
      Budget(c, nows[..n]);
      assert KeptAfter(c, nows[..n]).value.ts == nows[n - 1];
      GainAdds(c.rate, Forward(nows[..n]), Positive(nows[n] - nows[n - 1]));
    }
  }

  /** Nor, for a clock that may run backwards, do all requests exceed burst + rate * (forward jumps). */
  lemma {:induction false} KeptTotal(c: Config, nows: seq<int>)
    requires c.rate >= 0.0 && c.burst >= 0
    ensures Count(KeptDecisions(c, nows), 0, |nows|) as real <= c.burst as real + Gain(c.rate, Forward(nows))
  {
    if nows != [] {
      Budget(c, nows);
      TokensNonnegative(c, nows);
    }
  }

  // ------------------------------------------------------------------ key expiry

  /** Milliseconds after which an idle key is dropped. */
  function Ttl(c: Config): int {
    if c.rate > 0.0 then Ceil(c.burst as real / c.rate * 1000.0) + 1000 else 1000
  }

  /** What Redis finds under the key at `now`. */
  function Present(c: Config, b: Option<Bucket>, now: int): Option<Bucket> {
    if b.Some? && now - b.value.ts >= Ttl(c) then None else b
  }

  /** The script's key after a sequence of requests. */
  function After(c: Config, nows: seq<int>): Option<Bucket> {
    if nows == [] then None
    else
      var n := |nows| - 1;
      Some(Request(c, Present(c, After(c, nows[..n]), nows[n]), nows[n]))
  }

  /** The decisions of the script on a sequence of requests. */
  function Decisions(c: Config, nows: seq<int>): (r: seq<bool>)
    ensures |r| == |nows|
  {
    if nows == [] then []
    else
      var n := |nows| - 1;
      Decisions(c, nows[..n]) + [Level(c, Present(c, After(c, nows[..n]), nows[n]), nows[n]) >= 1.0]
  }

  lemma CeilBounds(x: real)
    ensures x <= Ceil(x) as real < x + 1.0
  {
  }

  /** A key that has been idle for its time to live has refilled completely. */
  lemma IdleMeansFull(c: Config, k: Bucket, now: int)
    requires c.rate > 0.0 && now - k.ts >= Ttl(c)
    requires k.tokens >= Min(0.0, c.burst as real)
    ensures Level(c, Some(k), now) == c.burst as real
  {
    var x := c.burst as real / c.rate * 1000.0;
    CeilBounds(x);
    var ms := now - k.ts;
    assert ms as real >= x + 999.0;
    if c.burst >= 0 {
      assert ms as real / 1000.0 >= c.burst as real / c.rate;
      assert ms as real / 1000.0 * c.rate >= c.burst as real / c.rate * c.rate;
    } else {
      assert Positive(ms) >= 0;
    }
  }

  lemma {:induction false} TokensAtLeast(c: Config, nows: seq<int>)
    requires c.rate > 0.0 && nows != []
    ensures KeptAfter(c, nows).value.tokens >= Min(0.0, c.burst as real)
  {
    if |nows| > 1 {
      TokensAtLeast(c, nows[..|nows| - 1]);
    }
  }

  /** With a positive rate, the key's expiry changes neither a decision nor the stored tokens, whatever the clock. */
  lemma {:induction false} ExpiryUnobservable(c: Config, nows: seq<int>)
    requires c.rate > 0.0
    ensures After(c, nows) == KeptAfter(c, nows)
    ensures Decisions(c, nows) == KeptDecisions(c, nows)
  {
    if nows != [] {
      var n := |nows| - 1;
      ExpiryUnobservable(c, nows[..n]);
      if n > 0 {
        TokensAtLeast(c, nows[..n]);
        var k := KeptAfter(c, nows[..n]).value;
        if nows[n] - k.ts >= Ttl(c) {
          IdleMeansFull(c, k, nows[n]);
        }
      }
    }
  }

  /** `n` requests at time 0. */
  function Zeros(n: nat): (r: seq<int>)
    ensures |r| == n && forall i :: 0 <= i < n ==> r[i] == 0
  {
    if n == 0 then [] else Zeros(n - 1) + [0]
  }

  /** Nothing refills, leaks or expires within one instant. */
  lemma SameInstant(c: Config, k: Bucket)
    requires c.rate <= 0.0 && k.tokens <= c.burst as real
    ensures Level(c, Some(k), k.ts) == k.tokens && Present(c, Some(k), k.ts) == Some(k)
  {
    assert Gain(c.rate, 0) == 0.0;
  }

  lemma {:induction false} DrainAtZero(c: Config, n: nat)
    requires c.rate <= 0.0 && 1 <= n <= c.burst
    ensures KeptAfter(c, Zeros(n)) == Some(Bucket((c.burst - n) as real, 0))
    ensures After(c, Zeros(n)) == KeptAfter(c, Zeros(n))
    ensures Decisions(c, Zeros(n))[n - 1]
  {
    assert Zeros(n)[..n - 1] == Zeros(n - 1);
    if n > 1 {
      DrainAtZero(c, n - 1);
      SameInstant(c, Bucket((c.burst - (n - 1)) as real, 0));
    }
  }

  lemma {:induction false} AllAtZero(c: Config, n: nat)
    requires c.rate <= 0.0 && n <= c.burst
    ensures Count(Decisions(c, Zeros(n)), 0, n) == n
  {
    if n > 0 {
      assert Zeros(n)[..n - 1] == Zeros(n - 1);
      AllAtZero(c, n - 1);
      DrainAtZero(c, n);
      CountPrefix(Decisions(c, Zeros(n - 1)), [Decisions(c, Zeros(n))[n - 1]], 0, n - 1);
    }
  }

  /** As many requests at time 0 as the capacity allows, and one a second later. */
  function Comeback(c: Config): (r: seq<int>)
    requires c.burst >= 1
    ensures |r| == c.burst + 1 && Nondecreasing(r) && r[0] == 0 && r[c.burst] == 1000
  {
    Zeros(c.burst) + [1000]
  }

  /** Without refill a key that expires after one second of silence comes back full. */
  lemma {:induction false} ComesBackFull(c: Config)
    requires c.rate <= 0.0 && c.burst >= 1
    ensures Decisions(c, Comeback(c))[c.burst] && !KeptDecisions(c, Comeback(c))[c.burst]
    ensures Count(Decisions(c, Comeback(c)), 0, c.burst + 1) == c.burst + 1
  {
    var n, nows := c.burst, Comeback(c);
    assert nows[..n] == Zeros(n);
    DrainAtZero(c, n);
    AllAtZero(c, n);
    assert !KeptDecisions(c, nows)[n] by {
      assert Gain(c.rate, 1000) == c.rate;
    }
    assert Decisions(c, nows)[n];
    CountPrefix(Decisions(c, Zeros(n)), [Decisions(c, nows)[n]], 0, n);
    assert Decisions(c, nows) == Decisions(c, Zeros(n)) + [Decisions(c, nows)[n]];
  }

  /** And not before: one millisecond earlier the drained key is still there. */
  lemma {:induction false} StillDrained(c: Config)
    requires c.rate <= 0.0 && c.burst >= 1
    ensures !Decisions(c, Zeros(c.burst) + [999])[c.burst]
  {
    var nows := Zeros(c.burst) + [999];
    assert nows[..c.burst] == Zeros(c.burst);
    DrainAtZero(c, c.burst);
    assert Gain(c.rate, 999) <= 0.0;
  }

  lemma {:induction false} NothingAdmitted(c: Config, nows: seq<int>)
    requires c.burst < 1
    ensures Decisions(c, nows) == KeptDecisions(c, nows)
  {
    if nows != [] {
      NothingAdmitted(c, nows[..|nows| - 1]);
    }
  }

  /** Key expiry is unobservable exactly for a positive rate or a capacity below one. */
  lemma {:induction false} ExpiryUnobservableIff(c: Config)
    ensures (forall nows :: Nondecreasing(nows) ==> Decisions(c, nows) == KeptDecisions(c, nows))
            <==> c.rate > 0.0 || c.burst < 1
  {
    if c.rate > 0.0 {
      forall nows
        ensures Decisions(c, nows) == KeptDecisions(c, nows)
      {
        ExpiryUnobservable(c, nows);
      }
    } else if c.burst < 1 {
      forall nows
        ensures Decisions(c, nows) == KeptDecisions(c, nows)
      {
        NothingAdmitted(c, nows);
      }
    } else {
      ComesBackFull(c);
    }
  }

  // ------------------------------------------------------- the script is exact

  /**
   The bucket is exact.  For nondecreasing arrival times, and a positive rate or a
   capacity below one, the script denies a request if and only if admitting it would
   make some interval that starts at an earlier or equal request i hold more than
   burst + rate * (t_n - t_i) admissions: it decides as the limiter that keeps the
   whole log.
   */
  lemma {:induction false} BucketIsExact(c: Config, nows: seq<int>)
    requires Nondecreasing(nows) && (c.rate > 0.0 || c.burst < 1)
    ensures Decisions(c, nows) == LogDecisions(c, nows)
  {
    KeptIsExact(c, nows);
    if c.rate > 0.0 {
      ExpiryUnobservable(c, nows);
    } else {
      NothingAdmitted(c, nows);
    }
  }

  /** The condition is exact: for every other configuration some sequence of requests is decided otherwise. */
  lemma {:induction false} BucketIsExactIff(c: Config)
    ensures (forall nows :: Nondecreasing(nows) ==> Decisions(c, nows) == LogDecisions(c, nows))
            <==> c.rate > 0.0 || c.burst < 1
  {
    if c.rate > 0.0 || c.burst < 1 {
      forall nows | Nondecreasing(nows)
        ensures Decisions(c, nows) == LogDecisions(c, nows)
      {
        BucketIsExact(c, nows);
      }
    } else {
      ComesBackFull(c);
      KeptIsExact(c, Comeback(c));
    }
  }

  /** The configurations whose admissions the rate bounds. */
  predicate RateBounds(c: Config) {
    c.burst >= 0 && (c.rate > 0.0 || (c.burst == 0 && c.rate == 0.0))
  }

  /** The requests i to j hold at most burst + rate * elapsed admissions of the script. */
  predicate WithinRate(c: Config, nows: seq<int>, i: nat, j: nat)
    requires i <= j < |nows|
  {
    Count(Decisions(c, nows), i, j + 1) as real <= c.burst as real + Gain(c.rate, nows[j] - nows[i])
  }

  /** No interval between two requests ever holds more than burst + rate * elapsed admissions. */
  lemma {:induction false} IntervalBound(c: Config, nows: seq<int>, i: nat, j: nat)
    requires Nondecreasing(nows) && i <= j < |nows| && RateBounds(c)
    ensures WithinRate(c, nows, i, j)
  {
    var n := Count(Decisions(c, nows), i, j + 1);
    assert n == Count(KeptDecisions(c, nows), i, j + 1) by {
      if c.rate > 0.0 {
        ExpiryUnobservable(c, nows);
      } else {
        NothingAdmitted(c, nows);
      }
    }
    KeptInterval(c, nows, i, j);
  }

  /** That holds on every nondecreasing sequence exactly for those configurations. */
  lemma {:induction false} IntervalBoundIff(c: Config)
    ensures (forall nows, i, j :: Nondecreasing(nows) && 0 <= i <= j < |nows| ==> WithinRate(c, nows, i, j))
            <==> RateBounds(c)
  {
    if RateBounds(c) {
      forall nows, i, j | Nondecreasing(nows) && 0 <= i <= j < |nows|
        ensures WithinRate(c, nows, i, j)
      {
        IntervalBound(c, nows, i, j);
      }
    } else if c.burst >= 1 {
      ComesBackFull(c);
      assert Gain(c.rate, 1000) == c.rate;
      assert !WithinRate(c, Comeback(c), 0, c.burst);
    } else {
      EmptyBucketLeaks(c);
    }
  }

  lemma EmptyBucketLeaks(c: Config)
    requires c.burst < 1 && !RateBounds(c)
    ensures Nondecreasing([0, 1000])
    ensures !WithinRate(c, [0, 1000], 0, 0) || !WithinRate(c, [0, 1000], 0, 1)
  {
    assert Gain(c.rate, 0) == 0.0;
    assert Gain(c.rate, 1000) == c.rate;
  }

  /** All requests together hold at most burst + rate * (forward jumps of the clock) admissions of the script. */
  predicate WithinBudget(c: Config, nows: seq<int>) {
    Count(Decisions(c, nows), 0, |nows|) as real <= c.burst as real + Gain(c.rate, Forward(nows))
  }

  /** For a clock that may run backwards, total admissions are at most burst + rate * (forward jumps). */
  lemma {:induction false} TotalBound(c: Config, nows: seq<int>)
    requires RateBounds(c)
    ensures WithinBudget(c, nows)
  {
    var n := Count(Decisions(c, nows), 0, |nows|);
    assert n == Count(KeptDecisions(c, nows), 0, |nows|) by {
      if c.rate > 0.0 {
        ExpiryUnobservable(c, nows);
      } else {
        NothingAdmitted(c, nows);
      }
    }
    assert n as real <= c.burst as real + Gain(c.rate, Forward(nows)) by {
      KeptTotal(c, nows);
    }
  }

  lemma {:induction false} ForwardZeros(n: nat)
    ensures Forward(Zeros(n)) == 0
  {
    if n > 1 {
      assert Zeros(n)[..n - 1] == Zeros(n - 1);
      ForwardZeros(n - 1);
    }
  }

  /** That holds on every sequence, whatever the clock, exactly for the same configurations. */
  lemma {:induction false} TotalBoundIff(c: Config)
    ensures (forall nows :: WithinBudget(c, nows)) <==> RateBounds(c)
  {
    if RateBounds(c) {
      forall nows
        ensures WithinBudget(c, nows)
      {
        TotalBound(c, nows);
      }
    } else if c.burst >= 1 {
      ComesBackFull(c);
      assert Comeback(c)[..c.burst] == Zeros(c.burst);
      ForwardZeros(c.burst);
      assert Forward(Comeback(c)) == 1000;
      OverBudget(c, Comeback(c));
    } else {
      EmptyBudgetLeaks(c);
    }
  }

  lemma {:induction false} OverBudget(c: Config, nows: seq<int>)
    requires c.rate <= 0.0 && Forward(nows) == 1000 && Count(Decisions(c, nows), 0, |nows|) > c.burst
    ensures !WithinBudget(c, nows)
  {
    assert Gain(c.rate, 1000) == c.rate;
  }

  lemma EmptyBudgetLeaks(c: Config)
    requires c.burst < 1 && !RateBounds(c)
    ensures !WithinBudget(c, []) || !WithinBudget(c, [0, 1000])
  {
    assert Gain(c.rate, 0) == 0.0;
    assert Gain(c.rate, 1000) == c.rate;
    assert [0, 1000][..1] == [0];
  }
}
