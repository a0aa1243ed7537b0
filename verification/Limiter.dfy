/** The limiter's stored state for one key, and the check that Allow performs on it. */
module Limiter {
  import opened Prelude
  import T = TokenBucket
  import S = SlidingWindow

  datatype Config = Config(mode: string, rate: real, burst: int, windowMs: int)

  datatype Result = Result(allowed: bool, limit: int, remaining: int, resetSec: int)

  /** Go's conversion of a float to an int truncates toward zero. */
  function Truncate(x: real): (n: int)
    ensures x >= 0.0 ==> n as real <= x < n as real + 1.0
    ensures x < 0.0 ==> n as real - 1.0 < x <= n as real
  {
    if x >= 0.0 then x.Floor else -((-x).Floor)
  }

  function TokenConfig(c: Config): T.Config {
    T.Config(c.rate, c.burst)
  }

  function WindowConfig(c: Config): S.Config {
    S.Config(c.windowMs, Truncate(c.rate))
  }

  /** Tokens at `now`: the capacity for a key that is gone, else the stored tokens and the refill since. */
  function LevelNow(c: Config, b: Option<T.Bucket>, now: int): real {
    var burst := c.burst as real;
    var ttl := if c.rate > 0.0 then T.Ceil(burst / c.rate * 1000.0) + 1000 else 1000;
    if b.None? || now - b.value.ts >= ttl then burst
    else
      var elapsed := if now > b.value.ts then now - b.value.ts else 0;
      var refilled := b.value.tokens + elapsed as real / 1000.0 * c.rate;
      if refilled < burst then refilled else burst
  }

  lemma LevelNowIsLevel(c: Config, b: Option<T.Bucket>, now: int)
    ensures LevelNow(c, b, now) == T.Level(TokenConfig(c), T.Present(TokenConfig(c), b, now), now)
  {
  }

  class Limiter {
    var bucket: Option<T.Bucket>     // hash under the key, token mode
    var zset: Option<S.Key>           // sorted set under the key, sliding mode
    var counter: nat

    constructor ()
      ensures bucket == None && zset == None && counter == 0
    {
      bucket, zset, counter := None, None, 0;
    }

    /** The token script, line by line, on the key as Redis finds it. */
    method TokenScript(c: Config, now: int) returns (r: Result)
      modifies this`bucket
      ensures var found := T.Present(TokenConfig(c), old(bucket), now);
        && bucket == Some(T.Request(TokenConfig(c), found, now))
        && var reply := T.ReplyOf(TokenConfig(c), found, now);
           r == Result(reply.allowed, c.burst, reply.remaining, reply.reset)
      ensures var level := LevelNow(c, old(bucket), now);
        && r.allowed == (level >= 1.0)
        && bucket == Some(T.Bucket(if r.allowed then level - 1.0 else level, now))
        && r.limit == c.burst && r.remaining == bucket.value.tokens.Floor
        && r.resetSec == if c.rate > 0.0 then T.Ceil((c.burst as real - bucket.value.tokens) / c.rate) else 0
    {
      var found := T.Present(TokenConfig(c), bucket, now);
      var burst := c.burst as real;
      var tokens, ts := burst, now;
      if found.Some? {
        tokens, ts := found.value.tokens, found.value.ts;
      }
      var elapsed := (if now - ts > 0 then now - ts else 0) as real / 1000.0;
      assert elapsed * c.rate == T.Gain(c.rate, T.Positive(now - ts));
      assert found.None? ==> elapsed * c.rate == 0.0;
      tokens := if burst <= tokens + elapsed * c.rate then burst else tokens + elapsed * c.rate;
      assert tokens == T.Level(TokenConfig(c), found, now);
      var allowed := false;
      if tokens >= 1.0 {
        allowed := true;
        tokens := tokens - 1.0;
      }
      bucket := Some(T.Bucket(tokens, now));
      var reset := 0;
      if c.rate > 0.0 {
        reset := T.Ceil((burst - tokens) / c.rate);
      }
      r := Result(allowed, c.burst, tokens.Floor, reset);
      LevelNowIsLevel(c, old(bucket), now);
    }

    /** The sliding script, line by line, on the key as Redis finds it. */
    method SlidingScript(c: Config, a: S.Arrival) returns (r: Result)
      modifies this`zset
      ensures zset == Some(S.Request(WindowConfig(c), old(zset), a))
      ensures var reply := S.ReplyOf(WindowConfig(c), old(zset), a);
        r == Result(reply.allowed, Truncate(c.rate), reply.remaining, reply.reset)
      ensures zset.Some? && zset.value.expires == a.now + c.windowMs && r.limit == Truncate(c.rate)
      ensures var before :=
          if old(zset).Some? && a.now < old(zset).value.expires then old(zset).value.scores else map[];
        var kept := map m | m in before && !(0 <= before[m] <= a.now - c.windowMs) :: before[m];
        && r.allowed == (|kept| < r.limit)
        && zset.value.scores == (if r.allowed then kept[S.Member(a.now, a.serial) := a.now] else kept)
        && r.remaining == (if r.allowed then r.limit - |kept| - 1 else 0)
        && 1000 * (r.resetSec - 1) < c.windowMs <= 1000 * r.resetSec
    {
      var limit := Truncate(c.rate);
      var scores := S.Prune(S.Present(zset, a.now), a.now - c.windowMs);
      var count := |scores|;
      var allowed := false;
      if count < limit {
        allowed := true;
        scores := scores[S.MemberOf(a) := a.now];
        count := count + 1;
      }
      zset := Some(S.Key(scores, a.now + c.windowMs));
      var remaining := limit - count;
      if remaining < 0 {
        remaining := 0;
      }
      r := Result(allowed, limit, remaining, S.CeilSeconds(c.windowMs));
    }

    /** One rate-limit check: mode "sliding" uses the window, any other mode the bucket. */
    method Allow(c: Config, now: int) returns (r: Result)
      modifies this
      ensures c.mode == "sliding" ==>
        var a := S.Arrival(now, old(counter) + 1);
        && counter == old(counter) + 1 && bucket == old(bucket)
        && zset == Some(S.Request(WindowConfig(c), old(zset), a))
        && var reply := S.ReplyOf(WindowConfig(c), old(zset), a);
           r == Result(reply.allowed, Truncate(c.rate), reply.remaining, reply.reset)
      ensures c.mode != "sliding" ==>
        && counter == old(counter) && zset == old(zset)
        && var found := T.Present(TokenConfig(c), old(bucket), now);
           var reply := T.ReplyOf(TokenConfig(c), found, now);
           && bucket == Some(T.Request(TokenConfig(c), found, now))
           && r == Result(reply.allowed, c.burst, reply.remaining, reply.reset)
    {
      if c.mode == "sliding" {
        counter := counter + 1;
        r := SlidingScript(c, S.Arrival(now, counter));
      } else {
        r := TokenScript(c, now);
      }
    }
  }
}
