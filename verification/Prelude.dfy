/** Shared vocabulary: optional values and the wrap-around of Go's int64. */
module Prelude {

  datatype Option<+T> = None | Some(value: T)

  const HALF: int := 0x8000_0000_0000_0000
  const FULL: int := 0x1_0000_0000_0000_0000

  predicate IsInt64(x: int) {
    -HALF <= x < HALF
  }

  /** The int64 that Go's arithmetic leaves when the exact result is `x`. */
  function Wrap64(x: int): (r: int)
    ensures -0x8000_0000_0000_0000 <= r < 0x8000_0000_0000_0000
    ensures (x - r) % 0x1_0000_0000_0000_0000 == 0
    ensures r == x <==> IsInt64(x)
  {
    (x + HALF) % FULL - HALF
  }

  /** Two exact results that differ by whole turns leave the same int64. */
  lemma WrapTurns(x: int, k: int)
    ensures Wrap64(x + k * FULL) == Wrap64(x)
  {
    ModTurns(x + HALF, k);
  }

  lemma {:induction false} ModTurns(x: int, k: int)
    ensures (x + k * FULL) % FULL == x % FULL
    decreases if k < 0 then -k else k
  {
    if k > 0 {
      ModTurns(x, k - 1);
    } else if k < 0 {
      ModTurns(x, k + 1);
    }
  }

  /** Wrapping the left factor early does not change a wrapped product. */
  lemma WrapFactor(x: int, y: int)
    ensures Wrap64(Wrap64(x) * y) == Wrap64(x * y)
  {
    var k := (x - Wrap64(x)) / FULL;
    assert Wrap64(x) == x - k * FULL;
    assert Wrap64(x) * y == x * y + (-k * y) * FULL;
    WrapTurns(x * y, -k * y);
  }

  /** Wrapping a summand early does not change a wrapped sum. */
  lemma WrapSummand(x: int, y: int)
    ensures Wrap64(Wrap64(x) + y) == Wrap64(x + y)
  {
    var k := (x - Wrap64(x)) / FULL;
    WrapTurns(x + y, -k);
  }

  /** How many of the flags i, i + 1, ..., j - 1 are set. */
  function Count(flags: seq<bool>, i: nat, j: nat): nat
    requires i <= j <= |flags|
  {
    if i == j then 0 else Count(flags, i, j - 1) + if flags[j - 1] then 1 else 0
  }

  lemma {:induction false} CountPrefix(flags: seq<bool>, more: seq<bool>, i: nat, j: nat)
    requires i <= j <= |flags|
    ensures Count(flags + more, i, j) == Count(flags, i, j)
  {
    if i < j {
      CountPrefix(flags, more, i, j - 1);
    }
  }

  lemma {:induction false} CountPositive(flags: seq<bool>, i: nat, j: nat)
    requires i <= j <= |flags|
    ensures Count(flags, i, j) > 0 <==> exists k :: i <= k < j && flags[k]
  {
    if i < j {
      CountPositive(flags, i, j - 1);
    }
  }

  /** A quantity that each flag raises by two and nothing else changes. */
  lemma {:induction false} CountSteps(xs: seq<int>, flags: seq<bool>, i: nat, j: nat)
    requires |xs| == |flags| + 1 && i <= j <= |flags|
    requires forall k :: 0 <= k < |flags| ==> xs[k + 1] == xs[k] + if flags[k] then 2 else 0
    ensures xs[j] == xs[i] + 2 * Count(flags, i, j)
    decreases j
  {
    if i < j {
      CountSteps(xs, flags, i, j - 1);
    }
  }

  /** The first i pieces, one after the other. */
  function Joined<T>(pieces: seq<seq<T>>, i: nat): seq<T>
    requires i <= |pieces|
  {
    if i == 0 then [] else Joined(pieces, i - 1) + pieces[i - 1]
  }

  /** A sequence that starts empty and to which each step appends its piece. */
  lemma {:induction false} JoinedSteps<T>(xs: seq<seq<T>>, pieces: seq<seq<T>>, i: nat)
    requires |xs| == |pieces| + 1 && i <= |pieces| && xs[0] == []
    requires forall k :: 0 <= k < |pieces| ==> xs[k + 1] == xs[k] + pieces[k]
    ensures xs[i] == Joined(pieces, i)
  {
    if i > 0 {
      JoinedSteps(xs, pieces, i - 1);
    }
  }

  lemma PrefixTransitive<T>(a: seq<T>, b: seq<T>, c: seq<T>)
    requires a <= b && b <= c
    ensures a <= c
  {
    assert c[..|a|] == c[..|b|][..|a|];
  }
}
