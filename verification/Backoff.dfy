// internal/config/config.go, GetReconnectBackoff: an int64 nanosecond register is doubled `attempt` times and
// clamped only afterwards.
module Backoff {
  import opened Config

  const SECOND := 1_000_000_000
  const TWO63 := 0x8000_0000_0000_0000
  const TWO64 := 0x1_0000_0000_0000_0000

  /** Two's complement wrap-around of a 64-bit signed register. */
  function Wrap64(x: int): (r: int)
    ensures -TWO63 <= r < TWO63
    ensures (x - r) % TWO64 == 0
  {
    var m := x % TWO64;
    if m >= TWO63 then m - TWO64 else m
  }

  function Pow2(n: nat): (r: nat)
    ensures r > 0
  {
    if n == 0 then 1 else 2 * Pow2(n - 1)
  }

  lemma WrapDouble(x: int)
    ensures Wrap64(2 * Wrap64(x)) == Wrap64(2 * x)
  {
    var k := (x - Wrap64(x)) / TWO64;
    assert 2 * x == 2 * Wrap64(x) + 2 * k * TWO64;
  }

  /** The backoff the program waits, in nanoseconds. */
  function Backoff(initial: int, max: int, attempt: nat): int {
    var register := Wrap64(initial * SECOND * Pow2(attempt));
    if register > Wrap64(max * SECOND) then Wrap64(max * SECOND) else register
  }

  method GetReconnectBackoff(initial: int, max: int, attempt: nat) returns (backoff: int)
    ensures backoff == Backoff(initial, max, attempt)
  {
    backoff := Wrap64(initial * SECOND);
    var i := 0;
    while i < attempt
      invariant 0 <= i <= attempt
      invariant backoff == Wrap64(initial * SECOND * Pow2(i))
    {
      WrapDouble(initial * SECOND * Pow2(i));
      assert 2 * (initial * SECOND * Pow2(i)) == initial * SECOND * Pow2(i + 1);
      backoff := Wrap64(backoff * 2);
      i := i + 1;
    }
    if backoff > Wrap64(max * SECOND) {
      backoff := Wrap64(max * SECOND);
    }
  }

  /** What exponential backoff with a cap is meant to be: min(initial * 2^attempt, max) seconds. */
  function Wanted(initial: int, max: int, attempt: nat): int {
    (if initial * Pow2(attempt) <= max then initial * Pow2(attempt) else max) * SECOND
  }

  /** The doubling loop does not overflow; a caller can check this before the call. */
  predicate Fits(initial: int, attempt: nat) {
    initial * SECOND * Pow2(attempt) < TWO63
  }

  lemma FitsIsExact(initial: int, max: int, attempt: nat)
    requires BackoffInRange(initial, max) && Fits(initial, attempt)
    ensures Backoff(initial, max, attempt) == Wanted(initial, max, attempt)
  {
    var p := initial * Pow2(attempt);
    assert p > 0 by { assert initial >= 1 && Pow2(attempt) >= 1; }
    assert initial * SECOND * Pow2(attempt) == p * SECOND;
  }

  /** The first attempt that overflows always yields a negative duration. */
  lemma FirstOverflowIsNegative(initial: int, max: int, attempt: nat)
    requires BackoffInRange(initial, max) && !Fits(initial, attempt)
    requires attempt == 0 || Fits(initial, attempt - 1)
    ensures Backoff(initial, max, attempt) < 0 < Wanted(initial, max, attempt)
  {
    if attempt > 0 {
      assert initial * SECOND * Pow2(attempt) == 2 * (initial * SECOND * Pow2(attempt - 1));
    }
    assert initial * Pow2(attempt) > 0 by { assert initial >= 1 && Pow2(attempt) >= 1; }
  }

  lemma {:induction false} FitsDownward(initial: int, k: nat, n: nat)
    requires initial >= 1 && k <= n && Fits(initial, n)
    ensures Fits(initial, k)
    decreases n - k
  {
    if k < n {
      FitsDownward(initial, k + 1, n);
      assert initial * SECOND * Pow2(k + 1) == 2 * (initial * SECOND * Pow2(k));
      assert initial * SECOND * Pow2(k) >= 0 by { assert initial * SECOND >= 0 && Pow2(k) >= 0; }
    }
  }

  lemma {:induction false} FirstOverflow(initial: int, n: nat) returns (a: nat)
    requires !Fits(initial, n)
    ensures a <= n && !Fits(initial, a) && (a == 0 || Fits(initial, a - 1))
  {
    if n == 0 || Fits(initial, n - 1) {
      a := n;
    } else {
      a := FirstOverflow(initial, n - 1);
    }
  }

  /** For one accepted configuration: the backoff is right on all attempts up to n exactly when attempt n fits. */
  lemma CorrectUpToIffFits(initial: int, max: int, n: nat)
    requires BackoffInRange(initial, max)
    ensures (forall k: nat | k <= n :: Backoff(initial, max, k) == Wanted(initial, max, k)) <==> Fits(initial, n)
  {
    if Fits(initial, n) {
      forall k: nat | k <= n ensures Backoff(initial, max, k) == Wanted(initial, max, k) {
        FitsDownward(initial, k, n);
        FitsIsExact(initial, max, k);
      }
    } else {
      var a := FirstOverflow(initial, n);
      FirstOverflowIsNegative(initial, max, a);
    }
  }

  /** For all accepted configurations at once: attempt a is right for every one of them exactly when a <= 21. */
  lemma CorrectForAllConfigsIff21(attempt: nat)
    ensures (forall initial: int, max: int | BackoffInRange(initial, max) ::
               Backoff(initial, max, attempt) == Wanted(initial, max, attempt))
            <==> attempt <= 21
  {
    if attempt <= 21 {
      forall initial: int, max: int | BackoffInRange(initial, max)
        ensures Backoff(initial, max, attempt) == Wanted(initial, max, attempt)
      {
        KnownPowers();
        assert Fits(initial, 21);
        FitsDownward(initial, attempt, 21);
        FitsIsExact(initial, max, attempt);
      }
    } else {
      var initial, max := WrongConfig(attempt);
      assert initial * Pow2(attempt) > 0 by { assert initial >= 1 && Pow2(attempt) >= 1; }
      assert Wanted(initial, max, attempt) > 0;
    }
  }

  /** From attempt 55 on, 10^9 * 2^attempt is a multiple of 2^64 and the backoff collapses to zero. */
  lemma ZeroFrom55(initial: int, max: int, attempt: nat)
    requires BackoffInRange(initial, max) && attempt >= 55
    ensures Backoff(initial, max, attempt) == 0
  {
    KnownPowers();
    PowerSum(55, attempt - 55);
    Regroup(initial, Pow2(attempt - 55));
    MultipleWraps(initial * (1953125 * Pow2(attempt - 55)));
  }

  lemma Regroup(initial: int, p: int)
    ensures initial * SECOND * (0x80_0000_0000_0000 * p) == TWO64 * (initial * (1953125 * p))
  {
    var c := SECOND * 0x80_0000_0000_0000;
    assert c == TWO64 * 1953125;
    assert initial * SECOND * (0x80_0000_0000_0000 * p) == initial * (c * p);
    assert c * p == TWO64 * (1953125 * p);
    assert initial * (TWO64 * (1953125 * p)) == TWO64 * (initial * (1953125 * p));
  }

  lemma MultipleWraps(k: int)
    ensures Wrap64(TWO64 * k) == 0
  {
  }

  /** A configuration Validate accepts whose wrapped register is not positive at the given attempt. */
  lemma WrongConfig(attempt: nat) returns (initial: int, max: int)
    requires attempt >= 22
    ensures BackoffInRange(initial, max) && Backoff(initial, max, attempt) <= 0
  {
    max := 3600;
    if attempt >= 55 {
      initial := 1;
      ZeroFrom55(initial, max, attempt);
    } else if attempt == 22 {
      initial := 3600;
      KnownPowers();
    } else if attempt <= 34 {
      initial := PowerWitness(attempt, 34);
    } else if attempt <= 42 {
      initial := HighBit(attempt);
    } else {
      initial := PowerWitness(attempt, 54);
    }
  }

  /** 10^9 * 2^34 lies in [2^63, 2^64) and 10^9 * 2^54 is 2^63 modulo 2^64: both wrap to a negative number. */
  lemma PowerWitness(attempt: nat, total: nat) returns (initial: int)
    requires (total == 34 || total == 54) && total - 11 <= attempt <= total
    ensures 1 <= initial <= 3600 && Wrap64(initial * SECOND * Pow2(attempt)) < 0
  {
    hide Pow2;
    KnownPowers();
    PowerMonotone(total - attempt, 11);
    PowerSum(total - attempt, attempt);
    initial := Pow2(total - attempt);
    Commute(initial, Pow2(attempt));
  }

  lemma Commute(x: int, y: int)
    ensures x * SECOND * y == SECOND * (x * y)
  {
  }

  /** Attempts 35..42: 10^9 = 2^9 * 1953125, and a shift by at most 2 brings a set bit of 1953125 to bit 63. */
  lemma HighBit(attempt: nat) returns (initial: int)
    requires 35 <= attempt <= 42
    ensures initial in {1, 2, 4} && Wrap64(initial * SECOND * Pow2(attempt)) < 0
  {
    hide Pow2;
    KnownPowers();
    PowerSum(35, attempt - 35);
    SmallPowers(attempt - 35);
    initial := if attempt == 41 then 4 else if attempt == 37 || attempt == 42 then 2 else 1;
  }

  lemma SmallPowers(d: nat)
    requires d <= 13
    ensures Pow2(d) == [1, 2, 4, 8, 16, 32, 64, 128, 256, 512, 1024, 2048, 4096, 8192][d]
  {
    if d > 0 {
      SmallPowers(d - 1);
    }
  }

  lemma KnownPowers()
    ensures Pow2(11) == 0x800 && Pow2(21) == 0x20_0000 && Pow2(22) == 0x40_0000
    ensures Pow2(34) == 0x4_0000_0000 && Pow2(35) == 0x8_0000_0000
    ensures Pow2(54) == 0x40_0000_0000_0000 && Pow2(55) == 0x80_0000_0000_0000
  {
    SmallPowers(10);
    SmallPowers(11);
    SmallPowers(12);
    SmallPowers(13);
    PowerSum(11, 10);
    PowerSum(11, 11);
    PowerSum(21, 13);
    PowerSum(22, 13);
    PowerSum(34, 10);
    PowerSum(44, 10);
  }

  lemma {:induction false} PowerSum(a: nat, b: nat)
    ensures Pow2(a + b) == Pow2(a) * Pow2(b)
    decreases b
  {
    if b > 0 {
      PowerSum(a, b - 1);
    }
  }

  lemma {:induction false} PowerMonotone(a: nat, b: nat)
    requires a <= b
    ensures Pow2(a) <= Pow2(b)
    decreases b - a
  {
    if a < b {
      PowerMonotone(a + 1, b);
    }
  }

  /** While it fits, the backoff never decreases and stays between the two configured bounds. */
  lemma SafeBackoffShape(initial: int, max: int, a: nat, b: nat)
    requires BackoffInRange(initial, max) && a <= b && Fits(initial, b)
    ensures initial * SECOND <= Backoff(initial, max, a) <= Backoff(initial, max, b) <= max * SECOND
  {
    FitsDownward(initial, a, b);
    FitsIsExact(initial, max, a);
    FitsIsExact(initial, max, b);
    WantedShape(initial, max, a, b);
  }

  lemma WantedShape(initial: int, max: int, a: nat, b: nat)
    requires BackoffInRange(initial, max) && a <= b
    ensures initial * SECOND <= Wanted(initial, max, a) <= Wanted(initial, max, b) <= max * SECOND
  {
    PowerMonotone(a, b);
    ScaleMonotone(initial, 1, Pow2(a));
    ScaleMonotone(initial, Pow2(a), Pow2(b));
  }

  lemma ScaleMonotone(k: int, x: int, y: int)
    requires k >= 0 && x <= y
    ensures k * x <= k * y
  {
  }
}
