/** chain/chain.go, backoff: exponential pauses with jitter, in nanoseconds of a 64-bit time.Duration. */
module Backoff {
  import opened Options

  const BASE := 500_000_000
  const TWO_63 := 0x8000_0000_0000_0000
  const TWO_64 := 0x1_0000_0000_0000_0000

  function Pow2(n: nat): (p: nat)
    ensures p >= 1
  {
    if n == 0 then 1 else 2 * Pow2(n - 1)
  }

  /** Two's-complement wrap-around to 64 bits. */
  function Wrap64(x: int): int {
    var m := x % TWO_64;
    if m >= TWO_63 then m - TWO_64 else m
  }

  /** 2^attempt half seconds as the machine computes them. */
  function Delay(attempt: nat): int {
    Wrap64(Pow2(attempt) * BASE)
  }

  /** rand.Int63n(d / 2) returns one of these. */
  predicate Jitter(attempt: nat, j: int) {
    Delay(attempt) > 0 && 0 <= j < Delay(attempt) / 2
  }

  /** rand.Int63n panics on an argument that is not positive. */
  predicate CanPause(attempt: nat) {
    Delay(attempt) / 2 > 0
  }

  function Pause(attempt: nat, jitter: int): int {
    Wrap64(Delay(attempt) + jitter)
  }

  lemma {:induction false} Pow2Monotone(a: nat, b: nat)
    requires a <= b
    ensures Pow2(a) <= Pow2(b)
  {
    if a < b {
      Pow2Monotone(a, b - 1);
    }
  }

  lemma Pow2Values()
    ensures Pow2(33) == 0x2_0000_0000 && Pow2(34) == 0x4_0000_0000 && Pow2(35) == 0x8_0000_0000
  {
    assert Pow2(10) == 1024;
    assert Pow2(20) == 0x10_0000;
    assert Pow2(30) == 0x4000_0000;
  }

  /** The pause is what the formula says, for every jitter drawn. */
  ghost predicate Faithful(attempt: nat) {
    && Delay(attempt) == Pow2(attempt) * 500_000_000
    && forall j :: Jitter(attempt, j) ==> Pause(attempt, j) == Pow2(attempt) * 500_000_000 + j
  }

  /** Below attempt 35 a jitter can be drawn. */
  lemma DelayPositive(attempt: nat)
    requires attempt <= 34
    ensures Delay(attempt) == Pow2(attempt) * 500_000_000 && CanPause(attempt)
  {
    Pow2Values();
    Pow2Monotone(attempt, 34);
  }

  /** A jitter can be drawn exactly where backoff does not panic; attempt 35 is the first where it does. */
  lemma FirstPanic(attempt: nat)
    ensures CanPause(attempt) <==> exists j :: Jitter(attempt, j)
    ensures attempt <= 34 ==> CanPause(attempt)
    ensures !CanPause(35)
  {
    if CanPause(attempt) {
      assert Jitter(attempt, 0);
    }
    if attempt <= 34 {
      DelayPositive(attempt);
    }
    Pow2Values();
  }

  /** The arithmetic is exact for attempts up to 33 and for no others: the sum can wrap at 34 and
      the shifted delay itself does from 35 on. */
  lemma FaithfulIff(attempt: nat)
    ensures Faithful(attempt) <==> attempt <= 33
  {
    Pow2Values();
    if attempt <= 33 {
      Pow2Monotone(attempt, 33);
      DelayPositive(attempt);
      forall j | Jitter(attempt, j) ensures Pause(attempt, j) == Pow2(attempt) * 500_000_000 + j {
        assert 0 <= Pow2(attempt) * 500_000_000 + j < TWO_63;
      }
    } else if attempt == 34 {
      DelayPositive(34);
      var j := Delay(34) / 2 - 1;
      assert Jitter(34, j);
      assert Pow2(34) * 500_000_000 + j >= TWO_63;
      assert Pause(34, j) < TWO_63;
    } else {
      Pow2Monotone(35, attempt);
      assert Pow2(attempt) * 500_000_000 >= TWO_63;
      assert Delay(attempt) < TWO_63;
    }
  }

  /** The pauses of attempts 0, 1, ..., with the given jitters. */
  function TotalPause(jitters: seq<int>): int {
    if jitters == [] then 0
    else
      var k := |jitters| - 1;
      TotalPause(jitters[..k]) + Pause(k, jitters[k])
  }

  /** The seconds that time.After takes for a pause, none if it is negative. */
  function Seconds(pause: int): (s: real)
    ensures s >= 0.0
  {
    if pause > 0 then pause as real / 1_000_000_000.0 else 0.0
  }

  /** The seconds that the pauses of attempts 0, 1, ... take. */
  function SleptFor(jitters: seq<int>): (s: real)
    ensures s >= 0.0
  {
    if jitters == [] then 0.0
    else
      var k := |jitters| - 1;
      SleptFor(jitters[..k]) + Seconds(Pause(k, jitters[k]))
  }

  predicate JittersOk(jitters: seq<int>) {
    forall a :: 0 <= a < |jitters| ==> Jitter(a, jitters[a])
  }

  lemma PauseBounds(attempt: nat, jitter: int)
    requires attempt <= 33 && Jitter(attempt, jitter)
    ensures 500_000_000 * Pow2(attempt) <= Pause(attempt, jitter)
    ensures 2 * Pause(attempt, jitter) < 3 * 500_000_000 * Pow2(attempt)
  {
    FaithfulIff(attempt);
    assert Delay(attempt) == Pow2(attempt) * 500_000_000;
  }

  ghost predicate PauseOf(attempt: nat, pause: int) {
    exists j :: Jitter(attempt, j) && pause == Pause(attempt, j)
  }

  /** The possible pauses are the whole nanoseconds from 500 ms times 2^attempt up to, not including, 750 ms times
      it. */
  lemma PausesAre(attempt: nat, pause: int)
    requires attempt <= 33
    ensures PauseOf(attempt, pause) <==>
      500_000_000 * Pow2(attempt) <= pause < 750_000_000 * Pow2(attempt)
  {
    FaithfulIff(attempt);
    DelayPositive(attempt);
    var j := pause - 500_000_000 * Pow2(attempt);
    if 0 <= j < 250_000_000 * Pow2(attempt) {
      assert Jitter(attempt, j);
    }
  }

  /** At least 500 (2^n - 1) milliseconds and, but for n = 0, less than half as much again. */
  predicate PauseWithin(n: nat, total: int) {
    && 500_000_000 * (Pow2(n) - 1) <= total
    && 2 * total <= 3 * 500_000_000 * (Pow2(n) - 1)
    && (n > 0 ==> 2 * total < 3 * 500_000_000 * (Pow2(n) - 1))
  }

  /** Both bounds double their weight with one more pause. */
  lemma OneMorePause(n: nat, total: int, pause: int)
    requires PauseWithin(n, total) && 500_000_000 * Pow2(n) <= pause && 2 * pause < 3 * 500_000_000 * Pow2(n)
    ensures PauseWithin(n + 1, total + pause)
  {
    assert Pow2(n + 1) == 2 * Pow2(n);
  }

  /** The bounds on n pauses in a row. */
  lemma {:induction false} TotalPauseBounds(jitters: seq<int>)
    requires JittersOk(jitters) && |jitters| <= 34
    ensures PauseWithin(|jitters|, TotalPause(jitters))
  {
    if jitters != [] {
      var k := |jitters| - 1;
      TotalPauseBounds(jitters[..k]);
      PauseBounds(k, jitters[k]);
      OneMorePause(k, TotalPause(jitters[..k]), Pause(k, jitters[k]));
    }
  }

  /** Up to attempt 33 that is their sum. */
  lemma {:induction false} SleptForTotal(jitters: seq<int>)
    requires JittersOk(jitters) && |jitters| <= 34
    ensures SleptFor(jitters) == TotalPause(jitters) as real / 1_000_000_000.0
  {
    if jitters != [] {
      var k := |jitters| - 1;
      SleptForTotal(jitters[..k]);
      PauseBounds(k, jitters[k]);
      assert Pause(k, jitters[k]) > 0;
    }
  }

  lemma SleptForSnoc(jitters: seq<int>, jitter: int)
    ensures SleptFor(jitters + [jitter]) == SleptFor(jitters) + Seconds(Pause(|jitters|, jitter))
  {
    assert (jitters + [jitter])[..|jitters|] == jitters;
  }

  lemma SleptForAtLeast(jitters: seq<int>)
    requires JittersOk(jitters) && |jitters| <= 34
    ensures SleptFor(jitters) >= (Pow2(|jitters|) - 1) as real / 2.0
  {
    SleptForTotal(jitters);
    TotalPauseBounds(jitters);
  }

  /** backoff; None if it panics. */
  method ComputeBackoff(attempt: nat) returns (pause: Option<int>)
    ensures pause.None? <==> !CanPause(attempt)
    ensures pause.Some? ==> exists j :: Jitter(attempt, j) && pause.value == Pause(attempt, j)
  {
    var d := Delay(attempt);
    if d / 2 <= 0 {
      return None;
    }
    var j: int := *;
    if j < 0 || j >= d / 2 {
      j := 0;
    }
    pause := Some(Wrap64(d + j));
    assert Jitter(attempt, j) && pause.value == Pause(attempt, j);
  }
}
