/** The token-bucket arithmetic shared by ratelimit/ratelimit.go and server/auth.go, and what it
    promises over any sequence of visits by any number of callers. */
module TokenBucket {

  datatype Params = Params(max: real, rate: real)

  datatype Bucket = Bucket(tokens: real, lastFill: real)

  datatype Outcome = Outcome(bucket: Bucket, granted: bool)

  predicate Sensible(p: Params) {
    p.max > 0.0 && p.rate > 0.0
  }

  predicate InRange(b: Bucket, p: Params) {
    0.0 <= b.tokens <= p.max
  }

  /** Tokens that flow in between two times. */
  function Inflow(p: Params, since: real, now: real): real {
    (now - since) * p.rate
  }

  function Refilled(b: Bucket, p: Params, now: real): Bucket {
    var t := b.tokens + Inflow(p, b.lastFill, now);
    Bucket(if t < p.max then t else p.max, now)
  }

  /** One critical section: refill up to now, then take a token if there is a whole one. */
  function Visit(b: Bucket, p: Params, now: real): Outcome {
    var f := Refilled(b, p, now);
    if f.tokens >= 1.0 then Outcome(f.(tokens := f.tokens - 1.0), true) else Outcome(f, false)
  }

  /** The bucket after visits at the given times, whoever made them. */
  function After(b: Bucket, p: Params, times: seq<real>): Bucket {
    if times == [] then b else Visit(After(b, p, times[..|times| - 1]), p, times[|times| - 1]).bucket
  }

  predicate Granted(b: Bucket, p: Params, times: seq<real>, k: nat)
    requires k < |times|
  {
    Visit(After(b, p, times[..k]), p, times[k]).granted
  }

  /** How many of the visits i, ..., j - 1 got a token. */
  function Grants(b: Bucket, p: Params, times: seq<real>, i: nat, j: nat): nat
    requires i <= j <= |times|
  {
    if i == j then 0 else Grants(b, p, times, i, j - 1) + if Granted(b, p, times, j - 1) then 1 else 0
  }

  lemma {:induction false} GrantsSplit(b: Bucket, p: Params, times: seq<real>, i: nat, j: nat)
    requires i <= j <= |times|
    ensures Grants(b, p, times, 0, j) == Grants(b, p, times, 0, i) + Grants(b, p, times, i, j)
  {
    if i < j {
      GrantsSplit(b, p, times, i, j - 1);
    }
  }

  /** What visits get does not depend on later ones. */
  lemma {:induction false} GrantsPrefix(b: Bucket, p: Params, times: seq<real>, n: nat, j: nat)
    requires j <= n <= |times|
    ensures Grants(b, p, times[..n], 0, j) == Grants(b, p, times, 0, j)
  {
    if j > 0 {
      GrantsPrefix(b, p, times, n, j - 1);
      assert times[..n][..j - 1] == times[..j - 1];
    }
  }

  /** Grants of a list of visits: those of its first n, and those of the others. */
  lemma GrantsFrom(b: Bucket, p: Params, first: seq<real>, times: seq<real>)
    requires first <= times
    ensures Grants(b, p, times, 0, |times|)
         == Grants(b, p, first, 0, |first|) + Grants(b, p, times, |first|, |times|)
  {
    assert times[..|first|] == first;
    GrantsPrefix(b, p, times, |first|, |first|);
    GrantsSplit(b, p, times, |first|, |times|);
  }

  /** The clock does not run backwards. */
  predicate Ordered(b: Bucket, times: seq<real>) {
    && (forall k :: 0 <= k < |times| ==> b.lastFill <= times[k])
    && (forall k, l :: 0 <= k <= l < |times| ==> times[k] <= times[l])
  }

  lemma ProductNotNegative(x: real, y: real)
    requires x >= 0.0 && y >= 0.0
    ensures x * y >= 0.0
  {
  }

  lemma InflowNotNegative(p: Params, a: real, b: real)
    requires Sensible(p) && a <= b
    ensures 0.0 <= Inflow(p, a, b)
  {
    var elapsed := b - a;
    ProductNotNegative(elapsed, p.rate);
    assert Inflow(p, a, b) == elapsed * p.rate;
  }

  lemma InflowAdds(p: Params, a: real, b: real, c: real)
    requires Sensible(p) && a <= b <= c
    ensures 0.0 <= Inflow(p, a, b) && 0.0 <= Inflow(p, b, c)
    ensures Inflow(p, a, b) + Inflow(p, b, c) == Inflow(p, a, c)
  {
    InflowNotNegative(p, a, b);
    InflowNotNegative(p, b, c);
  }

  /** A visit never takes out more than flowed in, and never leaves more than fits. */
  lemma VisitConserves(b: Bucket, p: Params, now: real)
    requires Sensible(p) && InRange(b, p) && b.lastFill <= now
    ensures var v := Visit(b, p, now);
      && v.bucket.tokens + (if v.granted then 1.0 else 0.0) <= b.tokens + Inflow(p, b.lastFill, now)
      && v.bucket.tokens + (if v.granted then 1.0 else 0.0) <= p.max
      && InRange(v.bucket, p) && v.bucket.lastFill == now
  {
    InflowAdds(p, b.lastFill, now, now);
  }

  lemma {:induction false} AfterInRange(b: Bucket, p: Params, times: seq<real>)
    requires Sensible(p) && InRange(b, p) && Ordered(b, times)
    ensures InRange(After(b, p, times), p)
    ensures After(b, p, times).lastFill == if times == [] then b.lastFill else times[|times| - 1]
  {
    if times != [] {
      var k := |times| - 1;
      AfterInRange(b, p, times[..k]);
      VisitConserves(After(b, p, times[..k]), p, times[k]);
    }
  }

  /** Tokens granted in a window plus tokens left never exceed what was there and what flowed in. */
  lemma {:induction false} GrantsConserve(b: Bucket, p: Params, times: seq<real>, i: nat, j: nat)
    requires Sensible(p) && InRange(b, p) && Ordered(b, times)
    requires i < j <= |times|
    ensures Grants(b, p, times, i, j) as real + After(b, p, times[..j]).tokens
         <= p.max + Inflow(p, times[i], times[j - 1])
  {
    var before := After(b, p, times[..j - 1]);
    assert times[..j][..j - 1] == times[..j - 1];
    AfterInRange(b, p, times[..j - 1]);
    VisitConserves(before, p, times[j - 1]);
    if i < j - 1 {
      GrantsConserve(b, p, times, i, j - 1);
      InflowAdds(p, times[i], times[j - 2], times[j - 1]);
    } else {
      InflowAdds(p, times[i], times[i], times[i]);
      assert Grants(b, p, times, i, i) == 0;
    }
  }

  /** The window bound: visits between times[i] and times[j - 1], whoever makes them, get at most
      max + rate * (length of the window) tokens; and the bucket stays between empty and full. */
  lemma WindowBound(b: Bucket, p: Params, times: seq<real>, i: nat, j: nat)
    requires Sensible(p) && InRange(b, p) && Ordered(b, times)
    requires i < j <= |times|
    ensures Grants(b, p, times, i, j) as real <= p.max + Inflow(p, times[i], times[j - 1])
    ensures InRange(After(b, p, times[..j]), p)
  {
    GrantsConserve(b, p, times, i, j);
    AfterInRange(b, p, times[..j]);
  }

  // ---- The bound is used up -------------------------------------------------------------

  /** What the window from visit i leaves for visit k: a full bucket and the inflow, less the grants. */
  function Room(b: Bucket, p: Params, times: seq<real>, i: nat, k: nat): real
    requires i <= k < |times|
  {
    p.max + Inflow(p, times[i], times[k]) - Grants(b, p, times, i, k) as real
  }

  /** The tokens that visit k finds. */
  function Level(b: Bucket, p: Params, times: seq<real>, k: nat): real
    requires k < |times|
  {
    Refilled(After(b, p, times[..k]), p, times[k]).tokens
  }

  lemma LevelNext(b: Bucket, p: Params, times: seq<real>, k: nat)
    requires 0 < k < |times|
    ensures var left := Level(b, p, times, k - 1) - (if Granted(b, p, times, k - 1) then 1.0 else 0.0);
      var t := left + Inflow(p, times[k - 1], times[k]);
      Level(b, p, times, k) == if t < p.max then t else p.max
  {
    assert times[..k][..k - 1] == times[..k - 1];
  }

  lemma RoomNext(b: Bucket, p: Params, times: seq<real>, i: nat, k: nat)
    requires Sensible(p) && Ordered(b, times) && i < k < |times|
    ensures Room(b, p, times, i, k)
         == Room(b, p, times, i, k - 1) - (if Granted(b, p, times, k - 1) then 1.0 else 0.0)
            + Inflow(p, times[k - 1], times[k])
  {
    InflowAdds(p, times[i], times[k - 1], times[k]);
  }

  /** A bucket full at the start has exactly the least room that any window up to now leaves. */
  lemma {:induction false} LevelIsLeastRoom(b: Bucket, p: Params, times: seq<real>, k: nat) returns (least: nat)
    requires Sensible(p) && b.tokens == p.max && Ordered(b, times) && k < |times|
    ensures least <= k && Level(b, p, times, k) == Room(b, p, times, least, k)
    ensures forall i :: 0 <= i <= k ==> Level(b, p, times, k) <= Room(b, p, times, i, k)
  {
    least := k;
    assert Room(b, p, times, k, k) == p.max by {
      InflowAdds(p, times[k], times[k], times[k]);
    }
    if k == 0 {
      assert times[..0] == [];
      InflowNotNegative(p, b.lastFill, times[0]);
    } else {
      var before := LevelIsLeastRoom(b, p, times, k - 1);
      LevelNext(b, p, times, k);
      forall i | 0 <= i < k
        ensures Room(b, p, times, i, k)
             == Room(b, p, times, i, k - 1) - (if Granted(b, p, times, k - 1) then 1.0 else 0.0)
                + Inflow(p, times[k - 1], times[k])
      {
        RoomNext(b, p, times, i, k);
      }
      if Level(b, p, times, k) < p.max {
        least := before;
      }
    }
  }

  lemma GrantedAtLevel(b: Bucket, p: Params, times: seq<real>, k: nat)
    requires k < |times|
    ensures Granted(b, p, times, k) <==> Level(b, p, times, k) >= 1.0
  {
  }

  /** One more grant keeps a window of the given length within a full bucket and what the rate adds. */
  predicate Fits(grants: nat, p: Params, length: real) {
    grants as real + 1.0 <= p.max + length * p.rate
  }

  lemma FitsIsRoom(b: Bucket, p: Params, times: seq<real>, i: nat, k: nat)
    requires i <= k < |times|
    ensures Fits(Grants(b, p, times, i, k), p, times[k] - times[i]) <==> Room(b, p, times, i, k) >= 1.0
  {
  }

  /** The window bound is met: a visit gets a token exactly if one more grant fits every window up to it. */
  lemma GrantedIff(b: Bucket, p: Params, times: seq<real>, k: nat)
    requires Sensible(p) && b.tokens == p.max && Ordered(b, times) && k < |times|
    ensures Granted(b, p, times, k)
       <==> forall i :: 0 <= i <= k ==> Fits(Grants(b, p, times, i, k), p, times[k] - times[i])
  {
    var least := LevelIsLeastRoom(b, p, times, k);
    GrantedAtLevel(b, p, times, k);
    forall i | 0 <= i <= k
      ensures Fits(Grants(b, p, times, i, k), p, times[k] - times[i]) <==> Room(b, p, times, i, k) >= 1.0
    {
      FitsIsRoom(b, p, times, i, k);
    }
  }

  // ---- Waiting --------------------------------------------------------------------------

  /** The sleep Wait computes after a refusal. */
  function Need(b: Bucket, p: Params): real
    requires p.rate > 0.0
  {
    (1.0 - b.tokens) / p.rate
  }

  lemma NeedRefills(b: Bucket, p: Params, late: real)
    requires Sensible(p) && b.tokens < 1.0 && late >= 0.0
    ensures Need(b, p) > 0.0
    ensures b.tokens + Inflow(p, b.lastFill, b.lastFill + Need(b, p) + late) >= 1.0
  {
    assert Inflow(p, b.lastFill, b.lastFill + Need(b, p)) == 1.0 - b.tokens by {
      assert Need(b, p) * p.rate == 1.0 - b.tokens;
    }
    InflowAdds(p, b.lastFill, b.lastFill + Need(b, p), b.lastFill + Need(b, p) + late);
  }

  /** After a refusal, a visit at least the computed sleep later succeeds exactly when the bucket
      can hold a whole token. */
  lemma SleepSuffices(b: Bucket, p: Params, now: real, late: real)
    requires Sensible(p) && !Visit(b, p, now).granted && late >= 0.0
    ensures var refused := Visit(b, p, now).bucket;
      Visit(refused, p, now + Need(refused, p) + late).granted <==> p.max >= 1.0
  {
    NeedRefills(Visit(b, p, now).bucket, p, late);
  }

  /** A bucket that holds less than one token grants nothing, over any run. */
  lemma {:induction false} SmallBucketStarves(b: Bucket, p: Params, times: seq<real>, i: nat, j: nat)
    requires p.max < 1.0 && i <= j <= |times|
    ensures Grants(b, p, times, i, j) == 0
  {
    if i < j {
      SmallBucketStarves(b, p, times, i, j - 1);
    }
  }

  /** Refused visits lose nothing: the bucket has what it had, plus the inflow, up to its maximum. */
  lemma {:induction false} RefusalsKeepInflow(b: Bucket, p: Params, times: seq<real>)
    requires Sensible(p) && p.max >= 1.0 && Ordered(b, times)
    requires forall k :: 0 <= k < |times| ==> !Granted(b, p, times, k)
    ensures var a := After(b, p, times);
      a.tokens == b.tokens + Inflow(p, b.lastFill, a.lastFill) || times == []
    ensures After(b, p, times).lastFill == if times == [] then b.lastFill else times[|times| - 1]
  {
    if times != [] {
      var k := |times| - 1;
      forall i | 0 <= i < k ensures !Granted(b, p, times[..k], i) {
        assert times[..k][..i] == times[..i];
        assert !Granted(b, p, times, i);
      }
      RefusalsKeepInflow(b, p, times[..k]);
      assert !Granted(b, p, times, k);
      InflowAdds(p, b.lastFill, After(b, p, times[..k]).lastFill, times[k]);
    }
  }
}
