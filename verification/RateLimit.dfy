/** ratelimit/ratelimit.go: a limiter whose bucket holds as many tokens as it gets per second. */
module RateLimit {
  import opened TokenBucket

  /** A rate that is not positive counts as one request per second. */
  function EffectiveRate(rps: real): (r: real)
    ensures r > 0.0
  {
    if rps <= 0.0 then 1.0 else rps
  }

  /** The bucket's maximum is its rate. */
  function ParamsFor(rps: real): (p: Params)
    ensures Sensible(p)
  {
    Params(EffectiveRate(rps), EffectiveRate(rps))
  }

  datatype Waited = Waited(bucket: Bucket, granted: bool, polls: nat)

  /** A lone waiter: a first visit at now, and after each refusal another one, the computed sleep plus
      some timer lateness later. The context is cancelled when the list of latenesses is used up. */
  function WaitAlone(b: Bucket, p: Params, now: real, lateness: seq<real>): Waited
    requires Sensible(p)
    decreases |lateness|
  {
    var v := Visit(b, p, now);
    if v.granted || lateness == [] then Waited(v.bucket, v.granted, 1)
    else
      var r := WaitAlone(v.bucket, p, now + Need(v.bucket, p) + lateness[0], lateness[1..]);
      r.(polls := r.polls + 1)
  }

  /** A lone waiter gets a token at once or after one sleep, if the bucket can hold a token and the
      context lives that long; on a smaller bucket it polls until it is cancelled. */
  lemma {:induction false} WaitAloneEnds(b: Bucket, p: Params, now: real, lateness: seq<real>)
    requires Sensible(p) && forall i :: 0 <= i < |lateness| ==> lateness[i] >= 0.0
    ensures var r := WaitAlone(b, p, now, lateness);
      if p.max >= 1.0 then r.polls <= 2 && (r.granted <==> Visit(b, p, now).granted || lateness != [])
      else !r.granted && r.polls == |lateness| + 1
    decreases |lateness|
  {
    var v := Visit(b, p, now);
    if !v.granted && lateness != [] {
      SleepSuffices(b, p, now, lateness[0]);
      WaitAloneEnds(v.bucket, p, now + Need(v.bucket, p) + lateness[0], lateness[1..]);
    }
  }

  class Limiter {
    var tokens: real
    const max: real
    const rate: real
    var lastFill: real

    function Now(): Bucket
      reads this
    {
      Bucket(tokens, lastFill)
    }

    predicate Valid()
      reads this
    {
      Sensible(Params(max, rate)) && max == rate && InRange(Now(), Params(max, rate))
    }

    constructor (rps: real, now: real)
      ensures Valid() && Params(max, rate) == ParamsFor(rps)
      ensures Now() == Bucket(max, now) && max == rate == if rps > 0.0 then rps else 1.0
    {
      var r := if rps <= 0.0 then 1.0 else rps;
      tokens, max, rate, lastFill := r, r, r, now;
    }

    /** The critical section of Wait; need is the sleep to take when it refuses. */
    method TryTake(now: real) returns (granted: bool, need: real)
      requires Valid() && now >= lastFill
      modifies this
      ensures Valid() && Outcome(Now(), granted) == Visit(old(Now()), Params(max, rate), now)
      ensures !granted ==> need == TokenBucket.Need(Now(), Params(max, rate))
    {
      VisitConserves(Now(), Params(max, rate), now);
      var t := tokens + (now - lastFill) * rate;
      tokens := if t < max then t else max;
      lastFill := now;
      if tokens >= 1.0 {
        tokens := tokens - 1.0;
        return true, 0.0;
      }
      return false, (1.0 - tokens) / rate;
    }

    /** Wait with no other caller in between. */
    method Wait(start: real, lateness: seq<real>) returns (granted: bool)
      requires Valid() && start >= lastFill
      requires forall i :: 0 <= i < |lateness| ==> lateness[i] >= 0.0
      modifies this
      ensures Valid()
      ensures var r := WaitAlone(old(Now()), Params(max, rate), start, lateness);
        Now() == r.bucket && granted == r.granted
    {
      ghost var p := Params(max, rate);
      ghost var r := WaitAlone(Now(), p, start, lateness);
      var now, polls := start, 0;
      while true
        invariant Valid() && now >= lastFill && polls <= |lateness|
        invariant var rest := WaitAlone(Now(), p, now, lateness[polls..]);
          r.bucket == rest.bucket && r.granted == rest.granted
        decreases |lateness| - polls
      {
        var ok, need := TryTake(now);
        if ok {
          return true;
        }
        if polls == |lateness| {
          return false;
        }
        NeedRefills(Now(), p, lateness[polls]);
        assert lateness[polls..][1..] == lateness[polls + 1..];
        now := now + need + lateness[polls];
        polls := polls + 1;
      }
    }
  }

  /** A configured rate below one per second gives a limiter that never grants, whatever the calls;
      any other rate grants its first call. */
  lemma LimiterGrantsIffWholeToken(rps: real, created: real, times: seq<real>)
    requires times != [] && Ordered(Bucket(EffectiveRate(rps), created), times)
    ensures (exists k: nat :: k < |times| && Granted(Bucket(EffectiveRate(rps), created), ParamsFor(rps), times, k))
       <==> rps <= 0.0 || rps >= 1.0
  {
    var p := ParamsFor(rps);
    var b := Bucket(EffectiveRate(rps), created);
    if p.max >= 1.0 {
      assert times[..0] == [];
      InflowAdds(p, created, times[0], times[0]);
      assert Granted(b, p, times, 0);
    }
  }
}
