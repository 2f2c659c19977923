/** server/auth.go: Bearer keys, tiers, and one token bucket per key. Times are in minutes. */
module Auth {
  import opened TokenBucket

  datatype Tier = Tier(rpm: nat, stream: bool)

  const TIERS: map<string, Tier> :=
    map["free" := Tier(10, false), "standard" := Tier(120, true), "pro" := Tier(600, true)]

  const BEARER := "Bearer "

  /** The tier a key is served at: the table's, or free for a name the table does not know. */
  function TierOf(name: string): (t: Tier)
    ensures t.rpm in {10, 120, 600}
  {
    if name in TIERS then TIERS[name] else TIERS["free"]
  }

  function KeyParams(rpm: nat): Params {
    Params(rpm as real, rpm as real)
  }

  /** The seconds advertised in Retry-After. */
  function RetryAfter(rpm: nat): nat
    requires rpm >= 1
  {
    60 / rpm + 1
  }

  function Minutes(seconds: nat): real {
    seconds as real / 60.0
  }

  /** The tokens that a key of rate rpm earns in a number of minutes. */
  function TokensIn(rpm: nat, minutes: real): real {
    minutes * rpm as real
  }

  /** strings.CutPrefix(header, "Bearer "): the key, or "" when there is none. */
  function KeyIn(header: string): string {
    if BEARER <= header then header[|BEARER|..] else ""
  }

  datatype Response =
    | Unauthorized
    | TooMany(retryAfter: nat)
    | PaymentRequired
    | Served(key: string)

  datatype Request = Request(header: string, path: string, now: real)

  /** The bucket a key has, a full one if it was never seen. */
  function BucketFor(buckets: map<string, Bucket>, key: string, rpm: nat, now: real): Bucket {
    if key in buckets then buckets[key] else Bucket(rpm as real, now)
  }

  datatype Reply = Reply(buckets: map<string, Bucket>, response: Response)

  /** One request through the middleware. */
  function Respond(keys: map<string, string>, buckets: map<string, Bucket>, r: Request): Reply {
    var key := KeyIn(r.header);
    if key == "" || key !in keys then Reply(buckets, Unauthorized)
    else
      var tier := TierOf(keys[key]);
      var v := Visit(BucketFor(buckets, key, tier.rpm, r.now), KeyParams(tier.rpm), r.now);
      Reply(buckets[key := v.bucket],
            if !v.granted then TooMany(RetryAfter(tier.rpm))
            else if r.path == "/v1/stream" && !tier.stream then PaymentRequired
            else Served(key))
  }

  class AuthMiddleware {
    const keys: map<string, string>
    var buckets: map<string, Bucket>

    constructor (keys: map<string, string>)
      ensures this.keys == keys && buckets == map[]
    {
      this.keys := keys;
      buckets := map[];
    }

    /** The allow closure: the critical section over the bucket map. */
    method Allow(key: string, rpm: nat, now: real) returns (ok: bool)
      modifies this`buckets
      ensures var v := Visit(BucketFor(old(buckets), key, rpm, now), KeyParams(rpm), now);
        buckets == old(buckets)[key := v.bucket] && ok == v.granted
    {
      if key !in buckets {
        buckets := buckets[key := Bucket(rpm as real, now)];
      }
      var b := buckets[key];
      assert Inflow(KeyParams(rpm), b.lastFill, now) == (now - b.lastFill) * rpm as real;
      var tokens := b.tokens + (now - b.lastFill) * rpm as real;
      if tokens > rpm as real {
        tokens := rpm as real;
      }
      ok := tokens >= 1.0;
      if ok {
        tokens := tokens - 1.0;
      }
      buckets := buckets[key := Bucket(tokens, now)];
      assert buckets == old(buckets)[key := Bucket(tokens, now)];
    }

    method Handle(r: Request) returns (response: Response)
      modifies this`buckets
      ensures Reply(buckets, response) == Respond(keys, old(buckets), r)
    {
      var key := KeyIn(r.header);
      if key == "" {
        return Unauthorized;
      }
      if key !in keys {
        return Unauthorized;
      }
      var tier := TierOf(keys[key]);
      var ok := Allow(key, tier.rpm, r.now);
      if !ok {
        return TooMany(RetryAfter(tier.rpm));
      }
      if r.path == "/v1/stream" && !tier.stream {
        return PaymentRequired;
      }
      return Served(key);
    }
  }

  // ---- Runs of requests -----------------------------------------------------------------

  function BucketsAfter(keys: map<string, string>, rs: seq<Request>): map<string, Bucket> {
    if rs == [] then map[]
    else Respond(keys, BucketsAfter(keys, rs[..|rs| - 1]), rs[|rs| - 1]).buckets
  }

  /** The answer to the k-th request of a run that starts with no buckets. */
  function ResponseAt(keys: map<string, string>, rs: seq<Request>, k: nat): Response
    requires k < |rs|
  {
    Respond(keys, BucketsAfter(keys, rs[..k]), rs[k]).response
  }

  predicate ClockOrdered(rs: seq<Request>) {
    forall i, j :: 0 <= i <= j < |rs| ==> rs[i].now <= rs[j].now
  }

  /** The times of the requests that carry the given key. */
  function TimesOf(rs: seq<Request>, key: string): seq<real> {
    if rs == [] then []
    else
      var r := rs[|rs| - 1];
      TimesOf(rs[..|rs| - 1], key) + if KeyIn(r.header) == key then [r.now] else []
  }

  /** The lone bucket a key would have if there were no other key: full at its first request. */
  function LoneBucket(rpm: nat, times: seq<real>): Bucket {
    Bucket(rpm as real, if times == [] then 0.0 else times[0])
  }

  lemma {:induction false} TimesOfBounded(rs: seq<Request>, key: string, t: real)
    requires forall i :: 0 <= i < |rs| ==> rs[i].now <= t
    ensures forall i :: 0 <= i < |TimesOf(rs, key)| ==> TimesOf(rs, key)[i] <= t
  {
    if rs != [] {
      TimesOfBounded(rs[..|rs| - 1], key, t);
    }
  }

  lemma {:induction false} TimesOfOrdered(rs: seq<Request>, key: string)
    requires ClockOrdered(rs)
    ensures forall i, j :: 0 <= i <= j < |TimesOf(rs, key)| ==> TimesOf(rs, key)[i] <= TimesOf(rs, key)[j]
  {
    if rs != [] {
      var k := |rs| - 1;
      TimesOfOrdered(rs[..k], key);
      TimesOfBounded(rs[..k], key, rs[k].now);
    }
  }

  lemma {:induction false} TimesOfPrefix(rs: seq<Request>, key: string, k: nat)
    requires k <= |rs|
    ensures TimesOf(rs[..k], key) <= TimesOf(rs, key)
  {
    if k < |rs| {
      TimesOfPrefix(rs[..|rs| - 1], key, k);
      assert rs[..|rs| - 1][..k] == rs[..k];
    } else {
      assert rs[..k] == rs;
    }
  }

  /** How many of the first k requests carry the key: the place of the next one that does. */
  function Place(rs: seq<Request>, key: string, k: nat): nat
    requires k <= |rs|
  {
    |TimesOf(rs[..k], key)|
  }

  lemma NextPlace(rs: seq<Request>, key: string, k: nat)
    requires k < |rs|
    ensures Place(rs, key, k + 1) == Place(rs, key, k) + if KeyIn(rs[k].header) == key then 1 else 0
    ensures Place(rs, key, k + 1) <= |TimesOf(rs, key)|
  {
    assert rs[..k + 1][..k] == rs[..k];
    TimesOfPrefix(rs, key, k + 1);
  }

  lemma AfterSnoc(b: Bucket, p: Params, times: seq<real>, t: real)
    ensures After(b, p, times + [t]) == Visit(After(b, p, times), p, t).bucket
  {
    assert (times + [t])[..|times|] == times;
  }

  /** Keys do not disturb one another: after any run, the bucket of a key is the lone bucket after
      that key's own requests. */
  lemma {:induction false} KeysAreIndependent(keys: map<string, string>, rs: seq<Request>, key: string)
    requires key != "" && key in keys
    ensures var times := TimesOf(rs, key);
      if times == [] then key !in BucketsAfter(keys, rs)
      else
        && key in BucketsAfter(keys, rs)
        && var rpm := TierOf(keys[key]).rpm;
           BucketsAfter(keys, rs)[key] == After(LoneBucket(rpm, times), KeyParams(rpm), times)
  {
    if rs != [] {
      var k := |rs| - 1;
      KeysAreIndependent(keys, rs[..k], key);
      var before := TimesOf(rs[..k], key);
      var rpm := TierOf(keys[key]).rpm;
      if KeyIn(rs[k].header) == key {
        AfterSnoc(LoneBucket(rpm, before + [rs[k].now]), KeyParams(rpm), before, rs[k].now);
      } else {
        assert before + [] == before;
      }
    }
  }

  /** Did the k-th request take a token? A refused stream request (402) did, too. */
  predicate Admitted(keys: map<string, string>, rs: seq<Request>, k: nat)
    requires k < |rs|
  {
    ResponseAt(keys, rs, k).Served? || ResponseAt(keys, rs, k).PaymentRequired?
  }

  /** Would the n-th request of a key get a token from the lone bucket? */
  predicate LoneGranted(rpm: nat, times: seq<real>, n: nat)
    requires n < |times|
  {
    Granted(LoneBucket(rpm, times), KeyParams(rpm), times, n)
  }

  /** Position of request k among the requests of its key, and what the lone bucket answers there. */
  lemma AnswerIsLoneBuckets(keys: map<string, string>, rs: seq<Request>, key: string, k: nat)
    requires key != "" && key in keys && k < |rs| && KeyIn(rs[k].header) == key
    ensures var times := TimesOf(rs, key);
      var i, rpm := Place(rs, key, k), TierOf(keys[key]).rpm;
      && i < |times| && times[i] == rs[k].now
      && (LoneGranted(rpm, times, i) <==> Admitted(keys, rs, k))
  {
    var times, before := TimesOf(rs, key), TimesOf(rs[..k], key);
    assert rs[..k + 1][..k] == rs[..k];
    TimesOfPrefix(rs, key, k + 1);
    assert before + [rs[k].now] <= times;
    assert times[..|before|] == before;
    KeysAreIndependent(keys, rs[..k], key);
    if before == [] {
      assert times[..0] == [];
    }
  }

  /** A key whose tier has no streaming, asking for a stream first thing, is answered 402 and has one token
      less. */
  lemma RefusedStreamCosts(keys: map<string, string>, key: string, now: real)
    requires key != "" && key in keys && !TierOf(keys[key]).stream
    ensures var rs := [Request(BEARER + key, "/v1/stream", now)];
      && ResponseAt(keys, rs, 0) == PaymentRequired
      && key in BucketsAfter(keys, rs)
      && BucketsAfter(keys, rs)[key] == Bucket((TierOf(keys[key]).rpm - 1) as real, now)
  {
    var r := Request(BEARER + key, "/v1/stream", now);
    assert KeyIn(r.header) == key;
    assert [r][..0] == [];
    assert BucketsAfter(keys, []) == map[];
    assert Inflow(KeyParams(TierOf(keys[key]).rpm), now, now) == 0.0;
  }

  /** What each answer says of the request. Without a key in the header, or with an unknown one, it is refused;
      else it gets the 429 exactly if it takes no token; and a request that takes one is served, with the
      header's key, exactly if it does not ask for a stream or its tier, standard or pro, has streaming. */
  lemma AnswerMeaning(keys: map<string, string>, rs: seq<Request>, k: nat)
    requires k < |rs|
    ensures var r, answer := rs[k], ResponseAt(keys, rs, k);
      && (answer.Unauthorized? <==> !exists key :: key != "" && key in keys && r.header == "Bearer " + key)
      && forall key :: key != "" && key in keys && r.header == "Bearer " + key ==>
           && (answer.TooMany? <==> !Admitted(keys, rs, k))
           && (answer == Served(key) <==>
                 Admitted(keys, rs, k) && (r.path != "/v1/stream" || keys[key] == "standard" || keys[key] == "pro"))
           && (answer.Served? ==> answer.key == key)
  {
    var r := rs[k];
    if BEARER <= r.header {
      assert r.header == BEARER + r.header[|BEARER|..];
    }
    forall key | r.header == "Bearer " + key ensures KeyIn(r.header) == key {
    }
  }

  /** The requests per minute that a tier name stands for. */
  lemma TierRates(name: string)
    ensures TierOf(name).rpm == if name == "pro" then 600 else if name == "standard" then 120 else 10
  {
  }

  /** Admitted requests of one key among requests i, ..., j - 1. */
  function AdmittedCount(keys: map<string, string>, rs: seq<Request>, key: string, i: nat, j: nat): nat
    requires i <= j <= |rs|
  {
    if i == j then 0
    else
      var here := if KeyIn(rs[j - 1].header) == key && Admitted(keys, rs, j - 1) then 1 else 0;
      AdmittedCount(keys, rs, key, i, j - 1) + here
  }

  lemma AdmittedNext(keys: map<string, string>, rs: seq<Request>, key: string, i: nat, k: nat)
    requires i <= k < |rs|
    ensures AdmittedCount(keys, rs, key, i, k + 1) == AdmittedCount(keys, rs, key, i, k)
      + if KeyIn(rs[k].header) == key && Admitted(keys, rs, k) then 1 else 0
  {
  }

  /** The lone bucket's grants at places a, ..., b - 1 of a key. */
  function LoneGrants(rpm: nat, times: seq<real>, a: nat, b: nat): nat
    requires a <= b <= |times|
  {
    Grants(LoneBucket(rpm, times), KeyParams(rpm), times, a, b)
  }

  lemma NextLoneGrant(rpm: nat, times: seq<real>, a: nat, b: nat)
    requires a <= b < |times|
    ensures LoneGrants(rpm, times, a, b + 1)
         == LoneGrants(rpm, times, a, b) + if LoneGranted(rpm, times, b) then 1 else 0
  {
  }

  /** One more request: one more grant if it is the key's and admitted. */
  lemma GrantAtPlace(keys: map<string, string>, rs: seq<Request>, key: string, a: nat, k: nat)
    requires key != "" && key in keys && k < |rs| && a <= Place(rs, key, k) <= |TimesOf(rs, key)|
    ensures Place(rs, key, k) <= Place(rs, key, k + 1) <= |TimesOf(rs, key)|
    ensures var rpm, times := TierOf(keys[key]).rpm, TimesOf(rs, key);
      LoneGrants(rpm, times, a, Place(rs, key, k + 1)) == LoneGrants(rpm, times, a, Place(rs, key, k))
        + if KeyIn(rs[k].header) == key && Admitted(keys, rs, k) then 1 else 0
  {
    NextPlace(rs, key, k);
    if KeyIn(rs[k].header) == key {
      AnswerIsLoneBuckets(keys, rs, key, k);
      NextLoneGrant(TierOf(keys[key]).rpm, TimesOf(rs, key), a, Place(rs, key, k));
    }
  }

  lemma {:induction false} PlacesOrdered(rs: seq<Request>, key: string, i: nat, j: nat)
    requires i <= j <= |rs|
    ensures Place(rs, key, i) <= Place(rs, key, j) <= |TimesOf(rs, key)|
    decreases j
  {
    if i == j {
      TimesOfPrefix(rs, key, i);
    } else {
      PlacesOrdered(rs, key, i, j - 1);
      NextPlace(rs, key, j - 1);
    }
  }

  predicate GrantsMatch(keys: map<string, string>, rs: seq<Request>, key: string, i: nat, j: nat)
    requires key in keys && i <= j <= |rs|
  {
    && Place(rs, key, i) <= Place(rs, key, j) <= |TimesOf(rs, key)|
    && AdmittedCount(keys, rs, key, i, j)
       == LoneGrants(TierOf(keys[key]).rpm, TimesOf(rs, key), Place(rs, key, i), Place(rs, key, j))
  }

  lemma GrantsMatchNone(keys: map<string, string>, rs: seq<Request>, key: string, i: nat)
    requires key in keys && i <= |rs|
    ensures GrantsMatch(keys, rs, key, i, i)
  {
    PlacesOrdered(rs, key, i, i);
  }

  lemma GrantsMatchNext(keys: map<string, string>, rs: seq<Request>, key: string, i: nat, k: nat)
    requires key != "" && key in keys && i <= k < |rs| && GrantsMatch(keys, rs, key, i, k)
    ensures GrantsMatch(keys, rs, key, i, k + 1)
  {
    AdmittedNext(keys, rs, key, i, k);
    GrantAtPlace(keys, rs, key, Place(rs, key, i), k);
  }

  /** Requests admitted in a window are grants of the lone bucket at their places. */
  lemma {:induction false} AdmittedAreGrants(keys: map<string, string>, rs: seq<Request>, key: string, i: nat, j: nat)
    requires key != "" && key in keys && i <= j <= |rs|
    ensures GrantsMatch(keys, rs, key, i, j)
    decreases j
  {
    if i == j {
      GrantsMatchNone(keys, rs, key, i);
    } else {
      AdmittedAreGrants(keys, rs, key, i, j - 1);
      GrantsMatchNext(keys, rs, key, i, j - 1);
    }
  }

  /** The times of a key from request i on are not before request i's, and none up to j is after it. */
  lemma {:induction false} TimesOfWindow(rs: seq<Request>, key: string, i: nat, j: nat)
    requires ClockOrdered(rs) && i < j <= |rs|
    ensures forall n ::
      Place(rs, key, i) <= n < Place(rs, key, j) ==> rs[i].now <= TimesOf(rs[..j], key)[n] <= rs[j - 1].now
    decreases j
  {
    assert rs[..j][..j - 1] == rs[..j - 1];
    if i < j - 1 {
      TimesOfWindow(rs, key, i, j - 1);
    }
  }

  /** Per-key rate limit: in any window of a run, whatever other keys do, a key of rate rpm has at
      most rpm + rpm * (minutes between the window's first and last request) requests admitted. */
  lemma KeyWindowBound(keys: map<string, string>, rs: seq<Request>, key: string, i: nat, j: nat)
    requires key != "" && key in keys && ClockOrdered(rs) && i < j <= |rs|
    ensures var rpm := TierOf(keys[key]).rpm;
      AdmittedCount(keys, rs, key, i, j) as real <= rpm as real + Inflow(KeyParams(rpm), rs[i].now, rs[j - 1].now)
  {
    var times, a, b := TimesOf(rs, key), Place(rs, key, i), Place(rs, key, j);
    var rpm := TierOf(keys[key]).rpm;
    var p := KeyParams(rpm);
    AdmittedAreGrants(keys, rs, key, i, j);
    InflowNotNegative(p, rs[i].now, rs[j - 1].now);
    if a < b {
      TimesOfOrdered(rs, key);
      WindowBound(LoneBucket(rpm, times), p, times, a, b);
      TimesOfPrefix(rs, key, j);
      TimesOfWindow(rs, key, i, j);
      InflowAdds(p, rs[i].now, times[a], times[b - 1]);
      InflowAdds(p, rs[i].now, times[b - 1], rs[j - 1].now);
    }
  }

  lemma ProductNotBelow(x: real, y: real, z: real)
    requires x >= y && z >= 0.0
    ensures x * z >= y * z
  {
  }

  /** The advertised seconds are the first whole number of seconds above 60 / rpm. */
  lemma RetryAfterIsNextSecond(rpm: nat)
    requires rpm >= 1
    ensures (RetryAfter(rpm) - 1) * rpm <= 60 < RetryAfter(rpm) * rpm
  {
    var q := 60 / rpm;
    assert 60 == rpm * q + 60 % rpm;
    assert (q + 1) * rpm == q * rpm + rpm;
  }

  lemma SecondsToMinutes(secs: nat, rpm: nat)
    requires secs * rpm > 60
    ensures TokensIn(rpm, Minutes(secs)) > 1.0
  {
    var product := secs * rpm;
    assert product as real == secs as real * rpm as real;
    assert Minutes(secs) * rpm as real == (secs as real * rpm as real) / 60.0;
    assert product as real > 60.0;
  }

  lemma RetryAfterInMinutes(rpm: nat)
    requires rpm >= 1
    ensures TokensIn(rpm, Minutes(RetryAfter(rpm))) > 1.0
  {
    RetryAfterIsNextSecond(rpm);
    SecondsToMinutes(RetryAfter(rpm), rpm);
  }

  /** A wait that brings in a whole token. */
  lemma WaitBringsToken(rpm: nat, wait: real, since: real, now: real)
    requires TokensIn(rpm, wait) >= 1.0 && now >= since + wait
    ensures Inflow(KeyParams(rpm), since, now) >= 1.0
  {
    ProductNotBelow(now - since, wait, rpm as real);
  }

  lemma {:induction false} AfterSplit(b: Bucket, p: Params, xs: seq<real>, ys: seq<real>)
    ensures After(b, p, xs + ys) == After(After(b, p, xs), p, ys)
  {
    if ys == [] {
      assert xs + ys == xs;
    } else {
      var m := |ys| - 1;
      assert (xs + ys)[..|xs + ys| - 1] == xs + ys[..m];
      AfterSplit(b, p, xs, ys[..m]);
    }
  }

  /** Refused from x to y - 1, a lone bucket keeps what flows in until its last visit before y. */
  lemma RefusedStretch(rpm: nat, times: seq<real>, x: nat, y: nat)
    requires rpm >= 1 && x < y < |times|
    requires forall i, j :: 0 <= i <= j < |times| ==> times[i] <= times[j]
    requires forall i :: x <= i < y ==> !LoneGranted(rpm, times, i)
    ensures var p, last := KeyParams(rpm), After(LoneBucket(rpm, times), KeyParams(rpm), times[..y]);
      times[x] <= last.lastFill <= times[y] && last.tokens >= Inflow(p, times[x], last.lastFill)
  {
    var b, p := LoneBucket(rpm, times), KeyParams(rpm);
    var mid := times[x + 1..y];
    var refused := After(b, p, times[..x + 1]);
    AfterInRange(b, p, times[..x + 1]);
    assert times[..y] == times[..x + 1] + mid;
    AfterSplit(b, p, times[..x + 1], mid);
    forall i | 0 <= i < |mid| ensures !Granted(refused, p, mid, i) {
      assert times[..x + 1 + i] == times[..x + 1] + mid[..i];
      AfterSplit(b, p, times[..x + 1], mid[..i]);
      assert !LoneGranted(rpm, times, x + 1 + i);
    }
    RefusalsKeepInflow(refused, p, mid);
    InflowAdds(p, times[x], times[x], times[x]);
  }

  /** Requests x to y - 1 of a key are refused, and the next comes at least wait minutes after request x. */
  predicate RefusedUntil(rpm: nat, wait: real, times: seq<real>, x: nat, y: nat) {
    && x < y < |times|
    && (forall i, j :: 0 <= i <= j < |times| ==> times[i] <= times[j])
    && (forall i :: x <= i < y ==> !LoneGranted(rpm, times, i))
    && times[y] >= times[x] + wait
  }

  /** On a lone bucket: refused at x, refused in between, then granted at y. */
  lemma RetryOnLoneBucket(rpm: nat, wait: real, times: seq<real>, x: nat, y: nat)
    requires rpm >= 1 && TokensIn(rpm, wait) >= 1.0 && RefusedUntil(rpm, wait, times, x, y)
    ensures LoneGranted(rpm, times, y)
  {
    RefusedStretch(rpm, times, x, y);
    WaitBringsToken(rpm, wait, times[x], times[y]);
    var last := After(LoneBucket(rpm, times), KeyParams(rpm), times[..y]);
    InflowAdds(KeyParams(rpm), times[x], last.lastFill, times[y]);
  }

  /** Whatever a key's requests are, waiting that long after a refusal, with nothing admitted in
      between, gets the next request admitted. */
  ghost predicate WaitSuffices(rpm: nat, wait: real) {
    forall times: seq<real>, x: nat, y: nat :: RefusedUntil(rpm, wait, times, x, y) ==> LoneGranted(rpm, times, y)
  }

  /** n requests at once. */
  function Burst(n: nat): (times: seq<real>)
    ensures |times| == n && forall i :: 0 <= i < n ==> times[i] == 0.0
  {
    seq(n, i => 0.0)
  }

  lemma {:induction false} BurstSpends(rpm: nat, n: nat)
    requires n <= rpm
    ensures After(Bucket(rpm as real, 0.0), KeyParams(rpm), Burst(n)) == Bucket((rpm - n) as real, 0.0)
  {
    if n > 0 {
      BurstSpends(rpm, n - 1);
      assert Burst(n)[..n - 1] == Burst(n - 1);
      assert Inflow(KeyParams(rpm), 0.0, 0.0) == 0.0;
    }
  }

  lemma EmptyRefuses(rpm: nat, wait: real)
    requires 0.0 <= TokensIn(rpm, wait) < 1.0
    ensures !Visit(Bucket(0.0, 0.0), KeyParams(rpm), wait).granted
    ensures wait == 0.0 ==> Visit(Bucket(0.0, 0.0), KeyParams(rpm), wait).bucket == Bucket(0.0, 0.0)
  {
    assert Inflow(KeyParams(rpm), 0.0, wait) == TokensIn(rpm, wait);
  }

  /** After a burst of rpm requests the next is refused and the bucket empty. */
  lemma BurstEmpties(rpm: nat, times: seq<real>)
    requires rpm >= 1 && |times| > rpm && times[..rpm + 1] == Burst(rpm + 1)
    ensures !LoneGranted(rpm, times, rpm)
    ensures After(LoneBucket(rpm, times), KeyParams(rpm), times[..rpm + 1]) == Bucket(0.0, 0.0)
  {
    assert times[0] == times[..rpm + 1][0] && times[rpm] == times[..rpm + 1][rpm];
    assert times[..rpm] == Burst(rpm);
    BurstSpends(rpm, rpm);
    assert TokensIn(rpm, 0.0) == 0.0;
    EmptyRefuses(rpm, 0.0);
    assert times[..rpm + 1] == times[..rpm] + [0.0];
    AfterSnoc(LoneBucket(rpm, times), KeyParams(rpm), times[..rpm], 0.0);
  }

  /** So is the one after it if it comes too soon. */
  lemma TooSoonRefused(rpm: nat, wait: real)
    requires rpm >= 1 && 0.0 <= wait && TokensIn(rpm, wait) < 1.0
    ensures !WaitSuffices(rpm, wait)
  {
    var times := Burst(rpm + 1) + [wait];
    assert times[..rpm + 1] == Burst(rpm + 1);
    BurstEmpties(rpm, times);
    ProductNotBelow(wait, 0.0, rpm as real);
    EmptyRefuses(rpm, wait);
    assert !LoneGranted(rpm, times, rpm + 1);
    assert RefusedUntil(rpm, wait, times, rpm, rpm + 1);
  }

  /** The waits that suffice are exactly those of at least 1 / rpm minutes; the advertised one is the
      next whole number of seconds. */
  lemma LeastWait(rpm: nat, wait: real)
    requires rpm >= 1 && wait >= 0.0
    ensures WaitSuffices(rpm, wait) <==> TokensIn(rpm, wait) >= 1.0
    ensures WaitSuffices(rpm, Minutes(RetryAfter(rpm)))
    ensures (RetryAfter(rpm) - 1) * rpm <= 60 < RetryAfter(rpm) * rpm
  {
    if TokensIn(rpm, wait) >= 1.0 {
      SufficientWait(rpm, wait);
    } else {
      TooSoonRefused(rpm, wait);
    }
    RetryAfterInMinutes(rpm);
    SufficientWait(rpm, Minutes(RetryAfter(rpm)));
    RetryAfterIsNextSecond(rpm);
  }

  lemma SufficientWait(rpm: nat, wait: real)
    requires rpm >= 1 && TokensIn(rpm, wait) >= 1.0
    ensures WaitSuffices(rpm, wait)
  {
    forall times: seq<real>, x: nat, y: nat | RefusedUntil(rpm, wait, times, x, y) ensures LoneGranted(rpm, times, y) {
      RetryOnLoneBucket(rpm, wait, times, x, y);
    }
  }

  /** The request behind the n-th time of a key's window. */
  lemma {:induction false} RequestBehind(rs: seq<Request>, key: string, i: nat, j: nat, n: nat) returns (k: nat)
    requires i <= j <= |rs| && Place(rs, key, i) <= n < Place(rs, key, j)
    ensures i <= k < j && KeyIn(rs[k].header) == key && Place(rs, key, k) == n
  {
    NextPlace(rs, key, j - 1);
    if n < Place(rs, key, j - 1) {
      k := RequestBehind(rs, key, i, j - 1, n);
    } else {
      k := j - 1;
    }
  }

  /** One more request fits a window of the given length in minutes: RPM + RPM * length. */
  predicate RoomFor(rpm: nat, count: nat, length: real) {
    count as real + 1.0 <= rpm as real + length * rpm as real
  }

  /** It fits the window from request i to request k. */
  predicate HasRoom(keys: map<string, string>, rs: seq<Request>, key: string, i: nat, k: nat)
    requires key in keys && i <= k < |rs|
  {
    RoomFor(TierOf(keys[key]).rpm, AdmittedCount(keys, rs, key, i, k), rs[k].now - rs[i].now)
  }

  /** The same in the lone bucket's terms. */
  predicate LoneRoom(rpm: nat, times: seq<real>, a: nat, b: nat)
    requires a <= b < |times|
  {
    RoomFor(rpm, LoneGrants(rpm, times, a, b), times[b] - times[a])
  }

  lemma SameRoom(rpm: nat, times: seq<real>, a: nat, b: nat, count: nat, length: real)
    requires a <= b < |times| && count == LoneGrants(rpm, times, a, b) && length == times[b] - times[a]
    ensures LoneRoom(rpm, times, a, b) <==> RoomFor(rpm, count, length)
  {
  }

  lemma RoomForFits(rpm: nat, count: nat, length: real)
    ensures RoomFor(rpm, count, length) <==> Fits(count, KeyParams(rpm), length)
  {
  }

  lemma LoneRoomFits(rpm: nat, times: seq<real>, a: nat, b: nat)
    requires a <= b < |times|
    ensures LoneRoom(rpm, times, a, b)
       <==> Fits(Grants(LoneBucket(rpm, times), KeyParams(rpm), times, a, b), KeyParams(rpm), times[b] - times[a])
  {
    var count := LoneGrants(rpm, times, a, b);
    assert count == Grants(LoneBucket(rpm, times), KeyParams(rpm), times, a, b);
    SameRoom(rpm, times, a, b, count, times[b] - times[a]);
    RoomForFits(rpm, count, times[b] - times[a]);
  }

  lemma LoneGrantedIff(rpm: nat, times: seq<real>, n: nat)
    requires rpm >= 1 && n < |times| && forall i, j :: 0 <= i <= j < |times| ==> times[i] <= times[j]
    ensures LoneGranted(rpm, times, n) <==> forall a :: 0 <= a <= n ==> LoneRoom(rpm, times, a, n)
  {
    GrantedIff(LoneBucket(rpm, times), KeyParams(rpm), times, n);
    forall a | 0 <= a <= n
      ensures LoneRoom(rpm, times, a, n)
         <==> Fits(Grants(LoneBucket(rpm, times), KeyParams(rpm), times, a, n), KeyParams(rpm), times[n] - times[a])
    {
      LoneRoomFits(rpm, times, a, n);
    }
  }

  lemma TimeAtPlace(rs: seq<Request>, key: string, k: nat)
    requires k < |rs| && KeyIn(rs[k].header) == key
    ensures Place(rs, key, k) < |TimesOf(rs, key)| && TimesOf(rs, key)[Place(rs, key, k)] == rs[k].now
  {
    assert rs[..k + 1][..k] == rs[..k];
    TimesOfPrefix(rs, key, k + 1);
  }

  lemma CountIsLoneGrants(keys: map<string, string>, rs: seq<Request>, key: string, i: nat, k: nat)
    requires key != "" && key in keys && i <= k <= |rs|
    ensures Place(rs, key, i) <= Place(rs, key, k) <= |TimesOf(rs, key)|
    ensures AdmittedCount(keys, rs, key, i, k)
         == LoneGrants(TierOf(keys[key]).rpm, TimesOf(rs, key), Place(rs, key, i), Place(rs, key, k))
  {
    AdmittedAreGrants(keys, rs, key, i, k);
  }

  lemma HasRoomFor(keys: map<string, string>, rs: seq<Request>, key: string, i: nat, k: nat,
                   rpm: nat, count: nat, length: real)
    requires key in keys && i <= k < |rs| && rpm == TierOf(keys[key]).rpm
    requires count == AdmittedCount(keys, rs, key, i, k) && length == rs[k].now - rs[i].now
    ensures HasRoom(keys, rs, key, i, k) <==> RoomFor(rpm, count, length)
  {
  }

  lemma RoomIsLoneRoom(keys: map<string, string>, rs: seq<Request>, key: string, i: nat, k: nat)
    requires key != "" && key in keys && i <= k < |rs|
    requires KeyIn(rs[i].header) == key && KeyIn(rs[k].header) == key
    ensures Place(rs, key, i) <= Place(rs, key, k) < |TimesOf(rs, key)|
    ensures HasRoom(keys, rs, key, i, k)
       <==> LoneRoom(TierOf(keys[key]).rpm, TimesOf(rs, key), Place(rs, key, i), Place(rs, key, k))
  {
    TimeAtPlace(rs, key, i);
    TimeAtPlace(rs, key, k);
    CountIsLoneGrants(keys, rs, key, i, k);
    var rpm, count, length := TierOf(keys[key]).rpm, AdmittedCount(keys, rs, key, i, k), rs[k].now - rs[i].now;
    HasRoomFor(keys, rs, key, i, k, rpm, count, length);
    SameRoom(rpm, TimesOf(rs, key), Place(rs, key, i), Place(rs, key, k), count, length);
  }

  /** The rate limit is what the tier promises, no less: a request of a known key takes a token exactly if one
      more request fits every window of that key's requests up to it. */
  lemma AdmittedIff(keys: map<string, string>, rs: seq<Request>, key: string, k: nat)
    requires key != "" && key in keys && ClockOrdered(rs) && k < |rs| && KeyIn(rs[k].header) == key
    ensures Admitted(keys, rs, k)
       <==> forall i :: 0 <= i <= k && KeyIn(rs[i].header) == key ==> HasRoom(keys, rs, key, i, k)
  {
    var times, rpm, n := TimesOf(rs, key), TierOf(keys[key]).rpm, Place(rs, key, k);
    AnswerIsLoneBuckets(keys, rs, key, k);
    TimesOfOrdered(rs, key);
    LoneGrantedIff(rpm, times, n);
    forall i | 0 <= i <= k && KeyIn(rs[i].header) == key
      ensures Place(rs, key, i) <= n && (HasRoom(keys, rs, key, i, k) <==> LoneRoom(rpm, times, Place(rs, key, i), n))
    {
      RoomIsLoneRoom(keys, rs, key, i, k);
    }
    if !Admitted(keys, rs, k) {
      var a :| 0 <= a <= n && !LoneRoom(rpm, times, a, n);
      NextPlace(rs, key, k);
      var i := RequestBehind(rs, key, 0, k + 1, a);
      assert !HasRoom(keys, rs, key, i, k);
    }
  }

  /** None of a key's requests i to j - 1 admitted: none of the lone bucket's visits there granted. */
  lemma NoneGranted(keys: map<string, string>, rs: seq<Request>, key: string, i: nat, j: nat, n: nat)
    requires key != "" && key in keys && i <= j <= |rs| && Place(rs, key, i) <= n < Place(rs, key, j)
    requires forall k :: i <= k < j && KeyIn(rs[k].header) == key ==> !Admitted(keys, rs, k)
    ensures n < |TimesOf(rs, key)| && !LoneGranted(TierOf(keys[key]).rpm, TimesOf(rs, key), n)
  {
    var k := RequestBehind(rs, key, i, j, n);
    AnswerIsLoneBuckets(keys, rs, key, k);
  }

  lemma {:induction false} PlacesGrow(rs: seq<Request>, key: string, i: nat, j: nat)
    requires i < j <= |rs| && KeyIn(rs[i].header) == key
    ensures Place(rs, key, i) < Place(rs, key, j)
    decreases j
  {
    NextPlace(rs, key, j - 1);
    if i < j - 1 {
      PlacesGrow(rs, key, i, j - 1);
    }
  }

  /** The Retry-After promise, in any run: if a key is refused at request i and makes a request at
      least the advertised seconds later, with none of its requests admitted in between, it is admitted. */
  lemma RetryAfterSuffices(keys: map<string, string>, rs: seq<Request>, key: string, i: nat, j: nat)
    requires ClockOrdered(rs) && i < j < |rs|
    requires KeyIn(rs[i].header) == key && KeyIn(rs[j].header) == key
    requires ResponseAt(keys, rs, i).TooMany?
    requires rs[j].now >= rs[i].now + Minutes(ResponseAt(keys, rs, i).retryAfter)
    requires forall k :: i < k < j && KeyIn(rs[k].header) == key ==> !Admitted(keys, rs, k)
    ensures Admitted(keys, rs, j)
  {
    var times, rpm := TimesOf(rs, key), TierOf(keys[key]).rpm;
    var x, y, wait := Place(rs, key, i), Place(rs, key, j), Minutes(RetryAfter(rpm));
    AnswerIsLoneBuckets(keys, rs, key, i);
    AnswerIsLoneBuckets(keys, rs, key, j);
    PlacesGrow(rs, key, i, j);
    TimesOfOrdered(rs, key);
    forall n | x <= n < y ensures !LoneGranted(rpm, times, n) {
      NoneGranted(keys, rs, key, i, j, n);
    }
    assert RefusedUntil(rpm, wait, times, x, y);
    RetryAfterInMinutes(rpm);
    RetryOnLoneBucket(rpm, wait, times, x, y);
  }
}
