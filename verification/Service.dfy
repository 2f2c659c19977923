/** chain/chain.go under concurrency: what the chain gives. A limiter grants all that its rate promises, and every
    search can go on to its end. */
module Service {
  import opened Backoff
  import opened ChainRuns
  import opened CircuitBreaker
  import opened Fallback
  import opened Options
  import opened RateLimit
  import opened TokenBucket

  // ---- The limiter grants what its rate promises ----------------------------------------

  /** Move m asks the limiter of entry e for a token. */
  predicate IsPoll(m: Stamped, e: nat) {
    (m.move.Act? && m.move.ev == Granted(e)) || (m.move.Refuse? && m.move.entry == e)
  }

  /** One more grant keeps a window of the given length, in seconds, within rps * (1 + length); a rate that is
      not positive counts as 1. */
  predicate RateAllows(rps: real, grants: int, length: real) {
    grants as real + 1.0 <= if rps > 0.0 then rps * (1.0 + length) else 1.0 + length
  }

  lemma RateAllowsFits(rps: real, grants: nat, length: real)
    ensures RateAllows(rps, grants, length) <==> Fits(grants, ParamsFor(rps), length)
  {
    var r := EffectiveRate(rps);
    assert r * (1.0 + length) == r + length * r;
  }

  lemma {:induction false} PollBehind(run: seq<Stamped>, e: nat, i: nat) returns (j: nat)
    requires i < |PollsOf(run, e)|
    ensures j < |run| && IsPoll(run[j], e) && |PollsOf(run[..j], e)| == i
  {
    var m := |run| - 1;
    if i < |PollsOf(run[..m], e)| {
      j := PollBehind(run[..m], e, i);
      assert run[..m][..j] == run[..j];
    } else {
      j := m;
    }
  }

  lemma PollAt(cfg: seq<Config>, t0: real, run: seq<Stamped>, e: nat, j: nat)
    requires Run(cfg, t0, run).Some? && j < |run| && IsPoll(run[j], e)
    ensures var polls, i := PollsOf(run, e), |PollsOf(run[..j], e)|;
      i < |polls| && polls[i] == run[j].at && polls[..i] == PollsOf(run[..j], e)
  {
    assert run[..j + 1][..j] == run[..j];
    PollsFrom(cfg, t0, run, e, j + 1);
    PollsFrom(cfg, t0, run, e, j);
  }

  /** The grants between two polls, in moves and in the bucket's terms. */
  lemma GrantsBetween(cfg: seq<Config>, t0: real, run: seq<Stamped>, e: nat, j: nat, l: nat)
    requires Run(cfg, t0, run).Some? && e < |cfg| && j <= l < |run| && IsPoll(run[j], e) && IsPoll(run[l], e)
    ensures var polls, i, n := PollsOf(run, e), |PollsOf(run[..j], e)|, |PollsOf(run[..l], e)|;
      && i <= n < |polls|
      && Grants(FullBucket(cfg[e], t0), ParamsFor(cfg[e].rps), polls, i, n)
         == GrantsOf(run[..l], e) - GrantsOf(run[..j], e)
  {
    var b, p, polls := FullBucket(cfg[e], t0), ParamsFor(cfg[e].rps), PollsOf(run, e);
    var i, n := |PollsOf(run[..j], e)|, |PollsOf(run[..l], e)|;
    PollAt(cfg, t0, run, e, j);
    PollAt(cfg, t0, run, e, l);
    RunPrefix(cfg, t0, run, l);
    RunPrefix(cfg, t0, run, j);
    assert run[..l][..j] == run[..j];
    PollsFrom(cfg, t0, run[..l], e, j);
    GrantsArePolls(cfg, t0, run[..l], e);
    GrantsArePolls(cfg, t0, run[..j], e);
    GrantsPrefix(b, p, polls, n, n);
    GrantsPrefix(b, p, polls, i, i);
    GrantsSplit(b, p, polls, i, n);
  }

  /** A poll's answer is the bucket's. */
  lemma PollAnswer(cfg: seq<Config>, t0: real, run: seq<Stamped>, e: nat, l: nat)
    requires Run(cfg, t0, run).Some? && e < |cfg| && l < |run| && IsPoll(run[l], e)
    ensures var polls, n := PollsOf(run, e), |PollsOf(run[..l], e)|;
      && n < |polls|
      && (run[l].move.Act? <==> TokenBucket.Granted(FullBucket(cfg[e], t0), ParamsFor(cfg[e].rps), polls, n))
  {
    PollAt(cfg, t0, run, e, l);
    MoveAt(cfg, t0, run, l);
    BucketFollowsPolls(cfg, t0, run[..l], e);
    PollNeedsGrant(cfg, Run(cfg, t0, run[..l]).value, run[l], e);
  }

  lemma PollNeedsGrant(cfg: seq<Config>, s: System, m: Stamped, e: nat)
    requires |s.entries| == |cfg| && e < |cfg| && Do(cfg, s, m).Some? && IsPoll(m, e)
    ensures m.move.Act? <==> TokenBucket.Visit(s.entries[e].bucket, ParamsFor(cfg[e].rps), m.at).granted
  {
  }

  /** One more grant fits the window from poll i to poll n. */
  predicate PollFits(c: Config, t0: real, polls: seq<real>, i: nat, n: nat)
    requires i <= n < |polls|
  {
    Fits(Grants(FullBucket(c, t0), ParamsFor(c.rps), polls, i, n), ParamsFor(c.rps), polls[n] - polls[i])
  }

  lemma PollFitsAs(c: Config, t0: real, polls: seq<real>, i: nat, n: nat, grants: nat, length: real)
    requires i <= n < |polls| && grants == Grants(FullBucket(c, t0), ParamsFor(c.rps), polls, i, n)
    requires length == polls[n] - polls[i]
    ensures PollFits(c, t0, polls, i, n) <==> Fits(grants, ParamsFor(c.rps), length)
  {
  }

  lemma PollsFit(c: Config, t0: real, polls: seq<real>, n: nat)
    requires n < |polls| && Ordered(FullBucket(c, t0), polls)
    ensures TokenBucket.Granted(FullBucket(c, t0), ParamsFor(c.rps), polls, n)
       <==> forall i :: 0 <= i <= n ==> PollFits(c, t0, polls, i, n)
  {
    GrantedIff(FullBucket(c, t0), ParamsFor(c.rps), polls, n);
    forall i | 0 <= i <= n
      ensures PollFits(c, t0, polls, i, n)
         <==> Fits(Grants(FullBucket(c, t0), ParamsFor(c.rps), polls, i, n), ParamsFor(c.rps), polls[n] - polls[i])
    {
      PollFitsAs(c, t0, polls, i, n, Grants(FullBucket(c, t0), ParamsFor(c.rps), polls, i, n), polls[n] - polls[i]);
    }
  }

  /** The window from move j to move l has room for one more grant. */
  predicate WindowAllows(cfg: seq<Config>, run: seq<Stamped>, e: nat, j: nat, l: nat)
    requires e < |cfg| && j <= l < |run|
  {
    RateAllows(cfg[e].rps, GrantsOf(run[..l], e) - GrantsOf(run[..j], e), run[l].at - run[j].at)
  }

  lemma WindowFits(cfg: seq<Config>, t0: real, run: seq<Stamped>, e: nat, j: nat, l: nat)
    requires Run(cfg, t0, run).Some? && e < |cfg| && j <= l < |run| && IsPoll(run[j], e) && IsPoll(run[l], e)
    ensures var polls, i, n := PollsOf(run, e), |PollsOf(run[..j], e)|, |PollsOf(run[..l], e)|;
      i <= n < |polls| && (WindowAllows(cfg, run, e, j, l) <==> PollFits(cfg[e], t0, polls, i, n))
  {
    GrantsBetween(cfg, t0, run, e, j, l);
    PollAt(cfg, t0, run, e, j);
    PollAt(cfg, t0, run, e, l);
    var grants, length := GrantsOf(run[..l], e) - GrantsOf(run[..j], e), run[l].at - run[j].at;
    RateAllowsFits(cfg[e].rps, grants, length);
    PollFitsAs(cfg[e], t0, PollsOf(run, e), |PollsOf(run[..j], e)|, |PollsOf(run[..l], e)|, grants, length);
  }

  lemma PollBehindUpTo(cfg: seq<Config>, t0: real, run: seq<Stamped>, e: nat, i: nat, l: nat) returns (j: nat)
    requires Run(cfg, t0, run).Some? && l < |run| && IsPoll(run[l], e) && i <= |PollsOf(run[..l], e)|
    ensures j <= l && IsPoll(run[j], e) && |PollsOf(run[..j], e)| == i
  {
    if i == |PollsOf(run[..l], e)| {
      j := l;
    } else {
      j := PollBehind(run[..l], e, i);
      assert run[..l][..j] == run[..j];
    }
  }

  /** Whoever asks an entry's limiter, in any run, is granted a token exactly if one more grant fits every window
      from a request up to now: the rate is used up, not only kept. */
  lemma PollGrantedIff(cfg: seq<Config>, t0: real, run: seq<Stamped>, e: nat, l: nat)
    requires Run(cfg, t0, run).Some? && e < |cfg| && l < |run| && IsPoll(run[l], e)
    ensures run[l].move.Act? <==> forall j :: 0 <= j <= l && IsPoll(run[j], e) ==> WindowAllows(cfg, run, e, j, l)
  {
    var polls, n := PollsOf(run, e), |PollsOf(run[..l], e)|;
    PollAnswer(cfg, t0, run, e, l);
    PollsOrdered(cfg, t0, run, e);
    PollsFit(cfg[e], t0, polls, n);
    if run[l].move.Act? {
      forall j | 0 <= j <= l && IsPoll(run[j], e) ensures WindowAllows(cfg, run, e, j, l) {
        WindowFits(cfg, t0, run, e, j, l);
      }
    } else {
      var i :| 0 <= i <= n && !PollFits(cfg[e], t0, polls, i, n);
      var j := PollBehindUpTo(cfg, t0, run, e, i, l);
      WindowFits(cfg, t0, run, e, j, l);
    }
  }

  // ---- Every search can go on -----------------------------------------------------------

  /** No entry's bucket is too small for a token. */
  predicate RatesServe(cfg: seq<Config>) {
    forall e :: 0 <= e < |cfg| ==> cfg[e].rps <= 0.0 || cfg[e].rps >= 1.0
  }

  predicate Possible(cfg: seq<Config>, s: System, id: nat, ev: Event, at: real)
    requires |s.entries| == |cfg|
  {
    Do(cfg, s, Stamped(at, Act(id, ev))).Some?
  }

  /** A bucket that holds a token has one within a second. */
  lemma TokenWithinASecond(b: Bucket, p: Params, now: real)
    requires TokenBucket.InRange(b, p) && b.lastFill <= now && p.max >= 1.0 && p.rate >= 1.0
    ensures TokenBucket.Visit(b, p, now + 1.0).granted
  {
    var elapsed := now + 1.0 - b.lastFill;
    ProductNotBelow(elapsed, p.rate);
    assert Inflow(p, b.lastFill, now + 1.0) == elapsed * p.rate;
  }

  lemma ProductNotBelow(x: real, y: real)
    requires x >= 1.0 && y >= 1.0
    ensures x * y >= 1.0
  {
    ProductNotNegative(x - 1.0, y);
    assert x * y == (x - 1.0) * y + y;
  }

  /** The buckets hold what they can, and the clock has not run back. */
  predicate BucketsFine(cfg: seq<Config>, s: System)
    requires |s.entries| == |cfg|
  {
    forall e :: 0 <= e < |cfg| ==>
      TokenBucket.InRange(s.entries[e].bucket, ParamsFor(cfg[e].rps)) && s.entries[e].bucket.lastFill <= s.now
  }

  /** In a reachable state the buckets are in range, and a search is on an entry of the chain. */
  lemma Reached(cfg: seq<Config>, t0: real, run: seq<Stamped>, id: nat)
    requires Run(cfg, t0, run).Some?
    ensures var s := Run(cfg, t0, run).value;
      BucketsFine(cfg, s) && (id in s.searches ==> Fallback.InRange(Retries(cfg), s.searches[id]))
  {
    var s := Run(cfg, t0, run).value;
    forall e: nat | e < |cfg|
      ensures TokenBucket.InRange(s.entries[e].bucket, ParamsFor(cfg[e].rps)) && s.entries[e].bucket.lastFill <= s.now
    {
      BucketFollowsPolls(cfg, t0, run, e);
      PollsOrdered(cfg, t0, run, e);
      AfterInRange(FullBucket(cfg[e], t0), ParamsFor(cfg[e].rps), PollsOf(run, e));
    }
    SearchesFollowLogs(cfg, t0, run, id);
    if id in s.searches {
      SearchTerminates(Retries(cfg), LogOf(run, id));
    }
  }

  /** What a search at pc can do, and when: one of the two answers of the check; take a token within a second;
      get any answer from the provider; pause for any jitter or be cancelled, or panic where no jitter can be
      drawn; record. */
  ghost predicate CanGoOn(cfg: seq<Config>, s: System, id: nat, pc: Pc)
    requires |s.entries| == |cfg|
  {
    match pc
    case Checking(i) => Possible(cfg, s, id, Skipped(i), s.now) != Possible(cfg, s, id, Passed(i), s.now)
    case Waiting(i, _) => Possible(cfg, s, id, Event.Granted(i), s.now + 1.0)
    case Calling(i, a) => forall o :: Possible(cfg, s, id, Called(i, a, o), s.now)
    case Pausing(i, a) =>
      if CanPause(a) then
        && Possible(cfg, s, id, Cancelled(i), s.now)
        && forall j :: Jitter(a, j) ==> Possible(cfg, s, id, Slept(i, a, j), s.now)
      else Possible(cfg, s, id, Panicked(i), s.now)
    case Failing(i) => Possible(cfg, s, id, Recorded(i), s.now)
    case Winning(i, _) => Possible(cfg, s, id, Won(i), s.now)
    case Finished(_) => true
  }

  lemma TokenSoon(cfg: seq<Config>, s: System, e: nat)
    requires |s.entries| == |cfg| && RatesServe(cfg) && BucketsFine(cfg, s) && e < |cfg|
    ensures TokenBucket.Visit(s.entries[e].bucket, ParamsFor(cfg[e].rps), s.now + 1.0).granted
  {
    TokenWithinASecond(s.entries[e].bucket, ParamsFor(cfg[e].rps), s.now);
  }

  lemma GoesOn(cfg: seq<Config>, s: System, id: nat)
    requires |s.entries| == |cfg| && RatesServe(cfg) && BucketsFine(cfg, s)
    requires id in s.searches && Fallback.InRange(Retries(cfg), s.searches[id])
    ensures CanGoOn(cfg, s, id, s.searches[id])
  {
    match s.searches[id] {
      case Waiting(i, _) => TokenSoon(cfg, s, i);
      case _ =>
    }
  }

  /** No search is ever stuck, whatever the others do. */
  lemma EverySearchGoesOn(cfg: seq<Config>, t0: real, run: seq<Stamped>, id: nat)
    requires Run(cfg, t0, run).Some? && RatesServe(cfg) && id in Run(cfg, t0, run).value.searches
    ensures CanGoOn(cfg, Run(cfg, t0, run).value, id, Run(cfg, t0, run).value.searches[id])
  {
    Reached(cfg, t0, run, id);
    GoesOn(cfg, Run(cfg, t0, run).value, id);
  }

  /** A move that ends without a limiter error or a cancellation, and when it is possible. */
  function Onward(cfg: seq<Config>, s: System, id: nat): Stamped
    requires |s.entries| == |cfg| && id in s.searches && !s.searches[id].Finished? && EntryOf(s.searches[id]) < |cfg|
  {
    match s.searches[id]
    case Checking(i) => Stamped(s.now, Act(id, if IsOpen(s.entries[i].breaker, s.now) then Skipped(i) else Passed(i)))
    case Waiting(i, _) => Stamped(s.now + 1.0, Act(id, Event.Granted(i)))
    case Calling(i, a) => Stamped(s.now, Act(id, Called(i, a, Failed)))
    case Pausing(i, a) => Stamped(s.now, Act(id, if CanPause(a) then Slept(i, a, 0) else Panicked(i)))
    case Failing(i) => Stamped(s.now, Act(id, Recorded(i)))
    case Winning(i, _) => Stamped(s.now, Act(id, Won(i)))
  }

  /** The moves from n on are events of searches, none a limiter error or a cancellation. */
  predicate Unhindered(run: seq<Stamped>, n: nat) {
    forall k :: n <= k < |run| ==> run[k].move.Act? && !run[k].move.ev.Denied? && !run[k].move.ev.Cancelled?
  }

  /** One more event of a search, by which it comes closer to its end and the others stay where they are. */
  lemma OneOnward(cfg: seq<Config>, t0: real, run: seq<Stamped>, id: nat) returns (next: seq<Stamped>)
    requires Run(cfg, t0, run).Some? && RatesServe(cfg)
    requires id in Run(cfg, t0, run).value.searches && !Run(cfg, t0, run).value.searches[id].Finished?
    ensures run <= next && |next| == |run| + 1 && Unhindered(next, |run|) && Run(cfg, t0, next).Some?
    ensures var before, after := Run(cfg, t0, run).value.searches, Run(cfg, t0, next).value.searches;
      && id in after && after == before[id := after[id]]
      && 0 <= StepsLeft(Retries(cfg), after[id]) < StepsLeft(Retries(cfg), before[id])
  {
    var s := Run(cfg, t0, run).value;
    Reached(cfg, t0, run, id);
    GoesOn(cfg, s, id);
    var m := Onward(cfg, s, id);
    next := run + [m];
    assert next[..|run|] == run;
    StepsLeftDecreases(Retries(cfg), s.searches[id], m.move.ev);
  }

  /** One search runs to its end. */
  lemma FinishOne(cfg: seq<Config>, t0: real, run: seq<Stamped>, id: nat) returns (next: seq<Stamped>)
    requires Run(cfg, t0, run).Some? && RatesServe(cfg) && id in Run(cfg, t0, run).value.searches
    ensures run <= next && Unhindered(next, |run|) && Run(cfg, t0, next).Some?
    ensures var before, after := Run(cfg, t0, run).value.searches, Run(cfg, t0, next).value.searches;
      id in after && after == before[id := after[id]] && after[id].Finished?
    decreases StepsLeft(Retries(cfg), Run(cfg, t0, run).value.searches[id])
  {
    var before := Run(cfg, t0, run).value.searches;
    if before[id].Finished? {
      next := run;
      assert before == before[id := before[id]];
    } else {
      var one := OneOnward(cfg, t0, run, id);
      next := FinishOne(cfg, t0, one, id);
    }
  }

  function Unfinished(searches: map<nat, Pc>): set<nat> {
    set id | id in searches && !searches[id].Finished?
  }

  /** Every run goes on to one in which all its searches have finished, without any limiter error or
      cancellation. */
  lemma AllFinish(cfg: seq<Config>, t0: real, run: seq<Stamped>) returns (whole: seq<Stamped>)
    requires Run(cfg, t0, run).Some? && RatesServe(cfg)
    ensures run <= whole && Unhindered(whole, |run|) && Run(cfg, t0, whole).Some?
    ensures Run(cfg, t0, whole).value.searches.Keys == Run(cfg, t0, run).value.searches.Keys
    ensures Unfinished(Run(cfg, t0, whole).value.searches) == {}
    decreases Unfinished(Run(cfg, t0, run).value.searches)
  {
    var searches := Run(cfg, t0, run).value.searches;
    if Unfinished(searches) == {} {
      whole := run;
    } else {
      var id :| id in Unfinished(searches);
      var next := FinishOne(cfg, t0, run, id);
      assert id in Unfinished(searches) && id !in Unfinished(Run(cfg, t0, next).value.searches);
      whole := AllFinish(cfg, t0, next);
    }
  }
}
