/** chain/chain.go: what the cooldown of an open breaker keeps from a provider, and what it does not. Searches
    that passed the check before the breaker opened go on with their tries. */
module Cooldown {
  import opened ChainRuns
  import opened CircuitBreaker
  import opened Fallback
  import opened Options
  import opened RateLimit
  import opened TokenBucket

  /** Between the check of entry e and the record of its outcome. */
  predicate TriesOn(pc: Pc, e: nat) {
    (pc.Waiting? || pc.Calling? || pc.Pausing?) && pc.i == e
  }

  function Trying(searches: map<nat, Pc>, e: nat): set<nat> {
    set id | id in searches && TriesOn(searches[id], e)
  }

  /** A search takes up its tries on an entry by passing the check, and in no other way. */
  lemma StartsTrying(cfg: seq<Config>, s: System, m: Stamped, id: nat, e: nat)
    requires |s.entries| == |cfg| && Do(cfg, s, m).Some?
    requires id in Trying(Do(cfg, s, m).value.searches, e) && id !in Trying(s.searches, e)
    ensures m.move == Act(id, Passed(e))
  {
  }

  /** Whoever is trying passed the check at some earlier move. */
  lemma {:induction false} TryingPassed(cfg: seq<Config>, t0: real, run: seq<Stamped>, id: nat, e: nat)
    requires Run(cfg, t0, run).Some? && id in Trying(Run(cfg, t0, run).value.searches, e)
    ensures exists p :: 0 <= p < |run| && run[p].move == Act(id, Passed(e))
  {
    if run != [] {
      var before, m := run[..|run| - 1], run[|run| - 1];
      if id in Trying(Run(cfg, t0, before).value.searches, e) {
        TryingPassed(cfg, t0, before, id, e);
        var p :| 0 <= p < |before| && before[p].move == Act(id, Passed(e));
        assert run[p] == before[p];
      } else {
        StartsTrying(cfg, Run(cfg, t0, before).value, m, id, e);
      }
    }
  }

  predicate IsCall(m: Stamped, e: nat) {
    m.move.Act? && m.move.ev.Called? && m.move.ev.entry == e
  }

  lemma CallerIsTrying(cfg: seq<Config>, s: System, m: Stamped, e: nat)
    requires |s.entries| == |cfg| && Do(cfg, s, m).Some? && IsCall(m, e)
    ensures m.move.id in Trying(s.searches, e)
  {
  }

  lemma {:induction false} MovesOrdered(cfg: seq<Config>, t0: real, run: seq<Stamped>, p: nat, l: nat)
    requires Run(cfg, t0, run).Some? && p <= l < |run|
    ensures run[p].at <= run[l].at <= Run(cfg, t0, run).value.now
  {
    var before := run[..|run| - 1];
    DoAdvances(cfg, Run(cfg, t0, before).value, run[|run| - 1]);
    if l < |run| - 1 {
      MovesOrdered(cfg, t0, before, p, l);
    } else if p < l {
      MovesOrdered(cfg, t0, before, p, l - 1);
    }
  }

  /** A call to an entry within 30 s after a failure opened it comes from a search that had passed the check
      before the opening. */
  lemma LateCallPassedBefore(cfg: seq<Config>, t0: real, run: seq<Stamped>, e: nat, k: nat, l: nat)
    requires Run(cfg, t0, run).Some? && t0 >= ZERO_TIME && e < |cfg| && k < l < |run|
    requires OpensAt(run, e, k) && IsCall(run[l], e) && run[l].at < run[k].at + 30.0
    ensures exists p :: 0 <= p < k && run[p].move == Act(run[l].move.id, Passed(e))
  {
    MoveAt(cfg, t0, run, l);
    CallerIsTrying(cfg, Run(cfg, t0, run[..l]).value, run[l], e);
    TryingPassed(cfg, t0, run[..l], run[l].move.id, e);
    var p :| 0 <= p < l && run[..l][p].move == Act(run[l].move.id, Passed(e));
    MovesOrdered(cfg, t0, run, p, l);
    if p > k {
      NoPassDuringCooldown(cfg, t0, run, e, k, p);
    }
    assert p != k;
  }

  // ---- How many calls a cooldown lets through -------------------------------------------

  /** Calls to e made by the given searches. */
  function CallsAmong(run: seq<Stamped>, ids: set<nat>, e: nat): nat {
    if run == [] then 0
    else
      var m := run[|run| - 1];
      CallsAmong(run[..|run| - 1], ids, e) + if IsCall(m, e) && m.move.id in ids then 1 else 0
  }

  lemma {:induction false} CallsOfOne(run: seq<Stamped>, id: nat, e: nat)
    ensures CallsAmong(run, {id}, e) == CountsOf(LogOf(run, id), e).calls
  {
    if run != [] {
      var before, m := run[..|run| - 1], run[|run| - 1].move;
      CallsOfOne(before, id, e);
      if m.Act? && m.id == id {
        assert LogOf(run, id)[..|LogOf(run, id)| - 1] == LogOf(before, id);
      } else {
        assert LogOf(run, id) == LogOf(before, id);
      }
    }
  }

  lemma {:induction false} CallsAmongSplit(run: seq<Stamped>, ids: set<nat>, id: nat, e: nat)
    requires id in ids
    ensures CallsAmong(run, ids, e) == CallsAmong(run, ids - {id}, e) + CallsAmong(run, {id}, e)
  {
    if run != [] {
      CallsAmongSplit(run[..|run| - 1], ids, id, e);
    }
  }

  /** The most calls an entry gets from one search. */
  function Tries(retries: int): nat {
    if retries >= 0 then retries + 1 else 0
  }

  lemma SearchTries(retries: seq<int>, log: seq<Event>, e: nat)
    requires e < |retries| && PcAfter(retries, log).Some?
    ensures CountsOf(log, e).calls <= Tries(retries[e])
  {
    SearchCounts(retries, log, e);
  }

  lemma CallsPerSearch(cfg: seq<Config>, t0: real, run: seq<Stamped>, id: nat, e: nat)
    requires Run(cfg, t0, run).Some? && e < |cfg|
    ensures CallsAmong(run, {id}, e) <= Tries(cfg[e].retries)
  {
    CallsOfOne(run, id, e);
    SearchesFollowLogs(cfg, t0, run, id);
    if LogOf(run, id) != [] {
      SearchTries(Retries(cfg), LogOf(run, id), e);
    }
  }

  lemma {:induction false} CallsPerSet(cfg: seq<Config>, t0: real, run: seq<Stamped>, ids: set<nat>, e: nat)
    requires Run(cfg, t0, run).Some? && e < |cfg|
    ensures CallsAmong(run, ids, e) <= |ids| * Tries(cfg[e].retries)
    decreases ids
  {
    if ids == {} {
      NobodyCalls(run, e);
    } else {
      var id :| id in ids;
      CallsAmongSplit(run, ids, id, e);
      CallsPerSet(cfg, t0, run, ids - {id}, e);
      CallsPerSearch(cfg, t0, run, id, e);
      assert |ids| * Tries(cfg[e].retries) == |ids - {id}| * Tries(cfg[e].retries) + Tries(cfg[e].retries);
    }
  }

  lemma {:induction false} NobodyCalls(run: seq<Stamped>, e: nat)
    ensures CallsAmong(run, {}, e) == 0
  {
    if run != [] {
      NobodyCalls(run[..|run| - 1], e);
    }
  }

  lemma OpensInPrefix(run: seq<Stamped>, e: nat, k: nat, n: nat)
    requires k < n <= |run| && OpensAt(run, e, k)
    ensures OpensAt(run[..n], e, k) && run[..n][..k + 1] == run[..k + 1]
  {
    assert run[..n][..k + 1] == run[..k + 1];
  }

  /** During the cooldown nobody joins those that try. */
  lemma {:induction false} NobodyJoins(cfg: seq<Config>, t0: real, run: seq<Stamped>, e: nat, k: nat)
    requires Run(cfg, t0, run).Some? && t0 >= ZERO_TIME && e < |cfg| && k < |run|
    requires OpensAt(run, e, k) && run[|run| - 1].at < run[k].at + 30.0
    ensures Run(cfg, t0, run[..k + 1]).Some?
    ensures Trying(Run(cfg, t0, run).value.searches, e) <= Trying(Run(cfg, t0, run[..k + 1]).value.searches, e)
    decreases |run|
  {
    if k == |run| - 1 {
      assert run[..k + 1] == run;
    } else {
      var before, l := run[..|run| - 1], |run| - 1;
      MovesOrdered(cfg, t0, run, l - 1, l);
      OpensInPrefix(run, e, k, l);
      NobodyJoins(cfg, t0, before, e, k);
      forall id | id in Trying(Run(cfg, t0, run).value.searches, e)
        ensures id in Trying(Run(cfg, t0, before).value.searches, e)
      {
        if id !in Trying(Run(cfg, t0, before).value.searches, e) {
          StartsTrying(cfg, Run(cfg, t0, before).value, run[l], id, e);
          NoPassDuringCooldown(cfg, t0, run, e, k, l);
        }
      }
    }
  }

  /** A call after move k is made by one of those trying then. */
  lemma CallerTried(cfg: seq<Config>, t0: real, run: seq<Stamped>, m: Stamped, e: nat, k: nat, first: seq<Stamped>)
    requires Run(cfg, t0, run).Some? && t0 >= ZERO_TIME && e < |cfg| && k < |run| && first == run[..k + 1]
    requires OpensAt(run, e, k) && run[|run| - 1].at < run[k].at + 30.0
    requires Do(cfg, Run(cfg, t0, run).value, m).Some? && IsCall(m, e)
    ensures Run(cfg, t0, first).Some? && m.move.id in Trying(Run(cfg, t0, first).value.searches, e)
  {
    NobodyJoins(cfg, t0, run, e, k);
    CallerIsTrying(cfg, Run(cfg, t0, run).value, m, e);
  }

  lemma BeforeCall(cfg: seq<Config>, t0: real, run: seq<Stamped>, e: nat, k: nat, l: nat, before: seq<Stamped>)
    requires Run(cfg, t0, run).Some? && k < l < |run| && before == run[..l]
    requires OpensAt(run, e, k) && run[l].at < run[k].at + 30.0
    ensures Run(cfg, t0, before).Some? && Do(cfg, Run(cfg, t0, before).value, run[l]).Some?
    ensures k < |before| && before[..k + 1] == run[..k + 1] && OpensAt(before, e, k)
    ensures before[|before| - 1].at < before[k].at + 30.0
  {
    MoveAt(cfg, t0, run, l);
    MovesOrdered(cfg, t0, run, l - 1, l);
    OpensInPrefix(run, e, k, l);
  }

  lemma LateCallerTried(cfg: seq<Config>, t0: real, run: seq<Stamped>, e: nat, k: nat, l: nat)
    requires Run(cfg, t0, run).Some? && t0 >= ZERO_TIME && e < |cfg| && k < l < |run|
    requires OpensAt(run, e, k) && IsCall(run[l], e) && run[l].at < run[k].at + 30.0
    ensures Run(cfg, t0, run[..k + 1]).Some?
    ensures run[l].move.id in Trying(Run(cfg, t0, run[..k + 1]).value.searches, e)
  {
    BeforeCall(cfg, t0, run, e, k, l, run[..l]);
    CallerTried(cfg, t0, run[..l], run[l], e, k, run[..k + 1]);
  }

  /** If all calls from move n on are by the given searches, they are among the calls of those. */
  lemma {:induction false} CallsWithin(run: seq<Stamped>, e: nat, n: nat, ids: set<nat>)
    requires n <= |run| && forall l :: n <= l < |run| && IsCall(run[l], e) ==> run[l].move.id in ids
    ensures CallsOf(run, e) - CallsOf(run[..n], e) <= CallsAmong(run, ids, e)
  {
    if n == |run| {
      assert run[..n] == run;
    } else {
      var before := run[..|run| - 1];
      assert before[..n] == run[..n];
      CallsWithin(before, e, n, ids);
    }
  }

  /** In the 30 s after an opening an entry gets at most retries + 1 calls from each search that was between its
      check and its outcome when the breaker opened, and none from any other. */
  lemma CallsDuringCooldown(cfg: seq<Config>, t0: real, run: seq<Stamped>, e: nat, k: nat)
    requires Run(cfg, t0, run).Some? && t0 >= ZERO_TIME && e < |cfg| && k < |run|
    requires OpensAt(run, e, k) && run[|run| - 1].at < run[k].at + 30.0
    ensures Run(cfg, t0, run[..k + 1]).Some?
    ensures CallsOf(run, e) - CallsOf(run[..k + 1], e)
         <= |Trying(Run(cfg, t0, run[..k + 1]).value.searches, e)| * Tries(cfg[e].retries)
  {
    RunPrefix(cfg, t0, run, k + 1);
    var ids := Trying(Run(cfg, t0, run[..k + 1]).value.searches, e);
    forall l | k + 1 <= l < |run| && IsCall(run[l], e) ensures run[l].move.id in ids {
      MovesOrdered(cfg, t0, run, l, |run| - 1);
      LateCallerTried(cfg, t0, run, e, k, l);
    }
    CallsWithin(run, e, k + 1, ids);
    CallsPerSet(cfg, t0, run, ids, e);
  }

  // ---- A call during the cooldown -------------------------------------------------------

  /** One entry without retries, four tokens. */
  const ONE: seq<Config> := [Config(0, 4.0)]

  function AtZero(move: Move): Stamped {
    Stamped(0.0, move)
  }

  lemma OneRetries()
    ensures Retries(ONE) == [0] && ParamsFor(4.0) == Params(4.0, 4.0)
  {
  }

  /** The run of that entry ends in the given state, at time 0. */
  predicate Ends(run: seq<Stamped>, shared: Shared, searches: map<nat, Pc>) {
    Run(ONE, 0.0, run) == Some(System([shared], searches, 0.0))
  }

  lemma StartMoves(run: seq<Stamped>, shared: Shared, searches: map<nat, Pc>, id: nat)
    requires Ends(run, shared, searches) && id !in searches
    ensures Ends(run + [AtZero(Start(id))], shared, searches[id := Checking(0)])
  {
    OneRetries();
    assert (run + [AtZero(Start(id))])[..|run|] == run;
  }

  lemma RunNext(run: seq<Stamped>, s: System, m: Stamped)
    requires Run(ONE, 0.0, run) == Some(s)
    ensures |s.entries| == 1 && Run(ONE, 0.0, run + [m]) == Do(ONE, s, m)
  {
    assert (run + [m])[..|run|] == run;
  }

  lemma DoAct(shared: Shared, searches: map<nat, Pc>, id: nat, ev: Event, shared': Shared, pc': Pc)
    requires id in searches && ev.entry == 0
    requires Next(Retries(ONE), searches[id], ev) == Some(pc') && Touch(ONE[0], shared, ev, 0.0) == Some(shared')
    ensures Do(ONE, System([shared], searches, 0.0), AtZero(Act(id, ev)))
         == Some(System([shared'], searches[id := pc'], 0.0))
  {
    assert [shared][0 := shared'] == [shared'];
  }

  /** A search does its next event on the entry. */
  lemma ActMoves(run: seq<Stamped>, shared: Shared, searches: map<nat, Pc>, id: nat, pc: Pc, ev: Event,
                 shared': Shared, pc': Pc)
    requires Ends(run, shared, searches[id := pc]) && ev.entry == 0
    requires Next([0], pc, ev) == Some(pc') && Touch(ONE[0], shared, ev, 0.0) == Some(shared')
    ensures Ends(run + [AtZero(Act(id, ev))], shared', searches[id := pc'])
  {
    OneRetries();
    RunNext(run, System([shared], searches[id := pc], 0.0), AtZero(Act(id, ev)));
    DoAct(shared, searches[id := pc], id, ev, shared', pc');
    assert searches[id := pc][id := pc'] == searches[id := pc'];
  }

  /** The entry after some failures, with some tokens left. */
  function With(fails: nat, until: real, tokens: real): Shared {
    Shared(Breaker(fails, until), Bucket(tokens, 0.0))
  }

  lemma VisitAtZero(tokens: real)
    requires 1.0 <= tokens <= 4.0
    ensures TokenBucket.Visit(Bucket(tokens, 0.0), Params(4.0, 4.0), 0.0) == Outcome(Bucket(tokens - 1.0, 0.0), true)
  {
    assert Inflow(Params(4.0, 4.0), 0.0, 0.0) == 0.0;
  }

  lemma TouchGrant(fails: nat, tokens: real)
    requires 1.0 <= tokens <= 4.0
    ensures Touch(ONE[0], With(fails, 0.0, tokens), Granted(0), 0.0) == Some(With(fails, 0.0, tokens - 1.0))
  {
    VisitAtZero(tokens);
    OneRetries();
    assert ParamsFor(ONE[0].rps) == Params(4.0, 4.0);
  }

  /** A search begins, passes the check and gets a token. */
  function EnterMoves(id: nat): seq<Stamped> {
    [AtZero(Start(id)), AtZero(Act(id, Passed(0))), AtZero(Act(id, Granted(0)))]
  }

  lemma AfterPass(run: seq<Stamped>, id: nat, fails: nat, tokens: real, searches: map<nat, Pc>)
    requires Ends(run, With(fails, 0.0, tokens), searches) && id !in searches
    ensures Ends(run + [AtZero(Start(id))] + [AtZero(Act(id, Passed(0)))], With(fails, 0.0, tokens),
                 searches[id := Waiting(0, 0)])
  {
    var shared := With(fails, 0.0, tokens);
    StartMoves(run, shared, searches, id);
    ActMoves(run + [AtZero(Start(id))], shared, searches, id, Checking(0), Passed(0), shared, Waiting(0, 0));
  }

  lemma AfterEnter(run: seq<Stamped>, id: nat, fails: nat, tokens: real, searches: map<nat, Pc>)
    requires Ends(run, With(fails, 0.0, tokens), searches) && id !in searches && 1.0 <= tokens <= 4.0
    ensures Ends(run + EnterMoves(id), With(fails, 0.0, tokens - 1.0), searches[id := Calling(0, 0)])
  {
    AfterPass(run, id, fails, tokens, searches);
    TouchGrant(fails, tokens);
    var passed := run + [AtZero(Start(id))] + [AtZero(Act(id, Passed(0)))];
    ActMoves(passed, With(fails, 0.0, tokens), searches, id, Waiting(0, 0), Granted(0),
             With(fails, 0.0, tokens - 1.0), Calling(0, 0));
    assert run + EnterMoves(id) == passed + [AtZero(Act(id, Granted(0)))];
  }

  /** It calls, is told to slow down, and records the failure. */
  function FailMoves(id: nat): seq<Stamped> {
    [AtZero(Act(id, Called(0, 0, Throttled))), AtZero(Act(id, Recorded(0)))]
  }

  lemma AfterCall(run: seq<Stamped>, id: nat, shared: Shared, searches: map<nat, Pc>)
    requires Ends(run, shared, searches[id := Calling(0, 0)])
    ensures Ends(run + [AtZero(Act(id, Called(0, 0, Throttled)))], shared, searches[id := Failing(0)])
  {
    ActMoves(run, shared, searches, id, Calling(0, 0), Called(0, 0, Throttled), shared, Failing(0));
  }

  lemma AfterRecord(run: seq<Stamped>, id: nat, shared: Shared, searches: map<nat, Pc>)
    requires Ends(run, shared, searches[id := Failing(0)])
    ensures Ends(run + [AtZero(Act(id, Recorded(0)))], shared.(breaker := OnFailure(shared.breaker, 0.0)),
                 searches[id := Finished(NoResults)])
  {
    ActMoves(run, shared, searches, id, Failing(0), Recorded(0),
             shared.(breaker := OnFailure(shared.breaker, 0.0)), Finished(NoResults));
  }

  lemma AfterFail(run: seq<Stamped>, id: nat, shared: Shared, searches: map<nat, Pc>)
    requires Ends(run, shared, searches[id := Calling(0, 0)])
    ensures Ends(run + FailMoves(id), shared.(breaker := OnFailure(shared.breaker, 0.0)),
                 searches[id := Finished(NoResults)])
  {
    var call := AtZero(Act(id, Called(0, 0, Throttled)));
    AfterCall(run, id, shared, searches);
    AfterRecord(run + [call], id, shared, searches);
    assert run + FailMoves(id) == run + [call] + [AtZero(Act(id, Recorded(0)))];
  }

  lemma AfterEnterAndFail(run: seq<Stamped>, id: nat, fails: nat, tokens: real, searches: map<nat, Pc>)
    requires Ends(run, With(fails, 0.0, tokens), searches) && id !in searches && 1.0 <= tokens <= 4.0
    ensures var b := OnFailure(Breaker(fails, 0.0), 0.0);
      Ends(run + EnterMoves(id) + FailMoves(id), With(b.fails, b.openUntil, tokens - 1.0),
           searches[id := Finished(NoResults)])
  {
    AfterEnter(run, id, fails, tokens, searches);
    AfterFail(run + EnterMoves(id), id, With(fails, 0.0, tokens - 1.0), searches);
  }

  lemma BeforeAnything()
    ensures Ends([], With(0, 0.0, 4.0), map[])
  {
    assert FullBucket(ONE[0], 0.0) == Bucket(4.0, 0.0);
    assert Initial(ONE, 0.0).entries == [With(0, 0.0, 4.0)];
  }

  /** Search 0 enters and stays. */
  function StayingRun(): seq<Stamped> {
    EnterMoves(0)
  }

  lemma AfterStaying()
    ensures Ends(StayingRun(), With(0, 0.0, 3.0), map[0 := Calling(0, 0)])
  {
    BeforeAnything();
    AfterEnter([], 0, 0, 4.0, map[]);
    assert [] + EnterMoves(0) == EnterMoves(0);
  }

  /** Searches 1, ..., n enter and fail. */
  function FailingRun(n: nat): seq<Stamped> {
    if n == 0 then StayingRun() else FailingRun(n - 1) + EnterMoves(n) + FailMoves(n)
  }

  function FailedSearches(n: nat): (searches: map<nat, Pc>)
    ensures 0 in searches && searches[0] == Calling(0, 0)
    ensures forall id :: id in searches ==> id <= n
  {
    if n == 0 then map[0 := Calling(0, 0)] else FailedSearches(n - 1)[n := Finished(NoResults)]
  }

  lemma OneMoreFails(run: seq<Stamped>, n: nat, searches: map<nat, Pc>)
    requires 1 <= n <= 3 && n !in searches && Ends(run, With(n - 1, 0.0, 4.0 - n as real), searches)
    ensures Ends(run + EnterMoves(n) + FailMoves(n),
                 if n < 3 then With(n, 0.0, 3.0 - n as real) else With(0, COOLDOWN, 0.0),
                 searches[n := Finished(NoResults)])
  {
    AfterEnterAndFail(run, n, n - 1, 4.0 - n as real, searches);
    assert OnFailure(Breaker(n - 1, 0.0), 0.0) == if n < 3 then Breaker(n, 0.0) else Breaker(0, COOLDOWN);
  }

  lemma AfterOne()
    ensures Ends(FailingRun(1), With(1, 0.0, 2.0), FailedSearches(1))
  {
    AfterStaying();
    OneMoreFails(FailingRun(0), 1, FailedSearches(0));
  }

  lemma AfterTwo()
    ensures Ends(FailingRun(2), With(2, 0.0, 1.0), FailedSearches(2))
  {
    AfterOne();
    OneMoreFails(FailingRun(1), 2, FailedSearches(1));
  }

  /** The third failure opens the breaker. */
  lemma AfterOpening()
    ensures Ends(FailingRun(3), With(0, COOLDOWN, 0.0), FailedSearches(3))
  {
    AfterTwo();
    OneMoreFails(FailingRun(2), 3, FailedSearches(2));
  }

  /** Three searches fail and open the breaker; a fourth, already past the check, calls the provider then. */
  lemma CallDespiteCooldown() returns (run: seq<Stamped>, k: nat, l: nat)
    ensures Run(ONE, 0.0, run).Some? && k < l < |run| && OpensAt(run, 0, k)
    ensures IsCall(run[l], 0) && run[l].at < run[k].at + 30.0
  {
    var before, call := FailingRun(3), Called(0, 0, Throttled);
    run, k, l := before + [AtZero(Act(0, call))], |before| - 1, |before|;
    AfterOpening();
    var searches := FailedSearches(3);
    assert searches[0 := Calling(0, 0)] == searches;
    ActMoves(before, With(0, COOLDOWN, 0.0), searches, 0, Calling(0, 0), call, With(0, COOLDOWN, 0.0), Failing(0));
    assert run[..k + 1] == before;
    assert run[k] == FailMoves(3)[1];
    EntryLedger(ONE, 0.0, before, 0);
  }
}
