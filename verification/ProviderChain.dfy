/** chain/chain.go: Chain.Search as the program it is, proved to follow the automaton of module Fallback. */
module ProviderChain {
  import opened Options
  import opened Backoff
  import opened CircuitBreaker
  import opened Fallback
  import opened Providers

  /** An entry as a search sees it; its limiter is asked through the outcome of Wait. */
  class Entry {
    const spec: EntrySpec
    var fails: nat
    var openUntil: real

    constructor (spec: EntrySpec)
      ensures this.spec == spec && State() == NEW_BREAKER
    {
      this.spec := spec;
      fails, openUntil := 0, ZERO_TIME;
    }

    function State(): Breaker
      reads this
    {
      Breaker(fails, openUntil)
    }

    method ReadOpen(now: real) returns (open: bool)
      ensures open == IsOpen(State(), now)
    {
      open := now < openUntil;
    }

    method RecordSuccess()
      modifies this
      ensures State() == OnSuccess(old(State()))
    {
      fails := 0;
    }

    method RecordFailure(now: real)
      modifies this
      ensures State() == OnFailure(old(State()), now)
    {
      fails := fails + 1;
      if fails >= THRESHOLD {
        openUntil := now + COOLDOWN;
        fails := 0;
      }
    }
  }

  /** time.Now() at some later moment. */
  method Tick(now: real) returns (later: real)
    ensures later >= now
  {
    later := *;
    if later < now {
      later := now;
    }
  }

  /** What entry j's breaker becomes after the events of a log that happened at the given times. */
  function Replay(b: Breaker, j: nat, log: seq<Event>, times: seq<real>): Breaker
    requires |log| == |times|
  {
    if log == [] then b
    else
      var k := |log| - 1;
      var before := Replay(b, j, log[..k], times[..k]);
      if log[k] == Recorded(j) then OnFailure(before, times[k])
      else if log[k] == Won(j) then OnSuccess(before)
      else before
  }

  /** An event that changes no breaker. */
  predicate Quiet(ev: Event) {
    !ev.Recorded? && !ev.Won?
  }

  lemma {:induction false} ReplaySplit(b: Breaker, j: nat, log: seq<Event>, times: seq<real>,
                                       evs: seq<Event>, ts: seq<real>)
    requires |log| == |times| && |evs| == |ts|
    ensures Replay(b, j, log + evs, times + ts) == Replay(Replay(b, j, log, times), j, evs, ts)
  {
    if evs == [] {
      assert log + evs == log && times + ts == times;
    } else {
      var m := |evs| - 1;
      assert (log + evs)[..|log + evs| - 1] == log + evs[..m];
      assert (times + ts)[..|log + evs| - 1] == times + ts[..m];
      ReplaySplit(b, j, log, times, evs[..m], ts[..m]);
    }
  }

  /** Events that leave entry j's breaker alone. */
  predicate QuietFor(j: nat, evs: seq<Event>) {
    forall k :: 0 <= k < |evs| ==> Quiet(evs[k]) || evs[k].entry != j
  }

  lemma {:induction false} ReplayQuiet(b: Breaker, j: nat, evs: seq<Event>, ts: seq<real>)
    requires |evs| == |ts| && QuietFor(j, evs)
    ensures Replay(b, j, evs, ts) == b
  {
    if evs != [] {
      var m := |evs| - 1;
      assert Quiet(evs[m]) || evs[m].entry != j;
      ReplayQuiet(b, j, evs[..m], ts[..m]);
    }
  }

  // ---- What the outside answers ---------------------------------------------------------

  /** The outside, asked about attempt a on entry i: whether the limiter's Wait succeeds, how the provider's
      Search comes back, and whether the context is cancelled before the pause is over. */
  datatype World = World(
    grants: (nat, nat) -> bool, answers: (nat, nat) -> Outcome, cancels: (nat, nat) -> bool)

  /** Attempt a gets its token, fails, and is slept off. */
  predicate FailsOn(w: World, i: nat, a: nat) {
    w.grants(i, a) && w.answers(i, a) == Failed && CanPause(a) && !w.cancels(i, a)
  }

  /** A visit to entry i went as the outside answers. */
  predicate Answered(w: World, i: nat, v: Visit) {
    var n := |v.jitters|;
    v.ending.Skip? || (
      && (forall a :: 0 <= a < n ==> FailsOn(w, i, a))
      && match v.ending
         case Throttle => w.grants(i, n) && w.answers(i, n) == Throttled
         case LimiterError => !w.grants(i, n)
         case Win(hits) => w.grants(i, n) && w.answers(i, n) == Hit(hits)
         case Abort => w.grants(i, n) && w.answers(i, n) == Failed && w.cancels(i, n)
         case Crash => w.grants(i, n) && w.answers(i, n) == Failed
         case _ => true)
  }

  // ---- The search -----------------------------------------------------------------------

  /** What one round of the retry loop comes to. */
  datatype Step = Again | GiveUp | Return(result: Result)

  /** The body of the retry loop. */
  method Attempt(w: World, i: nat, attempt: nat, start: real) returns (step: Step, now: real, ghost jitter: int)
    ensures now >= start
    ensures match step
      case Again =>
        FailsOn(w, i, attempt) && Jitter(attempt, jitter) && now >= start + Seconds(Pause(attempt, jitter))
      case GiveUp => !w.grants(i, attempt) || w.answers(i, attempt) == Throttled
      case Return(Found(e, hits)) => e == i && w.grants(i, attempt) && w.answers(i, attempt) == Hit(hits)
      case Return(Aborted) =>
        w.grants(i, attempt) && w.answers(i, attempt) == Failed && CanPause(attempt) && w.cancels(i, attempt)
      case Return(Crashed) => w.grants(i, attempt) && w.answers(i, attempt) == Failed && !CanPause(attempt)
      case Return(NoResults) => false
  {
    jitter := 0;
    now := Tick(start);
    if !w.grants(i, attempt) {
      return GiveUp, now, jitter;
    }
    var outcome := w.answers(i, attempt);
    if outcome.Hit? {
      return Return(Found(i, outcome.hits)), now, jitter;
    }
    if outcome.Throttled? {
      return GiveUp, now, jitter;
    }
    var pause := ComputeBackoff(attempt);
    if pause.None? {
      return Return(Crashed), now, jitter;
    }
    jitter :| Jitter(attempt, jitter) && pause.value == Pause(attempt, jitter);
    if w.cancels(i, attempt) {
      return Return(Aborted), now, jitter;
    }
    now := Tick(now + Seconds(pause.value));
    return Again, now, jitter;
  }

  /** What a visit makes the search return; None if it goes on to the next entry. */
  function ReturnOf(i: nat, v: Visit): Option<Result> {
    match v.ending
    case Win(hits) => Some(Found(i, hits))
    case Abort => Some(Aborted)
    case Crash => Some(Crashed)
    case _ => None
  }

  /** The retry loop on an entry that passed its breaker: a visit that the entry's retries admit and the outside
      answered, with the result to return, or with whether there is an error to be recorded; and it takes the time
      of its pauses. */
  method TryEntry(w: World, i: nat, most: int, start: real)
    returns (result: Option<Result>, err: bool, now: real, ghost v: Visit)
    ensures VisitOk(most, v) && !v.ending.Skip? && Answered(w, i, v)
    ensures result == ReturnOf(i, v)
    ensures result.None? ==> Closing(i, v) == if err then [Recorded(i)] else []
    ensures now >= start + SleptFor(v.jitters)
  {
    ghost var jitters: seq<int> := [];
    err, now := false, start;
    var attempt := 0;
    while attempt <= most
      invariant now >= start + SleptFor(jitters)
      invariant |jitters| == attempt && JittersOk(jitters) && err == (attempt > 0)
      invariant attempt > 0 ==> attempt <= most + 1
      invariant forall a :: 0 <= a < attempt ==> FailsOn(w, i, a)
      decreases most - attempt
    {
      var step;
      ghost var jitter;
      step, now, jitter := Attempt(w, i, attempt, now);
      err := true;
      if step.Return? {
        v := Visit(jitters, match step.result
                            case Found(_, hits) => Win(hits)
                            case Aborted => Abort
                            case _ => Crash);
        return Some(step.result), true, now, v;
      }
      if step.GiveUp? {
        v := Visit(jitters, if w.grants(i, attempt) then Throttle else LimiterError);
        return None, true, now, v;
      }
      SleptForSnoc(jitters, jitter);
      jitters := jitters + [jitter];
      attempt := attempt + 1;
    }
    result, v := None, Visit(jitters, Exhaust);
  }

  lemma {:induction false} TriesQuiet(i: nat, jitters: seq<int>)
    ensures forall k :: 0 <= k < |Tries(i, jitters)| ==>
      var ev := Tries(i, jitters)[k]; Quiet(ev) && ev.entry == i && !ev.Skipped? && !ev.Passed?
  {
    if jitters != [] {
      TriesQuiet(i, jitters[..|jitters| - 1]);
    }
  }

  /** A visit checks the breaker first and records last, if at all, all on its own entry. */
  lemma VisitEvents(i: nat, v: Visit)
    ensures VisitLog(i, v)[0] == if v.ending.Skip? then Skipped(i) else Passed(i)
    ensures forall k :: 0 <= k < |VisitLog(i, v)| ==>
      var ev := VisitLog(i, v)[k]; ev.entry == i && (k > 0 ==> !ev.Skipped? && !ev.Passed?)
    ensures !v.ending.Skip? ==> QuietFor(i, [Passed(i)] + Attempts(i, v))
  {
    TriesQuiet(i, v.jitters);
    assert |VisitLog(i, v)| >= 1;
  }

  /** Times that do not run back, none before start or after now. */
  predicate Timely(times: seq<real>, start: real, now: real) {
    && (forall k :: 0 <= k < |times| ==> start <= times[k] <= now)
    && (forall j, k :: 0 <= j <= k < |times| ==> times[j] <= times[k])
  }

  lemma TimelyAppend(times: seq<real>, ts: seq<real>, start: real, mid: real, now: real)
    requires Timely(times, start, mid) && Timely(ts, mid, now) && start <= mid <= now
    ensures Timely(times + ts, start, now)
  {
  }

  /** A visit's record, if any, is all it does to the breaker. */
  lemma VisitReplay(b: Breaker, i: nat, v: Visit, ts: seq<real>, now: real)
    requires |ts| == |VisitLog(i, v)| && ts[|ts| - 1] == now
    ensures Replay(b, i, VisitLog(i, v), ts)
         == if v.ending.Skip? || Closing(i, v) == [] || v.ending.Abort? || v.ending.Crash? then b
            else if v.ending.Win? then OnSuccess(b)
            else OnFailure(b, now)
  {
    VisitEvents(i, v);
    var log := VisitLog(i, v);
    if v.ending.Skip? || Closing(i, v) == [] {
      assert v.ending.Skip? || log == [Passed(i)] + Attempts(i, v);
      ReplayQuiet(b, i, log, ts);
    } else {
      var m := |log| - 1;
      assert log[..m] == [Passed(i)] + Attempts(i, v) && log[m] == Closing(i, v)[0];
      ReplayQuiet(b, i, log[..m], ts[..m]);
    }
  }

  /** A visit to entry i, with breaker b, at the given times. */
  ghost predicate Visited(w: World, i: nat, r: int, b: Breaker, v: Visit, ts: seq<real>, start: real, now: real) {
    && VisitOk(r, v) && Answered(w, i, v)
    && |ts| == |VisitLog(i, v)| && ts != [] && Timely(ts, start, now) && start <= now
    && (v.ending.Skip? <==> IsOpen(b, ts[0])) && ts[0] + SleptFor(v.jitters) <= now
  }

  /** A visit to entry i: the breaker, the retry loop, the record. */
  method VisitEntry(w: World, i: nat, e: Entry, start: real)
    returns (found: Option<Result>, now: real, ghost v: Visit, ghost ts: seq<real>)
    modifies e
    ensures Visited(w, i, e.spec.retries, old(e.State()), v, ts, start, now) && found == ReturnOf(i, v)
    ensures e.State() == Replay(old(e.State()), i, VisitLog(i, v), ts)
  {
    ghost var b := e.State();
    now := Tick(start);
    var open := e.ReadOpen(now);
    if open {
      v, ts := Visit([], Skip), [now];
      VisitReplay(b, i, v, ts, now);
      return None, now, v, ts;
    }
    ghost var passed := now;
    var err;
    found, err, now, v := TryEntry(w, i, e.spec.retries, now);
    now := Tick(now);
    ts := seq(|VisitLog(i, v)|, k => if k == 0 then passed else now);
    VisitEvents(i, v);
    if |ts| == 1 {
      assert Closing(i, v) == [];
      ReplayQuiet(b, i, VisitLog(i, v), ts);
    } else {
      VisitReplay(b, i, v, ts, now);
    }
    if found.Some? && found.value.Found? {
      e.RecordSuccess();
    } else if found.None? && err {
      e.RecordFailure(now);
    }
  }

  /** Every breaker check in the log found what the breakers from before the search say. */
  ghost predicate ChecksOk(before: seq<Breaker>, log: seq<Event>, times: seq<real>) {
    && |log| == |times|
    && forall k :: 0 <= k < |log| && (log[k].Skipped? || log[k].Passed?) ==>
         log[k].entry < |before| && (log[k].Skipped? <==> IsOpen(before[log[k].entry], times[k]))
  }

  lemma VisitChecksOk(before: seq<Breaker>, log: seq<Event>, times: seq<real>, i: nat, evs: seq<Event>, ts: seq<real>)
    requires ChecksOk(before, log, times) && i < |before| && evs != [] && |evs| == |ts|
    requires evs[0] == if IsOpen(before[i], ts[0]) then Skipped(i) else Passed(i)
    requires forall k :: 0 <= k < |evs| ==> evs[k].entry == i && (k > 0 ==> !evs[k].Skipped? && !evs[k].Passed?)
    ensures ChecksOk(before, log + evs, times + ts)
  {
    forall k | |log| <= k < |log + evs| ensures (log + evs)[k] == evs[k - |log|] {
    }
  }

  /** The breakers of all entries after a log: each one what its records made of it. */
  ghost predicate Replayed(before: seq<Breaker>, now: seq<Breaker>, log: seq<Event>, times: seq<real>) {
    && |log| == |times| && |now| == |before|
    && forall j :: 0 <= j < |before| ==> now[j] == Replay(before[j], j, log, times)
  }

  lemma VisitReplayed(before: seq<Breaker>, now: seq<Breaker>, log: seq<Event>, times: seq<real>,
                      i: nat, b: Breaker, evs: seq<Event>, ts: seq<real>)
    requires Replayed(before, now, log, times) && i < |before| && |evs| == |ts|
    requires forall k :: 0 <= k < |evs| ==> evs[k].entry == i
    requires b == Replay(now[i], i, evs, ts)
    ensures Replayed(before, now[i := b], log + evs, times + ts)
  {
    forall j | 0 <= j < |before| ensures now[i := b][j] == Replay(before[j], j, log + evs, times + ts) {
      ReplaySplit(before[j], j, log, times, evs, ts);
      if j != i {
        ReplayQuiet(now[j], j, evs, ts);
      }
    }
  }

  /** Visit i checked its breaker at some time from start on, and skipped the entry exactly if it read open. */
  ghost predicate Checked(before: seq<Breaker>, vs: seq<Visit>, checks: seq<real>, start: real) {
    && |checks| == |vs| <= |before|
    && forall i :: 0 <= i < |vs| ==>
         checks[i] >= start && (vs[i].ending.Skip? <==> IsOpen(before[i], checks[i]))
  }

  /** Between its check and that of the next visit, or the end, each visit takes the time of its pauses. */
  ghost predicate Spaced(vs: seq<Visit>, checks: seq<real>, now: real) {
    && |checks| == |vs|
    && forall i :: 0 <= i < |vs| ==>
         checks[i] + SleptFor(vs[i].jitters) <= NextCheck(checks, i, now)
  }

  function NextCheck(checks: seq<real>, i: nat, now: real): real {
    if i + 1 < |checks| then checks[i + 1] else now
  }

  lemma SpacedNext(vs: seq<Visit>, checks: seq<real>, mid: real, v: Visit, t: real, now: real)
    requires Spaced(vs, checks, mid) && mid <= t && t + SleptFor(v.jitters) <= now
    ensures Spaced(vs + [v], checks + [t], now)
  {
    forall i | 0 <= i < |vs| ensures NextCheck(checks + [t], i, now) >= NextCheck(checks, i, mid) {
    }
  }

  ghost predicate AllAnswered(w: World, vs: seq<Visit>) {
    forall i :: 0 <= i < |vs| ==> Answered(w, i, vs[i])
  }

  lemma AnsweredNext(w: World, vs: seq<Visit>, v: Visit)
    requires AllAnswered(w, vs) && Answered(w, |vs|, v)
    ensures AllAnswered(w, vs + [v])
  {
  }

  /** What a search has done and changed so far, and what it knows of the outside. */
  ghost predicate Searched(w: World, rs: seq<int>, before: seq<Breaker>, bs: seq<Breaker>, vs: seq<Visit>,
                           checks: seq<real>, times: seq<real>, start: real, now: real) {
    && VisitsOk(rs, vs) && |rs| == |before| && start <= now
    && AllAnswered(w, vs) && Checked(before, vs, checks, start) && Spaced(vs, checks, now)
    && |times| == |Render(vs)| && Timely(times, start, now)
    && ChecksOk(before, Render(vs), times) && Replayed(before, bs, Render(vs), times)
  }

  lemma NothingSearched(w: World, rs: seq<int>, before: seq<Breaker>, start: real)
    requires |rs| == |before|
    ensures Searched(w, rs, before, before, [], [], [], start, start) && All([])
  {
  }

  /** The log with one more visit's events. */
  lemma LogNext(before: seq<Breaker>, bs: seq<Breaker>, vs: seq<Visit>, times: seq<real>, v: Visit, ts: seq<real>)
    requires |vs| < |before| && |times| == |Render(vs)| && |ts| == |VisitLog(|vs|, v)| && ts != []
    requires ChecksOk(before, Render(vs), times) && Replayed(before, bs, Render(vs), times)
    requires bs[|vs|] == before[|vs|] && (v.ending.Skip? <==> IsOpen(before[|vs|], ts[0]))
    ensures |times + ts| == |Render(vs + [v])| && ChecksOk(before, Render(vs + [v]), times + ts)
    ensures var b := Replay(before[|vs|], |vs|, VisitLog(|vs|, v), ts);
      Replayed(before, bs[|vs| := b], Render(vs + [v]), times + ts)
  {
    var i := |vs|;
    RenderSnoc(vs, v);
    VisitEvents(i, v);
    VisitChecksOk(before, Render(vs), times, i, VisitLog(i, v), ts);
    VisitReplayed(before, bs, Render(vs), times, i, Replay(before[i], i, VisitLog(i, v), ts), VisitLog(i, v), ts);
  }

  lemma CheckedNext(before: seq<Breaker>, vs: seq<Visit>, checks: seq<real>, start: real, v: Visit, t: real)
    requires Checked(before, vs, checks, start) && |vs| < |before| && t >= start
    requires v.ending.Skip? <==> IsOpen(before[|vs|], t)
    ensures Checked(before, vs + [v], checks + [t], start)
  {
  }

  /** One more visit, to the next entry. */
  lemma SearchedNext(w: World, rs: seq<int>, before: seq<Breaker>, bs: seq<Breaker>, vs: seq<Visit>,
                     checks: seq<real>, times: seq<real>, start: real, mid: real,
                     v: Visit, ts: seq<real>, now: real)
    requires Searched(w, rs, before, bs, vs, checks, times, start, mid) && All(vs) && |vs| < |rs|
    requires bs[|vs|] == before[|vs|] && Visited(w, |vs|, rs[|vs|], before[|vs|], v, ts, mid, now)
    ensures var b := Replay(before[|vs|], |vs|, VisitLog(|vs|, v), ts);
      Searched(w, rs, before, bs[|vs| := b], vs + [v], checks + [ts[0]], times + ts, start, now)
  {
    VisitAdded(rs, vs, v);
    AnsweredNext(w, vs, v);
    TimelyAppend(times, ts, start, mid, now);
    LogNext(before, bs, vs, times, v, ts);
    CheckedNext(before, vs, checks, start, v, ts[0]);
    SpacedNext(vs, checks, mid, v, ts[0], now);
  }

  lemma VisitReturns(rs: seq<int>, vs: seq<Visit>, v: Visit)
    requires VisitsOk(rs, vs) && All(vs) && |vs| < |rs| && VisitOk(rs[|vs|], v)
    ensures ReturnOf(|vs|, v).None? ==> All(vs + [v])
    ensures ReturnOf(|vs|, v).Some? ==> ResultOf(rs, vs + [v]) == ReturnOf(|vs|, v)
  {
    VisitAdded(rs, vs, v);
  }

  /** Entries 0 to i - 1 are behind the search, the others as before. */
  ghost predicate SoFar(w: World, rs: seq<int>, before: seq<Breaker>, bs: seq<Breaker>, vs: seq<Visit>,
                        checks: seq<real>, times: seq<real>, start: real, now: real, i: nat) {
    && |vs| == i <= |rs| && |bs| == |before| && All(vs)
    && Searched(w, rs, before, bs, vs, checks, times, start, now)
    && forall j :: i <= j < |before| ==> bs[j] == before[j]
  }

  lemma SoFarNext(w: World, rs: seq<int>, before: seq<Breaker>, bs: seq<Breaker>, vs: seq<Visit>,
                  checks: seq<real>, times: seq<real>, start: real, mid: real,
                  v: Visit, ts: seq<real>, now: real, i: nat)
    requires SoFar(w, rs, before, bs, vs, checks, times, start, mid, i) && i < |rs|
    requires Visited(w, i, rs[i], bs[i], v, ts, mid, now)
    ensures var bs' := bs[i := Replay(bs[i], i, VisitLog(i, v), ts)];
      && Searched(w, rs, before, bs', vs + [v], checks + [ts[0]], times + ts, start, now)
      && (ReturnOf(i, v).None? ==>
            SoFar(w, rs, before, bs', vs + [v], checks + [ts[0]], times + ts, start, now, i + 1))
    ensures ReturnOf(i, v).Some? ==> Ended(rs, vs + [v], ReturnOf(i, v).value)
  {
    SearchedNext(w, rs, before, bs, vs, checks, times, start, mid, v, ts, now);
    VisitReturns(rs, vs, v);
    VisitsRun(rs, vs + [v]);
  }

  /** A search with these visits has ended with the result. */
  predicate Ended(rs: seq<int>, vs: seq<Visit>, result: Result) {
    ResultOf(rs, vs) == Some(result) && PcAfter(rs, Render(vs)) == Some(Finished(result))
  }

  lemma NothingSoFar(w: World, rs: seq<int>, before: seq<Breaker>, start: real)
    requires |rs| == |before|
    ensures SoFar(w, rs, before, before, [], [], [], start, start, 0)
  {
    NothingSearched(w, rs, before, start);
  }

  lemma NobodyLeft(w: World, rs: seq<int>, before: seq<Breaker>, bs: seq<Breaker>, vs: seq<Visit>,
                   checks: seq<real>, times: seq<real>, start: real, now: real)
    requires SoFar(w, rs, before, bs, vs, checks, times, start, now, |rs|)
    ensures Searched(w, rs, before, bs, vs, checks, times, start, now) && Ended(rs, vs, NoResults)
  {
    VisitsRun(rs, vs);
  }

  class Chain {
    const entries: seq<Entry>

    constructor (entries: seq<Entry>)
      ensures this.entries == entries
    {
      this.entries := entries;
    }

    ghost function Retries(): (rs: seq<int>)
      ensures |rs| == |entries| && forall i :: 0 <= i < |entries| ==> rs[i] == entries[i].spec.retries
    {
      seq(|entries|, i requires 0 <= i < |entries| => entries[i].spec.retries)
    }

    ghost function Specs(): (specs: seq<EntrySpec>)
      ensures |specs| == |entries| && forall i :: 0 <= i < |entries| ==> specs[i] == entries[i].spec
    {
      seq(|entries|, i requires 0 <= i < |entries| => entries[i].spec)
    }

    ghost function Breakers(): (bs: seq<Breaker>)
      reads entries
      ensures |bs| == |entries| && forall i :: 0 <= i < |entries| ==> bs[i] == entries[i].State()
    {
      seq(|entries|, i requires 0 <= i < |entries| reads entries => entries[i].State())
    }

    /** Each entry is an object of its own. */
    predicate Valid() {
      forall i, j :: 0 <= i < j < |entries| ==> entries[i] != entries[j]
    }

    /** The body of the loop over the entries: a visit changes no other entry. */
    method VisitAt(w: World, i: nat, start: real)
      returns (found: Option<Result>, now: real, ghost v: Visit, ghost ts: seq<real>)
      requires Valid() && i < |entries|
      modifies entries[i]
      ensures Visited(w, i, Retries()[i], old(Breakers())[i], v, ts, start, now) && found == ReturnOf(i, v)
      ensures Breakers() == old(Breakers())[i := Replay(old(Breakers())[i], i, VisitLog(i, v), ts)]
    {
      found, now, v, ts := VisitEntry(w, i, entries[i], start);
    }

    /** Search: it visits the entries in order, each once, as their retries admit and the outside answers, until
        a visit ends it; skips exactly those whose breaker reads open at their check; and leaves each breaker as
        the old one with the log's records applied. */
    method Search(w: World, start: real)
      returns (result: Result, ghost vs: seq<Visit>, ghost checks: seq<real>, ghost times: seq<real>, ghost end: real)
      requires Valid()
      modifies entries
      ensures Ended(Retries(), vs, result)
      ensures Searched(w, Retries(), old(Breakers()), Breakers(), vs, checks, times, start, end)
    {
      vs, checks, times, end := [], [], [], start;
      var now := start;
      ghost var rs, before := Retries(), Breakers();
      NothingSoFar(w, rs, before, start);
      for i := 0 to |entries|
        invariant end == now && SoFar(w, rs, before, Breakers(), vs, checks, times, start, now, i)
      {
        ghost var bs := Breakers();
        var found;
        ghost var v, ts;
        found, now, v, ts := VisitAt(w, i, now);
        SoFarNext(w, rs, before, bs, vs, checks, times, start, end, v, ts, now, i);
        vs, checks, times, end := vs + [v], checks + [ts[0]], times + ts, now;
        if found.Some? {
          return found.value, vs, checks, times, end;
        }
      }
      result := NoResults;
      NobodyLeft(w, rs, before, Breakers(), vs, checks, times, start, now);
    }
  }

  // ---- What a search returns ------------------------------------------------------------

  /** After n failed tries of entry i, within r retries, the limiter refuses or the provider answers with a rate
      limit. */
  predicate StopsFailing(w: World, i: nat, r: int, n: nat) {
    n <= r && (forall a :: 0 <= a < n ==> FailsOn(w, i, a)) && (!w.grants(i, n) || w.answers(i, n) == Throttled)
  }

  /** After n failed tries of entry i, within r retries, the provider answers with the hits. */
  predicate StopsWith(w: World, i: nat, r: int, n: nat, hits: Hits) {
    n <= r && (forall a :: 0 <= a < n ==> FailsOn(w, i, a)) && w.grants(i, n) && w.answers(i, n) == Hit(hits)
  }

  /** Entry i, with r retries, has no tries, or all fail, or one ends them without hits. */
  ghost predicate FallsThrough(w: World, i: nat, r: int) {
    r < 0 || (forall a :: 0 <= a <= r ==> FailsOn(w, i, a)) || exists n: nat :: StopsFailing(w, i, r, n)
  }

  /** The first try of entry i that does not fail comes within r retries and brings the hits. */
  ghost predicate HitsFirst(w: World, i: nat, r: int, hits: Hits) {
    exists n: nat :: StopsWith(w, i, r, n, hits)
  }

  /** Try n is the first that does not fail. */
  ghost predicate StopsAt(w: World, i: nat, n: nat) {
    (forall a :: 0 <= a < n ==> FailsOn(w, i, a)) && !FailsOn(w, i, n)
  }

  lemma OneStop(w: World, i: nat, m: nat, n: nat)
    requires StopsAt(w, i, m) && StopsAt(w, i, n)
    ensures m == n
  {
  }

  lemma ExhaustDecided(w: World, i: nat, r: int, v: Visit)
    requires VisitOk(r, v) && Answered(w, i, v) && v.ending.Exhaust?
    ensures FallsThrough(w, i, r)
    ensures forall hits :: !HitsFirst(w, i, r, hits)
  {
    forall n: nat | n <= r ensures w.answers(i, n) == Failed {
      assert FailsOn(w, i, n);
    }
  }

  lemma StopDecided(w: World, i: nat, r: int, v: Visit)
    requires VisitOk(r, v) && Answered(w, i, v) && !v.ending.Skip? && !v.ending.Exhaust?
    ensures FallsThrough(w, i, r) <==> Continues(v)
    ensures forall hits :: HitsFirst(w, i, r, hits) <==> v.ending == Win(hits)
  {
    var m := |v.jitters|;
    assert StopsAt(w, i, m);
    forall n: nat | StopsFailing(w, i, r, n) ensures n == m {
      OneStop(w, i, m, n);
    }
    forall n: nat, hits | StopsWith(w, i, r, n, hits) ensures n == m {
      OneStop(w, i, m, n);
    }
    if Continues(v) {
      assert StopsFailing(w, i, r, m);
    }
    if v.ending.Win? {
      assert StopsWith(w, i, r, m, v.ending.hits);
    }
  }

  /** An entry's retries and the outside's answers decide how a visit that is not a skip ends. */
  lemma VisitDecided(w: World, i: nat, r: int, v: Visit)
    requires VisitOk(r, v) && Answered(w, i, v) && !v.ending.Skip?
    ensures FallsThrough(w, i, r) <==> Continues(v)
    ensures forall hits :: HitsFirst(w, i, r, hits) <==> v.ending == Win(hits)
  {
    if v.ending.Exhaust? {
      ExhaustDecided(w, i, r, v);
    } else {
      StopDecided(w, i, r, v);
    }
  }

  /** Which entries are left out or fail, given those whose breaker reads open. */
  ghost predicate Passes(w: World, rs: seq<int>, open: seq<bool>, j: nat)
    requires j < |rs| == |open|
  {
    open[j] || FallsThrough(w, j, rs[j])
  }

  /** The visits of a search that has returned, as the outside answers, skipping those that read open. */
  ghost predicate Decided(w: World, rs: seq<int>, open: seq<bool>, vs: seq<Visit>) {
    && VisitsOk(rs, vs) && ResultOf(rs, vs).Some? && |open| == |rs|
    && forall i :: 0 <= i < |vs| ==> Answered(w, i, vs[i]) && (vs[i].ending.Skip? <==> open[i])
  }

  lemma VisitPasses(w: World, rs: seq<int>, open: seq<bool>, vs: seq<Visit>, k: nat)
    requires Decided(w, rs, open, vs) && k < |vs|
    ensures Passes(w, rs, open, k) <==> Continues(vs[k])
    ensures forall hits :: vs[k].ending == Win(hits) <==> !open[k] && HitsFirst(w, k, rs[k], hits)
  {
    assert VisitOk(rs[k], vs[k]);
    if !open[k] {
      VisitDecided(w, k, rs[k], vs[k]);
    }
  }

  /** The search ends with the first visit that does not fall through, or with the last entry. */
  lemma EndsAtFirst(w: World, rs: seq<int>, open: seq<bool>, vs: seq<Visit>)
    requires Decided(w, rs, open, vs)
    ensures |vs| < |rs| ==> vs != [] && !Continues(vs[|vs| - 1])
  {
  }

  /** It visits entry k exactly if all before it are skipped or fail. */
  lemma {:induction false} Reaches(w: World, rs: seq<int>, open: seq<bool>, vs: seq<Visit>, k: nat)
    requires Decided(w, rs, open, vs) && k <= |rs|
    ensures (forall j :: 0 <= j < k ==> Passes(w, rs, open, j))
       <==> k <= |vs| && forall j :: 0 <= j < k ==> Continues(vs[j])
  {
    EndsAtFirst(w, rs, open, vs);
    if k > 0 {
      Reaches(w, rs, open, vs, k - 1);
      if k <= |vs| {
        VisitPasses(w, rs, open, vs, k - 1);
      }
    }
  }

  /** The hits of entry k are what the search returns exactly if k has hits to bring and all before it are skipped
      or fail. */
  lemma FoundIff(w: World, rs: seq<int>, open: seq<bool>, vs: seq<Visit>, k: nat, hits: Hits)
    requires Decided(w, rs, open, vs)
    ensures ResultOf(rs, vs) == Some(Found(k, hits))
       <==> k < |rs| && !open[k] && HitsFirst(w, k, rs[k], hits) && forall j :: 0 <= j < k ==> Passes(w, rs, open, j)
  {
    if k < |rs| {
      Reaches(w, rs, open, vs, k);
      if k < |vs| {
        VisitPasses(w, rs, open, vs, k);
      }
    }
  }

  lemma NoResultsIff(w: World, rs: seq<int>, open: seq<bool>, vs: seq<Visit>)
    requires Decided(w, rs, open, vs)
    ensures ResultOf(rs, vs) == Some(NoResults) <==> forall j :: 0 <= j < |rs| ==> Passes(w, rs, open, j)
  {
    Reaches(w, rs, open, vs, |rs|);
  }

  /** What a search returns is decided by the breakers at their checks and the answers of the outside: the hits of
      the first entry that is neither skipped nor fails, if it does bring hits; nothing exactly if all are
      skipped or fail. */
  lemma SearchAnswer(w: World, rs: seq<int>, open: seq<bool>, vs: seq<Visit>, result: Result)
    requires Decided(w, rs, open, vs) && ResultOf(rs, vs) == Some(result)
    ensures result == NoResults <==> forall j :: 0 <= j < |rs| ==> Passes(w, rs, open, j)
    ensures forall k: nat, hits :: (result == Found(k, hits)
      <==> k < |rs| && !open[k] && HitsFirst(w, k, rs[k], hits) && forall j :: 0 <= j < k ==> Passes(w, rs, open, j))
  {
    NoResultsIff(w, rs, open, vs);
    forall k: nat, hits
      ensures result == Found(k, hits)
         <==> k < |rs| && !open[k] && HitsFirst(w, k, rs[k], hits) && forall j :: 0 <= j < k ==> Passes(w, rs, open, j)
    {
      FoundIff(w, rs, open, vs, k, hits);
    }
  }

  /** Which of the entries read open at their check; those not visited are not asked. */
  function OpenAt(before: seq<Breaker>, checks: seq<real>): (open: seq<bool>)
    requires |checks| <= |before|
    ensures |open| == |before|
    ensures forall j :: 0 <= j < |before| ==> open[j] == (j < |checks| && IsOpen(before[j], checks[j]))
  {
    seq(|before|, j requires 0 <= j < |before| => j < |checks| && IsOpen(before[j], checks[j]))
  }

  /** What Chain.Search promises is what decides its answer. */
  lemma SearchedDecided(w: World, rs: seq<int>, before: seq<Breaker>, bs: seq<Breaker>, vs: seq<Visit>,
                        checks: seq<real>, times: seq<real>, start: real, end: real)
    requires Searched(w, rs, before, bs, vs, checks, times, start, end) && ResultOf(rs, vs).Some?
    ensures Decided(w, rs, OpenAt(before, checks), vs)
  {
  }

  /** A provider that answers gets through: if entry k's breaker is closed when the search starts, its first try
      that does not fail brings hits, and all entries before it are open or fail, the search returns those hits. */
  lemma HealthyEntryAnswers(w: World, rs: seq<int>, before: seq<Breaker>, bs: seq<Breaker>, vs: seq<Visit>,
                            checks: seq<real>, times: seq<real>, start: real, end: real, k: nat, hits: Hits)
    requires Searched(w, rs, before, bs, vs, checks, times, start, end) && ResultOf(rs, vs).Some?
    requires k < |rs| && start >= before[k].openUntil && HitsFirst(w, k, rs[k], hits)
    requires forall j :: 0 <= j < k ==> (j < |checks| && checks[j] < before[j].openUntil) || FallsThrough(w, j, rs[j])
    ensures ResultOf(rs, vs) == Some(Found(k, hits))
  {
    SearchedDecided(w, rs, before, bs, vs, checks, times, start, end);
    FoundIff(w, rs, OpenAt(before, checks), vs, k, hits);
  }

  /** The pauses take their time: an entry that exhausts r retries holds the search for at least 2^(r+1) - 1 half
      seconds before the next entry is asked, or the search ends. */
  lemma ExhaustTakesTime(w: World, rs: seq<int>, before: seq<Breaker>, bs: seq<Breaker>, vs: seq<Visit>,
                         checks: seq<real>, times: seq<real>, start: real, end: real, i: nat)
    requires Searched(w, rs, before, bs, vs, checks, times, start, end) && i < |vs|
    requires vs[i].ending == Exhaust && 0 <= rs[i] <= 33
    ensures NextCheck(checks, i, end) - checks[i] >= (Pow2((rs[i] + 1) as nat) - 1) as real / 2.0
  {
    SleptForAtLeast(vs[i].jitters);
  }
}
