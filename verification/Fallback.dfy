/** chain/chain.go: one search through the provider chain, as an automaton over its events. */
module Fallback {
  import opened Options
  import opened Backoff

  type Hits = seq<string>

  /** What a provider call comes back with. */
  datatype Outcome = Hit(hits: Hits) | Throttled | Failed

  // ---- One search -----------------------------------------------------------------------

  datatype Result = Found(entry: nat, hits: Hits) | NoResults | Aborted | Crashed

  /** What a search does, in the order it does it; the number is the entry's position. */
  datatype Event =
    | Skipped(entry: nat)
    | Passed(entry: nat)
    | Granted(entry: nat)
    | Denied(entry: nat)
    | Called(entry: nat, attempt: nat, outcome: Outcome)
    | Slept(entry: nat, attempt: nat, jitter: int)
    | Cancelled(entry: nat)
    | Panicked(entry: nat)
    | Recorded(entry: nat)
    | Won(entry: nat)

  /** Where a search stands between two events. */
  datatype Pc =
    | Checking(i: nat)
    | Waiting(i: nat, attempt: nat)
    | Calling(i: nat, attempt: nat)
    | Pausing(i: nat, attempt: nat)
    | Failing(i: nat)
    | Winning(i: nat, hits: Hits)
    | Finished(result: Result)

  /** The head of the loop over entries; retries holds each entry's configured number. */
  function Enter(retries: seq<int>, i: nat): Pc {
    if i < |retries| then Checking(i) else Finished(NoResults)
  }

  /** The position after an event, None if a search at pc cannot do it. */
  function Next(retries: seq<int>, pc: Pc, ev: Event): Option<Pc> {
    match pc
    case Checking(i) =>
      if i >= |retries| then None
      else if ev == Skipped(i) then Some(Enter(retries, i + 1))
      else if ev == Passed(i) then Some(if retries[i] >= 0 then Waiting(i, 0) else Enter(retries, i + 1))
      else None
    case Waiting(i, a) =>
      if ev == Granted(i) then Some(Calling(i, a)) else if ev == Denied(i) then Some(Failing(i)) else None
    case Calling(i, a) =>
      if ev.Called? && ev.entry == i && ev.attempt == a then
        match ev.outcome
        case Hit(hits) => Some(Winning(i, hits))
        case Throttled => Some(Failing(i))
        case Failed => Some(Pausing(i, a))
      else None
    case Pausing(i, a) =>
      if i >= |retries| then None
      else if !CanPause(a) then if ev == Panicked(i) then Some(Finished(Crashed)) else None
      else if ev == Cancelled(i) then Some(Finished(Aborted))
      else if ev.Slept? && ev.entry == i && ev.attempt == a && Jitter(a, ev.jitter) then
        Some(if a + 1 <= retries[i] then Waiting(i, a + 1) else Failing(i))
      else None
    case Failing(i) => if ev == Recorded(i) then Some(Enter(retries, i + 1)) else None
    case Winning(i, hits) => if ev == Won(i) then Some(Finished(Found(i, hits))) else None
    case Finished(_) => None
  }

  /** The position after a list of events. */
  function Runs(retries: seq<int>, pc: Pc, log: seq<Event>): Option<Pc> {
    if log == [] then Some(pc)
    else
      var before := Runs(retries, pc, log[..|log| - 1]);
      if before.None? then None else Next(retries, before.value, log[|log| - 1])
  }

  /** The position of a search that has done log. */
  function PcAfter(retries: seq<int>, log: seq<Event>): Option<Pc> {
    Runs(retries, Enter(retries, 0), log)
  }

  lemma RunsSnoc(retries: seq<int>, pc: Pc, log: seq<Event>, ev: Event)
    ensures Runs(retries, pc, log + [ev])
      == if Runs(retries, pc, log).None? then None else Next(retries, Runs(retries, pc, log).value, ev)
  {
    assert (log + [ev])[..|log|] == log;
  }

  lemma {:induction false} RunsAppend(retries: seq<int>, pc: Pc, a: seq<Event>, b: seq<Event>)
    requires Runs(retries, pc, a).Some?
    ensures Runs(retries, pc, a + b) == Runs(retries, Runs(retries, pc, a).value, b)
  {
    if b == [] {
      assert a + b == a;
    } else {
      var m := |b| - 1;
      assert (a + b)[..|a + b| - 1] == a + b[..m];
      RunsAppend(retries, pc, a, b[..m]);
    }
  }

  // ---- What a search can look like ------------------------------------------------------

  /** How the visit to an entry ends. */
  datatype Ending = Skip | Exhaust | Throttle | LimiterError | Win(hits: Hits) | Abort | Crash

  /** A visit: a full failed try for each jitter, then the ending. */
  datatype Visit = Visit(jitters: seq<int>, ending: Ending)

  function Tries(i: nat, jitters: seq<int>): seq<Event> {
    if jitters == [] then []
    else
      var k := |jitters| - 1;
      Tries(i, jitters[..k]) + [Granted(i), Called(i, k, Failed), Slept(i, k, jitters[k])]
  }

  /** The events between passing the breaker and the record, and those that end the visit. */
  function Attempts(i: nat, v: Visit): seq<Event> {
    var a := |v.jitters|;
    Tries(i, v.jitters) +
    match v.ending
    case Skip => []
    case Exhaust => []
    case Throttle => [Granted(i), Called(i, a, Throttled)]
    case LimiterError => [Denied(i)]
    case Win(hits) => [Granted(i), Called(i, a, Hit(hits))]
    case Abort => [Granted(i), Called(i, a, Failed)]
    case Crash => [Granted(i), Called(i, a, Failed)]
  }

  function Closing(i: nat, v: Visit): seq<Event> {
    match v.ending
    case Skip => []
    case Exhaust => if v.jitters == [] then [] else [Recorded(i)]
    case Throttle => [Recorded(i)]
    case LimiterError => [Recorded(i)]
    case Win(_) => [Won(i)]
    case Abort => [Cancelled(i)]
    case Crash => [Panicked(i)]
  }

  function VisitLog(i: nat, v: Visit): seq<Event> {
    if v.ending == Skip then [Skipped(i)] else [Passed(i)] + Attempts(i, v) + Closing(i, v)
  }

  /** Which visits an entry with r retries admits. Without retries left over, r + 1 tries exhaust it;
      a negative r makes it pass without a try. */
  predicate VisitOk(r: int, v: Visit) {
    && JittersOk(v.jitters)
    && match v.ending
       case Skip => v.jitters == []
       case Exhaust => |v.jitters| == if r >= 0 then r + 1 else 0
       case Abort => |v.jitters| <= r && CanPause(|v.jitters|)
       case Crash => |v.jitters| <= r && !CanPause(|v.jitters|)
       case _ => |v.jitters| <= r
  }

  predicate Continues(v: Visit) {
    !v.ending.Win? && !v.ending.Abort? && !v.ending.Crash?
  }

  function Render(vs: seq<Visit>): seq<Event> {
    if vs == [] then [] else Render(vs[..|vs| - 1]) + VisitLog(|vs| - 1, vs[|vs| - 1])
  }

  /** Entries visited in order, each visit but the last falling through to the next entry. */
  predicate VisitsOk(retries: seq<int>, vs: seq<Visit>) {
    && |vs| <= |retries|
    && (forall i :: 0 <= i < |vs| ==> VisitOk(retries[i], vs[i]))
    && (forall i :: 0 <= i < |vs| - 1 ==> Continues(vs[i]))
  }

  /** What a completed list of visits returns; None while the search still has an entry to visit. */
  function ResultOf(retries: seq<int>, vs: seq<Visit>): Option<Result> {
    if vs != [] && vs[|vs| - 1].ending.Win? then Some(Found(|vs| - 1, vs[|vs| - 1].ending.hits))
    else if vs != [] && vs[|vs| - 1].ending.Abort? then Some(Aborted)
    else if vs != [] && vs[|vs| - 1].ending.Crash? then Some(Crashed)
    else if |vs| == |retries| then Some(NoResults)
    else None
  }

  /** Where a search goes on after a visit to entry i. */
  function AfterVisit(retries: seq<int>, i: nat, v: Visit): Pc {
    match v.ending
    case Win(hits) => Finished(Found(i, hits))
    case Abort => Finished(Aborted)
    case Crash => Finished(Crashed)
    case _ => Enter(retries, i + 1)
  }

  lemma RenderSnoc(vs: seq<Visit>, v: Visit)
    ensures Render(vs + [v]) == Render(vs) + VisitLog(|vs|, v)
  {
    var ws := vs + [v];
    assert ws[..|ws| - 1] == vs && ws[|ws| - 1] == v && |ws| - 1 == |vs|;
  }

  predicate All(vs: seq<Visit>) {
    forall i :: 0 <= i < |vs| ==> Continues(vs[i])
  }

  /** The events of the visit that is under way at pc. */
  function OpenLog(pc: Pc, open: Visit): seq<Event> {
    match pc
    case Checking(_) => []
    case Waiting(i, _) => [Passed(i)] + Tries(i, open.jitters)
    case Calling(i, _) => [Passed(i)] + (Tries(i, open.jitters) + [Granted(i)])
    case Pausing(i, a) => [Passed(i)] + (Tries(i, open.jitters) + [Granted(i), Called(i, a, Failed)])
    case Failing(i) => [Passed(i)] + Attempts(i, open)
    case Winning(i, _) => [Passed(i)] + Attempts(i, open)
    case Finished(_) => []
  }

  predicate OpenOk(r: int, pc: Pc, open: Visit) {
    && JittersOk(open.jitters)
    && match pc
       case Checking(_) => true
       case Waiting(i, a) => a == |open.jitters| && a <= r
       case Calling(i, a) => a == |open.jitters| && a <= r
       case Pausing(i, a) => a == |open.jitters| && a <= r
       case Failing(i) =>
         r >= 0 && VisitOk(r, open) && (open.ending.Exhaust? || open.ending.Throttle? || open.ending.LimiterError?)
       case Winning(i, hits) => VisitOk(r, open) && open.ending == Win(hits)
       case Finished(_) => true
  }

  function EntryOf(pc: Pc): nat
    requires !pc.Finished?
  {
    pc.i
  }

  /** The shape of the log of a search that stands at pc: finished visits, then the open one. */
  ghost predicate Shaped(retries: seq<int>, pc: Pc, log: seq<Event>, vs: seq<Visit>, open: Visit) {
    && VisitsOk(retries, vs)
    && log == Render(vs) + OpenLog(pc, open)
    && match pc
       case Finished(r) => ResultOf(retries, vs) == Some(r)
       case _ => EntryOf(pc) == |vs| < |retries| && All(vs) && OpenOk(retries[|vs|], pc, open)
  }

  lemma TriesSnoc(i: nat, jitters: seq<int>, j: int)
    ensures Tries(i, jitters + [j])
         == Tries(i, jitters) + [Granted(i), Called(i, |jitters|, Failed), Slept(i, |jitters|, j)]
  {
    var js := jitters + [j];
    assert js[..|js| - 1] == jitters && js[|js| - 1] == j && |js| - 1 == |jitters|;
  }

  /** Does the event keep the search inside the visit? */
  predicate StaysIn(pc: Pc, pc': Pc) {
    !pc.Finished? && !pc'.Checking? && !pc'.Finished?
  }

  lemma StepCall(retries: seq<int>, pc: Pc, open: Visit, ev: Event) returns (open': Visit)
    requires pc.Calling? && pc.i < |retries| && OpenOk(retries[pc.i], pc, open) && Next(retries, pc, ev).Some?
    ensures var pc' := Next(retries, pc, ev).value;
      && !pc'.Finished? && EntryOf(pc') == pc.i && OpenOk(retries[pc.i], pc', open')
      && OpenLog(pc', open') == OpenLog(pc, open) + [ev]
  {
    open' := match ev.outcome
             case Hit(hits) => open.(ending := Win(hits))
             case Throttled => open.(ending := Throttle)
             case Failed => open;
  }

  lemma StepSleep(retries: seq<int>, pc: Pc, open: Visit, ev: Event) returns (open': Visit)
    requires pc.Pausing? && pc.i < |retries| && OpenOk(retries[pc.i], pc, open)
    requires Next(retries, pc, ev).Some? && !Next(retries, pc, ev).value.Finished?
    ensures var pc' := Next(retries, pc, ev).value;
      && !pc'.Checking? && EntryOf(pc') == pc.i && OpenOk(retries[pc.i], pc', open')
      && OpenLog(pc', open') == OpenLog(pc, open) + [ev]
  {
    open' := Visit(open.jitters + [ev.jitter], Exhaust);
    TriesSnoc(pc.i, open.jitters, ev.jitter);
  }

  lemma StepInside(retries: seq<int>, pc: Pc, open: Visit, ev: Event) returns (open': Visit)
    requires !pc.Finished? && EntryOf(pc) < |retries| && OpenOk(retries[EntryOf(pc)], pc, open)
    requires Next(retries, pc, ev).Some? && StaysIn(pc, Next(retries, pc, ev).value)
    ensures var pc' := Next(retries, pc, ev).value;
      && EntryOf(pc') == EntryOf(pc) && OpenOk(retries[EntryOf(pc)], pc', open')
      && OpenLog(pc', open') == OpenLog(pc, open) + [ev]
  {
    if pc.Calling? {
      open' := StepCall(retries, pc, open, ev);
    } else if pc.Pausing? {
      open' := StepSleep(retries, pc, open, ev);
    } else if pc.Waiting? {
      open' := open.(ending := LimiterError);
    } else {
      open' := Visit([], Exhaust);
      assert Tries(pc.i, []) == [];
    }
  }

  lemma StepClosing(retries: seq<int>, pc: Pc, open: Visit, ev: Event) returns (v: Visit)
    requires !pc.Finished? && EntryOf(pc) < |retries| && OpenOk(retries[EntryOf(pc)], pc, open)
    requires Next(retries, pc, ev).Some? && !StaysIn(pc, Next(retries, pc, ev).value)
    ensures var i := EntryOf(pc);
      && VisitOk(retries[i], v) && VisitLog(i, v) == OpenLog(pc, open) + [ev]
      && Next(retries, pc, ev).value == AfterVisit(retries, i, v)
  {
    v := open;
    var i := EntryOf(pc);
    match pc {
      case Checking(_) =>
        v := Visit([], if ev == Skipped(i) then Skip else Exhaust);
        assert Tries(i, []) == [];
      case Pausing(_, a) =>
        v := open.(ending := if CanPause(a) then Abort else Crash);
        assert VisitLog(i, v) == OpenLog(pc, open) + [ev];
      case Failing(_) =>
        assert VisitLog(i, v) == OpenLog(pc, open) + [ev];
      case Winning(_, _) =>
        assert VisitLog(i, v) == OpenLog(pc, open) + [ev];
    }
  }

  /** Where a search stands after a completed list of visits. */
  function PcFor(retries: seq<int>, vs: seq<Visit>): Pc {
    if ResultOf(retries, vs).Some? then Finished(ResultOf(retries, vs).value) else Checking(|vs|)
  }

  lemma VisitAdded(retries: seq<int>, vs: seq<Visit>, v: Visit)
    requires VisitsOk(retries, vs) && All(vs) && |vs| < |retries| && VisitOk(retries[|vs|], v)
    ensures VisitsOk(retries, vs + [v]) && (Continues(v) ==> All(vs + [v]))
    ensures AfterVisit(retries, |vs|, v) == PcFor(retries, vs + [v])
    ensures !PcFor(retries, vs + [v]).Finished? ==> Continues(v) && |vs| + 1 < |retries|
  {
  }

  lemma ShapedStep(retries: seq<int>, pc: Pc, log: seq<Event>, vs: seq<Visit>, open: Visit, ev: Event)
    returns (vs': seq<Visit>, open': Visit)
    requires Shaped(retries, pc, log, vs, open)
    requires Next(retries, pc, ev).Some?
    ensures Shaped(retries, Next(retries, pc, ev).value, log + [ev], vs', open')
  {
    assert log + [ev] == Render(vs) + (OpenLog(pc, open) + [ev]);
    if StaysIn(pc, Next(retries, pc, ev).value) {
      vs' := vs;
      open' := StepInside(retries, pc, open, ev);
    } else {
      vs', open' := ShapedClosing(retries, pc, log, vs, open, ev);
    }
  }

  lemma NothingMore(log: seq<Event>)
    ensures log + [] == log
  {
  }

  /** A search between two visits, or at its end. */
  lemma ShapedBetween(retries: seq<int>, vs: seq<Visit>)
    requires VisitsOk(retries, vs)
    requires !PcFor(retries, vs).Finished? ==> All(vs) && |vs| < |retries|
    ensures Shaped(retries, PcFor(retries, vs), Render(vs), vs, Visit([], Skip))
  {
    NothingMore(Render(vs));
  }

  lemma ShapedClosing(retries: seq<int>, pc: Pc, log: seq<Event>, vs: seq<Visit>, open: Visit, ev: Event)
    returns (vs': seq<Visit>, open': Visit)
    requires Shaped(retries, pc, log, vs, open)
    requires Next(retries, pc, ev).Some? && !StaysIn(pc, Next(retries, pc, ev).value)
    requires log + [ev] == Render(vs) + (OpenLog(pc, open) + [ev])
    ensures Shaped(retries, Next(retries, pc, ev).value, log + [ev], vs', open')
  {
    var v := StepClosing(retries, pc, open, ev);
    vs', open' := vs + [v], Visit([], Skip);
    VisitAdded(retries, vs, v);
    RenderSnoc(vs, v);
    ShapedBetween(retries, vs');
  }

  lemma ShapedStart(retries: seq<int>)
    ensures Shaped(retries, Enter(retries, 0), [], [], Visit([], Skip))
  {
    assert Render([]) + [] == [];
  }

  /** Every log a search can have is a list of finished visits and an open one. */
  lemma {:induction false} LogIsShaped(retries: seq<int>, log: seq<Event>) returns (vs: seq<Visit>, open: Visit)
    requires PcAfter(retries, log).Some?
    ensures Shaped(retries, PcAfter(retries, log).value, log, vs, open)
  {
    if log == [] {
      ShapedStart(retries);
      vs, open := [], Visit([], Skip);
    } else {
      var before, ev := log[..|log| - 1], log[|log| - 1];
      assert before + [ev] == log;
      var pc := PcAfter(retries, before).value;
      assert PcAfter(retries, log) == Next(retries, pc, ev);
      vs, open := LogIsShaped(retries, before);
      vs, open := ShapedStep(retries, pc, before, vs, open, ev);
    }
  }

  // ---- ... and every such shape is possible ---------------------------------------------

  lemma EventRuns(retries: seq<int>, pc: Pc, ev: Event)
    ensures Runs(retries, pc, [ev]) == Next(retries, pc, ev)
  {
    assert [ev][..0] == [];
    assert Runs(retries, pc, []) == Some(pc);
  }

  lemma TwoEventsRun(retries: seq<int>, pc: Pc, a: Event, b: Event)
    requires Next(retries, pc, a).Some?
    ensures Runs(retries, pc, [a, b]) == Next(retries, Next(retries, pc, a).value, b)
  {
    EventRuns(retries, pc, a);
    RunsSnoc(retries, pc, [a], b);
    assert [a] + [b] == [a, b];
  }

  lemma OneTryRuns(retries: seq<int>, i: nat, k: nat, jitter: int)
    requires i < |retries| && Jitter(k, jitter)
    ensures Runs(retries, Waiting(i, k), [Granted(i), Called(i, k, Failed), Slept(i, k, jitter)])
         == Some(if k + 1 <= retries[i] then Waiting(i, k + 1) else Failing(i))
  {
    TwoEventsRun(retries, Waiting(i, k), Granted(i), Called(i, k, Failed));
    RunsSnoc(retries, Waiting(i, k), [Granted(i), Called(i, k, Failed)], Slept(i, k, jitter));
    assert [Granted(i), Called(i, k, Failed)] + [Slept(i, k, jitter)]
        == [Granted(i), Called(i, k, Failed), Slept(i, k, jitter)];
  }

  lemma {:induction false} TriesRun(retries: seq<int>, i: nat, jitters: seq<int>)
    requires i < |retries| && JittersOk(jitters) && |jitters| <= retries[i] + 1
    ensures Runs(retries, Waiting(i, 0), Tries(i, jitters))
         == Some(if jitters == [] || |jitters| <= retries[i] then Waiting(i, |jitters|) else Failing(i))
  {
    if jitters != [] {
      var k := |jitters| - 1;
      TriesRun(retries, i, jitters[..k]);
      OneTryRuns(retries, i, k, jitters[k]);
      RunsAppend(retries, Waiting(i, 0), Tries(i, jitters[..k]),
                 [Granted(i), Called(i, k, Failed), Slept(i, k, jitters[k])]);
    }
  }

  function PcBeforeClosing(i: nat, v: Visit): Pc {
    match v.ending
    case Win(hits) => Winning(i, hits)
    case Abort => Pausing(i, |v.jitters|)
    case Crash => Pausing(i, |v.jitters|)
    case _ => Failing(i)
  }

  lemma AttemptsRun(retries: seq<int>, i: nat, v: Visit)
    requires i < |retries| && retries[i] >= 0 && VisitOk(retries[i], v) && !v.ending.Skip?
    ensures Runs(retries, Waiting(i, 0), Attempts(i, v)) == Some(PcBeforeClosing(i, v))
  {
    var t, a := Tries(i, v.jitters), |v.jitters|;
    TriesRun(retries, i, v.jitters);
    match v.ending {
      case Exhaust => assert Attempts(i, v) == t;
      case Throttle =>
        RunsAppend(retries, Waiting(i, 0), t, [Granted(i), Called(i, a, Throttled)]);
        TwoEventsRun(retries, Waiting(i, a), Granted(i), Called(i, a, Throttled));
      case LimiterError =>
        RunsAppend(retries, Waiting(i, 0), t, [Denied(i)]);
        EventRuns(retries, Waiting(i, a), Denied(i));
      case Win(hits) =>
        RunsAppend(retries, Waiting(i, 0), t, [Granted(i), Called(i, a, Hit(hits))]);
        TwoEventsRun(retries, Waiting(i, a), Granted(i), Called(i, a, Hit(hits)));
      case Abort =>
        RunsAppend(retries, Waiting(i, 0), t, [Granted(i), Called(i, a, Failed)]);
        TwoEventsRun(retries, Waiting(i, a), Granted(i), Called(i, a, Failed));
      case Crash =>
        RunsAppend(retries, Waiting(i, 0), t, [Granted(i), Called(i, a, Failed)]);
        TwoEventsRun(retries, Waiting(i, a), Granted(i), Called(i, a, Failed));
    }
  }

  lemma TriedVisitRuns(retries: seq<int>, i: nat, v: Visit)
    requires i < |retries| && retries[i] >= 0 && VisitOk(retries[i], v) && !v.ending.Skip?
    ensures Runs(retries, Checking(i), VisitLog(i, v)) == Next(retries, PcBeforeClosing(i, v), Closing(i, v)[0])
    ensures |Closing(i, v)| == 1
  {
    EventRuns(retries, Checking(i), Passed(i));
    AttemptsRun(retries, i, v);
    RunsAppend(retries, Checking(i), [Passed(i)], Attempts(i, v));
    RunsAppend(retries, Checking(i), [Passed(i)] + Attempts(i, v), Closing(i, v));
    EventRuns(retries, PcBeforeClosing(i, v), Closing(i, v)[0]);
    assert Closing(i, v) == [Closing(i, v)[0]];
  }

  lemma VisitRuns(retries: seq<int>, i: nat, v: Visit)
    requires i < |retries| && VisitOk(retries[i], v)
    ensures Runs(retries, Checking(i), VisitLog(i, v)) == Some(AfterVisit(retries, i, v))
  {
    if v.ending == Skip {
      EventRuns(retries, Checking(i), Skipped(i));
    } else if retries[i] < 0 {
      EventRuns(retries, Checking(i), Passed(i));
      assert Tries(i, []) == [];
      assert VisitLog(i, v) == [Passed(i)];
    } else {
      TriedVisitRuns(retries, i, v);
    }
  }

  /** All visits but the last have fallen through. */
  lemma BeforeLast(retries: seq<int>, vs: seq<Visit>)
    requires VisitsOk(retries, vs) && vs != []
    ensures var before := vs[..|vs| - 1];
      && VisitsOk(retries, before) && All(before) && ResultOf(retries, before) == None
      && |before| < |retries| && VisitOk(retries[|before|], vs[|before|]) && vs == before + [vs[|before|]]
  {
    var before := vs[..|vs| - 1];
    if before != [] {
      assert Continues(before[|before| - 1]);
    }
  }

  lemma OneMoreVisitRuns(retries: seq<int>, vs: seq<Visit>, v: Visit)
    requires VisitsOk(retries, vs) && All(vs) && |vs| < |retries| && VisitOk(retries[|vs|], v)
    requires PcAfter(retries, Render(vs)) == Some(Checking(|vs|))
    ensures PcAfter(retries, Render(vs + [v])) == Some(AfterVisit(retries, |vs|, v))
  {
    RenderSnoc(vs, v);
    VisitRuns(retries, |vs|, v);
    RunsAppend(retries, Enter(retries, 0), Render(vs), VisitLog(|vs|, v));
  }

  lemma VisitsRunMore(retries: seq<int>, vs: seq<Visit>, v: Visit)
    requires VisitsOk(retries, vs) && All(vs) && |vs| < |retries| && VisitOk(retries[|vs|], v)
    requires ResultOf(retries, vs) == None && PcAfter(retries, Render(vs)) == Some(PcFor(retries, vs))
    ensures PcAfter(retries, Render(vs + [v])) == Some(PcFor(retries, vs + [v]))
  {
    OneMoreVisitRuns(retries, vs, v);
    VisitAdded(retries, vs, v);
  }

  lemma {:induction false} VisitsRun(retries: seq<int>, vs: seq<Visit>)
    requires VisitsOk(retries, vs)
    ensures PcAfter(retries, Render(vs)) == Some(PcFor(retries, vs))
  {
    if vs == [] {
      assert Render([]) == [];
    } else {
      var before := vs[..|vs| - 1];
      BeforeLast(retries, vs);
      VisitsRun(retries, before);
      VisitsRunMore(retries, before, vs[|before|]);
    }
  }

  /** The search contract: the logs with which a search returns r are exactly those that visit the
      entries in order, each once, with a visit its retries admit; skip or fail every one before the
      last; and end with a win (r is Found), an abort (Aborted), a panic in backoff (Crashed), or with no
      entry left (NoResults). */
  lemma SearchContract(retries: seq<int>, log: seq<Event>, r: Result)
    ensures PcAfter(retries, log) == Some(Finished(r))
       <==> exists vs: seq<Visit> :: VisitsOk(retries, vs) && ResultOf(retries, vs) == Some(r) && log == Render(vs)
  {
    if PcAfter(retries, log) == Some(Finished(r)) {
      var vs, open := LogIsShaped(retries, log);
      assert log == Render(vs);
    }
    forall vs: seq<Visit> | VisitsOk(retries, vs) && ResultOf(retries, vs) == Some(r) && log == Render(vs)
      ensures PcAfter(retries, log) == Some(Finished(r))
    {
      VisitsRun(retries, vs);
    }
  }

  // ---- Counting, termination ------------------------------------------------------------

  /** How often a log calls, records a failure on, skips and wins with an entry. */
  datatype Counts = Counts(calls: nat, records: nat, skips: nat, wins: nat)

  function CountsOf(log: seq<Event>, j: nat): Counts {
    if log == [] then Counts(0, 0, 0, 0)
    else
      var c := CountsOf(log[..|log| - 1], j);
      match log[|log| - 1]
      case Called(e, _, _) => if e == j then c.(calls := c.calls + 1) else c
      case Recorded(e) => if e == j then c.(records := c.records + 1) else c
      case Skipped(e) => if e == j then c.(skips := c.skips + 1) else c
      case Won(e) => if e == j then c.(wins := c.wins + 1) else c
      case _ => c
  }

  const UNTOUCHED: Counts := Counts(0, 0, 0, 0)

  /** Skipped as open, or tried and one failure recorded; a negative number of retries does neither. */
  predicate FellThrough(r: int, c: Counts) {
    && c.wins == 0
    && ( || c == Counts(0, 0, 1, 0)
         || (r >= 0 && c.skips == 0 && c.records == 1 && c.calls <= r + 1)
         || (r < 0 && c == UNTOUCHED))
  }

  /** Counts on the entry being visited. */
  predicate FitsHere(r: int, pc: Pc, c: Counts) {
    match pc
    case Checking(_) => c == UNTOUCHED
    case Waiting(_, a) => c == Counts(a, 0, 0, 0) && a <= r
    case Calling(_, a) => c == Counts(a, 0, 0, 0) && a <= r
    case Pausing(_, a) => c == Counts(a + 1, 0, 0, 0) && a <= r
    case Failing(_) => r >= 0 && c.calls <= r + 1 && c == Counts(c.calls, 0, 0, 0)
    case Winning(_, _) => 1 <= c.calls <= r + 1 && c == Counts(c.calls, 0, 0, 0)
    case Finished(_) => false
  }

  /** Counts on entry j once the search has returned. */
  predicate FitsResult(r: int, result: Result, j: nat, c: Counts) {
    match result
    case NoResults => FellThrough(r, c)
    case Found(k, _) =>
      if j < k then FellThrough(r, c)
      else if j == k then 1 <= c.calls <= r + 1 && c == Counts(c.calls, 0, 0, 1)
      else c == UNTOUCHED
    case _ => FellThrough(r, c) || (c == Counts(c.calls, 0, 0, 0) && c.calls <= if r >= 0 then r + 1 else 0)
  }

  predicate CountsFit(retries: seq<int>, pc: Pc, j: nat, c: Counts)
    requires j < |retries|
  {
    if pc.Finished? then FitsResult(retries[j], pc.result, j, c)
    else if j < EntryOf(pc) then FellThrough(retries[j], c)
    else if j > EntryOf(pc) then c == UNTOUCHED
    else FitsHere(retries[j], pc, c)
  }

  /** In every reachable position: entries behind were skipped or failed exactly once, entries ahead are
      untouched, and no entry is called more than retries + 1 times. On success the winner has one
      success and no failure; with no results every entry was skipped or failed exactly once. */
  lemma {:induction false} SearchCounts(retries: seq<int>, log: seq<Event>, j: nat)
    requires j < |retries| && PcAfter(retries, log).Some?
    ensures CountsFit(retries, PcAfter(retries, log).value, j, CountsOf(log, j))
  {
    if log != [] {
      SearchCounts(retries, log[..|log| - 1], j);
    }
  }

  /** A rate-limit answer is the last call on its entry. */
  lemma {:induction false} ThrottleIsLastCall(retries: seq<int>, log: seq<Event>, p: nat)
    requires PcAfter(retries, log).Some? && p < |log| && log[p].Called? && log[p].outcome == Throttled
    ensures forall q :: p < q < |log| && log[q].Called? ==> log[q].entry > log[p].entry
    ensures var pc := PcAfter(retries, log).value;
      pc.Finished? || pc == Failing(log[p].entry) || EntryOf(pc) > log[p].entry
    decreases |log|
  {
    var before := log[..|log| - 1];
    if p < |log| - 1 {
      ThrottleIsLastCall(retries, before, p);
      forall q | p < q < |log| && log[q].Called? ensures log[q].entry > log[p].entry {
        if q < |log| - 1 {
          assert before[q] == log[q];
        }
      }
    }
  }

  /** Events a search can still do from a position: a call, a pause and a grant per try left. */
  function Room(retries: seq<int>, i: nat): nat
    decreases |retries| - i
  {
    if i >= |retries| then 0
    else Room(retries, i + 1) + 3 + 3 * if retries[i] >= 0 then retries[i] + 1 else 0
  }

  function StepsLeft(retries: seq<int>, pc: Pc): int {
    match pc
    case Checking(i) => Room(retries, i)
    case Waiting(i, a) => if i < |retries| then Room(retries, i + 1) + 2 + 3 * (retries[i] - a + 1) else 0
    case Calling(i, a) => if i < |retries| then Room(retries, i + 1) + 1 + 3 * (retries[i] - a + 1) else 0
    case Pausing(i, a) => if i < |retries| then Room(retries, i + 1) + 3 * (retries[i] - a + 1) else 0
    case Failing(i) => Room(retries, i + 1) + 1
    case Winning(i, _) => Room(retries, i + 1) + 1
    case Finished(_) => 0
  }

  predicate InRange(retries: seq<int>, pc: Pc) {
    && (pc.Finished? || EntryOf(pc) < |retries|)
    && (pc.Waiting? || pc.Calling? || pc.Pausing? ==> pc.attempt <= retries[pc.i])
  }

  lemma StepsLeftDecreases(retries: seq<int>, pc: Pc, ev: Event)
    requires InRange(retries, pc) && Next(retries, pc, ev).Some?
    ensures InRange(retries, Next(retries, pc, ev).value)
    ensures 0 <= StepsLeft(retries, Next(retries, pc, ev).value) < StepsLeft(retries, pc)
  {
  }

  /** Every event brings a search closer to its end: none does more than Room(retries, 0) events. */
  lemma {:induction false} SearchTerminates(retries: seq<int>, log: seq<Event>)
    requires PcAfter(retries, log).Some?
    ensures InRange(retries, PcAfter(retries, log).value)
    ensures 0 <= StepsLeft(retries, PcAfter(retries, log).value) <= Room(retries, 0) - |log|
  {
    if log != [] {
      var k := |log| - 1;
      SearchTerminates(retries, log[..k]);
      StepsLeftDecreases(retries, PcAfter(retries, log[..k]).value, log[k]);
    }
  }

  /** Everything a search does it does to an entry of its chain. */
  lemma {:induction false} EventsInChain(retries: seq<int>, log: seq<Event>)
    requires PcAfter(retries, log).Some?
    ensures forall k :: 0 <= k < |log| ==> log[k].entry < |retries|
  {
    if log != [] {
      var before := log[..|log| - 1];
      EventsInChain(retries, before);
      SearchTerminates(retries, before);
      assert log == before + [log[|log| - 1]];
    }
  }

  /** No entry is called for an attempt after 35, the first that backoff cannot pause after. */
  lemma {:induction false} AttemptsStayBelow36(retries: seq<int>, log: seq<Event>)
    requires PcAfter(retries, log).Some?
    ensures var pc := PcAfter(retries, log).value;
      pc.Waiting? || pc.Calling? || pc.Pausing? ==> pc.attempt <= 35
    ensures forall k :: 0 <= k < |log| && log[k].Called? ==> log[k].attempt <= 35
  {
    if log != [] {
      AttemptsStayBelow36(retries, log[..|log| - 1]);
      FirstPanic(35);
      assert log == log[..|log| - 1] + [log[|log| - 1]];
    }
  }

  /** A search that crashes does so on an entry with at least 35 retries. */
  lemma CrashNeedsRetries(retries: seq<int>, log: seq<Event>)
    requires PcAfter(retries, log) == Some(Finished(Crashed))
    ensures exists i :: 0 <= i < |retries| && retries[i] >= 35
  {
    if log == [] {
      assert false;
    }
    var before := log[..|log| - 1];
    SearchTerminates(retries, before);
    var pc := PcAfter(retries, before).value;
    assert pc.Pausing? && !CanPause(pc.attempt);
    FirstPanic(pc.attempt);
    assert retries[pc.i] >= 35;
  }

  /** The first i entries skipped. */
  function Skips(i: nat): (vs: seq<Visit>)
    ensures |vs| == i && forall k :: 0 <= k < i ==> vs[k] == Visit([], Skip)
  {
    seq(i, _ => Visit([], Skip))
  }

  lemma SkipsOk(retries: seq<int>, i: nat)
    requires i <= |retries|
    ensures VisitsOk(retries, Skips(i)) && All(Skips(i))
  {
  }

  /** A visit that fails 36 times. */
  lemma CrashVisit(r: int) returns (v: Visit)
    requires r >= 35
    ensures VisitOk(r, v) && v.ending == Crash
  {
    v := Visit(seq(35, _ => 0), Crash);
    forall a | 0 <= a < 35 ensures Jitter(a, v.jitters[a]) {
      FirstPanic(a);
    }
    FirstPanic(35);
  }

  lemma CrashPossible(retries: seq<int>, i: nat) returns (log: seq<Event>)
    requires i < |retries| && retries[i] >= 35
    ensures PcAfter(retries, log) == Some(Finished(Crashed))
  {
    var v := CrashVisit(retries[i]);
    SkipsOk(retries, i);
    VisitAdded(retries, Skips(i), v);
    VisitsRun(retries, Skips(i) + [v]);
    log := Render(Skips(i) + [v]);
  }

  /** Some search can crash exactly if some entry has 35 retries or more. */
  lemma CrashIff(retries: seq<int>)
    ensures (exists log: seq<Event> :: PcAfter(retries, log) == Some(Finished(Crashed)))
       <==> exists i :: 0 <= i < |retries| && retries[i] >= 35
  {
    forall log: seq<Event> | PcAfter(retries, log) == Some(Finished(Crashed))
      ensures exists i :: 0 <= i < |retries| && retries[i] >= 35
    {
      CrashNeedsRetries(retries, log);
    }
    if i: nat :| i < |retries| && retries[i] >= 35 {
      var log := CrashPossible(retries, i);
    }
  }

  /** A visit that exhausts r retries pauses for at least 500 (2^(r+1) - 1) milliseconds in total and for
      less than half as much again. */
  lemma ExhaustedPauses(r: int, v: Visit)
    requires 0 <= r <= 33 && VisitOk(r, v) && v.ending == Exhaust
    ensures 500_000_000 * (Pow2((r + 1) as nat) - 1) <= TotalPause(v.jitters)
    ensures 2 * TotalPause(v.jitters) < 3 * 500_000_000 * (Pow2((r + 1) as nat) - 1)
  {
    TotalPauseBounds(v.jitters);
  }
}
