/** saka.go, SearchStream, and server/http.go, handleSearchStream: a producer and a consumer over an
    8-slot result channel, a done slot, an error slot and a context that may be cancelled. */
module SearchStream {
  import opened Options

  const CAPACITY := 8

  type Hit = string

  /** What the engine's Search returns, whenever it does. */
  datatype Outcome = Hits(results: seq<Hit>) | Error

  /** The goroutine of SearchStream. */
  datatype Producer =
    | Searching
    | Sending(k: nat)   // about to send result k, or the summary after the last one
    | Failing           // about to send the error
    | Closing
    | Gone

  /** The handler: draining results, then waiting for the summary or the error, then returned. */
  datatype Consumer = Draining | Ending | Left

  datatype Frame = ResultFrame(hit: Hit) | DoneFrame | ErrorFrame

  datatype State = State(
    prod: Producer, buffer: seq<Hit>, done: bool, err: bool, cancelled: bool, cons: Consumer, frames: seq<Frame>)

  const START: State := State(Searching, [], false, false, false, Draining, [])

  /** The possible steps; where a select has several ready cases any of them may be taken. */
  datatype Step =
    | Returned     // Search returned
    | Sent         // a result goes into the channel
    | Summed       // the summary goes into the done slot
    | Errored      // the error goes into the error slot
    | GaveUp       // the producer sees the cancelled context
    | Closed       // the result channel is closed
    | Received     // a result frame is written
    | Drained      // the consumer sees the closed, empty channel
    | TookDone     // the done frame is written
    | TookError    // the error frame is written
    | Walked       // the consumer sees the cancelled context
    | Cancel       // the client goes away

  predicate Enabled(o: Outcome, s: State, step: Step) {
    match step
    case Returned => s.prod.Searching?
    case Sent => o.Hits? && s.prod.Sending? && s.prod.k < |o.results| && |s.buffer| < CAPACITY
    case Summed => o.Hits? && s.prod.Sending? && s.prod.k >= |o.results| && !s.done
    case Errored => s.prod.Failing? && !s.err
    case GaveUp => s.prod.Sending? && s.cancelled
    case Closed => s.prod.Closing?
    case Received => s.cons.Draining? && s.buffer != []
    case Drained => s.cons.Draining? && s.buffer == [] && s.prod.Gone?
    case TookDone => s.cons.Ending? && s.done
    case TookError => !s.cons.Left? && s.err
    case Walked => !s.cons.Left? && s.cancelled
    case Cancel => !s.cancelled
  }

  function Take(o: Outcome, s: State, step: Step): State
    requires Enabled(o, s, step)
  {
    match step
    case Returned => s.(prod := if o.Hits? then Sending(0) else Failing)
    case Sent => s.(prod := Sending(s.prod.k + 1), buffer := s.buffer + [o.results[s.prod.k]])
    case Summed => s.(prod := Closing, done := true)
    case Errored => s.(prod := Closing, err := true)
    case GaveUp => s.(prod := Closing)
    case Closed => s.(prod := Gone)
    case Received => s.(buffer := s.buffer[1..], frames := s.frames + [ResultFrame(s.buffer[0])])
    case Drained => s.(cons := Ending)
    case TookDone => s.(cons := Left, done := false, frames := s.frames + [DoneFrame])
    case TookError => s.(cons := Left, err := false, frames := s.frames + [ErrorFrame])
    case Walked => s.(cons := Left)
    case Cancel => s.(cancelled := true)
  }

  /** The state after a run, None if some step of it was not enabled. */
  function Run(o: Outcome, run: seq<Step>): Option<State> {
    if run == [] then Some(START)
    else
      var s := Run(o, run[..|run| - 1]);
      if s.Some? && Enabled(o, s.value, run[|run| - 1]) then Some(Take(o, s.value, run[|run| - 1])) else None
  }

  function ResultFrames(hits: seq<Hit>): seq<Frame> {
    if hits == [] then [] else ResultFrames(hits[..|hits| - 1]) + [ResultFrame(hits[|hits| - 1])]
  }

  /** What a client that stays should read. */
  function Expected(o: Outcome): seq<Frame> {
    if o.Hits? then ResultFrames(o.results) + [DoneFrame] else [ErrorFrame]
  }

  // ---- The invariant --------------------------------------------------------------------

  function ResultsOf(o: Outcome): seq<Hit> {
    if o.Hits? then o.results else []
  }

  /** n results are written, the buffer holds the next ones. */
  predicate Flow(o: Outcome, s: State, n: nat) {
    var rs := ResultsOf(o);
    && n + |s.buffer| <= |rs| && s.buffer == rs[n..n + |s.buffer|] && |s.buffer| <= CAPACITY
    && (s.prod.Searching? || s.prod.Failing? ==> n + |s.buffer| == 0)
    && (s.prod.Sending? ==> o.Hits? && n + |s.buffer| == s.prod.k)
    && (s.prod.Failing? ==> o.Error?)
  }

  /** The terminal slots and frames: written at most once, the summary only after every result. */
  predicate Terminals(o: Outcome, s: State, n: nat)
    requires n <= |ResultsOf(o)|
  {
    var rs := ResultsOf(o);
    var last := if s.frames == [] then None else Some(s.frames[|s.frames| - 1]);
    && (s.done ==> o.Hits? && n + |s.buffer| == |rs| && (s.prod.Closing? || s.prod.Gone?))
    && (s.err ==> o.Error? && (s.prod.Closing? || s.prod.Gone?))
    && (s.cons.Ending? ==> s.prod.Gone? && s.buffer == [])
    && ( || s.frames == ResultFrames(rs[..n])
         || (s.frames == Expected(o) && s.cons.Left? && !s.done && !s.err
             && n == |rs| && s.buffer == [] && (s.prod.Closing? || s.prod.Gone?)))
  }

  /** Without cancellation the producer leaves its terminal value behind, and the consumer takes it. */
  predicate Complete(o: Outcome, s: State) {
    !s.cancelled ==>
      && (s.prod.Closing? || s.prod.Gone? ==> s.done || s.err || s.frames == Expected(o))
      && (s.cons.Left? ==> s.frames == Expected(o))
  }

  predicate Holds(o: Outcome, s: State, n: nat) {
    Flow(o, s, n) && Terminals(o, s, n) && Complete(o, s)
  }

  lemma ResultFramesSnoc(hits: seq<Hit>, n: nat)
    requires n < |hits|
    ensures ResultFrames(hits[..n + 1]) == ResultFrames(hits[..n]) + [ResultFrame(hits[n])]
  {
    assert hits[..n + 1][..n] == hits[..n];
  }

  predicate IsProducerStep(step: Step) {
    step.Returned? || step.Sent? || step.Summed? || step.Errored? || step.GaveUp? || step.Closed?
  }

  lemma ProducerStepKeeps(o: Outcome, s: State, step: Step, n: nat)
    requires Holds(o, s, n) && Enabled(o, s, step) && (IsProducerStep(step) || step.Cancel?)
    ensures Holds(o, Take(o, s, step), n)
  {
  }

  lemma ReceiveKeeps(o: Outcome, s: State, n: nat)
    requires Holds(o, s, n) && Enabled(o, s, Received)
    ensures Holds(o, Take(o, s, Received), n + 1)
  {
    ResultFramesSnoc(ResultsOf(o), n);
    ResultFramesOnly(ResultsOf(o)[..n]);
    ResultFramesOnly(ResultsOf(o));
  }

  lemma TerminalStepKeeps(o: Outcome, s: State, step: Step, n: nat)
    requires Holds(o, s, n) && Enabled(o, s, step)
    requires step.Drained? || step.TookDone? || step.TookError? || step.Walked?
    ensures Holds(o, Take(o, s, step), n)
  {
    if step.TookDone? {
      assert o.results[..n] == o.results;
    } else if step.TookError? {
      assert ResultsOf(o)[..n] == [];
    }
  }

  lemma {:induction false} RunKeepsInvariant(o: Outcome, run: seq<Step>) returns (n: nat)
    requires Run(o, run).Some?
    ensures Holds(o, Run(o, run).value, n)
  {
    if run == [] {
      assert ResultsOf(o)[..0] == [] && ResultsOf(o)[0..0] == [];
      n := 0;
    } else {
      var k := |run| - 1;
      n := RunKeepsInvariant(o, run[..k]);
      var s, step := Run(o, run[..k]).value, run[k];
      if step.Received? {
        ReceiveKeeps(o, s, n);
        n := n + 1;
      } else if IsProducerStep(step) || step.Cancel? {
        ProducerStepKeeps(o, s, step, n);
      } else {
        TerminalStepKeeps(o, s, step, n);
      }
    }
  }

  // ---- Safety ---------------------------------------------------------------------------

  lemma {:induction false} ResultFramesPrefix(hits: seq<Hit>, n: nat)
    requires n <= |hits|
    ensures ResultFrames(hits[..n]) <= ResultFrames(hits)
  {
    if n < |hits| {
      ResultFramesPrefix(hits[..|hits| - 1], n);
      assert hits[..|hits| - 1][..n] == hits[..n];
    } else {
      assert hits[..n] == hits;
    }
  }

  /** Over every interleaving and cancellation the frames written are a prefix of the expected ones: the
      results in order and then one done frame, or one error frame. */
  lemma FramesArePrefix(o: Outcome, run: seq<Step>)
    requires Run(o, run).Some?
    ensures Run(o, run).value.frames <= Expected(o)
  {
    var n := RunKeepsInvariant(o, run);
    ResultFramesPrefix(ResultsOf(o), n);
  }

  /** The done frame is the last one and comes after every result; an error comes alone. */
  lemma TerminalFrames(o: Outcome, run: seq<Step>, i: nat)
    requires Run(o, run).Some? && i < |Run(o, run).value.frames| && !Run(o, run).value.frames[i].ResultFrame?
    ensures Run(o, run).value.frames == Expected(o) && i == |Expected(o)| - 1
    ensures Run(o, run).value.frames[i] == if o.Hits? then DoneFrame else ErrorFrame
  {
    FramesArePrefix(o, run);
    ResultFramesOnly(ResultsOf(o));
  }

  lemma {:induction false} ResultFramesOnly(hits: seq<Hit>)
    ensures |ResultFrames(hits)| == |hits|
    ensures forall i :: 0 <= i < |hits| ==> ResultFrames(hits)[i] == ResultFrame(hits[i])
  {
    if hits != [] {
      ResultFramesOnly(hits[..|hits| - 1]);
    }
  }

  predicate BothFinished(s: State) {
    s.prod.Gone? && s.cons.Left?
  }

  /** A client that stays reads exactly the expected frames. */
  lemma UncancelledOutput(o: Outcome, run: seq<Step>)
    requires Run(o, run).Some? && !Run(o, run).value.cancelled && Run(o, run).value.cons.Left?
    ensures Run(o, run).value.frames == Expected(o)
  {
    var n := RunKeepsInvariant(o, run);
  }

  // ---- Progress -------------------------------------------------------------------------

  /** A step of the producer or the consumer that a state allows. */
  function Ready(o: Outcome, s: State): Step {
    if s.prod.Searching? then Returned
    else if s.prod.Closing? then Closed
    else if s.prod.Failing? then Errored
    else if s.prod.Sending? && s.cancelled then GaveUp
    else if s.prod.Sending? && s.prod.k >= |ResultsOf(o)| then Summed
    else if s.prod.Sending? && |s.buffer| < CAPACITY then Sent
    else if s.err then TookError
    else if s.cancelled then Walked
    else if s.buffer != [] then Received
    else if s.cons.Draining? then Drained
    else TookDone
  }

  /** No reachable state is stuck: until both sides have finished, one of them can move. */
  lemma NeverStuck(o: Outcome, run: seq<Step>)
    requires Run(o, run).Some? && !BothFinished(Run(o, run).value)
    ensures Enabled(o, Run(o, run).value, Ready(o, Run(o, run).value)) && Ready(o, Run(o, run).value) != Cancel
  {
    var n := RunKeepsInvariant(o, run);
    NeverStuckIn(o, Run(o, run).value, n);
  }

  lemma NeverStuckIn(o: Outcome, s: State, n: nat)
    requires Holds(o, s, n) && !BothFinished(s)
    ensures Enabled(o, s, Ready(o, s))
  {
    ResultFramesOnly(ResultsOf(o)[..n]);
    ResultFramesOnly(ResultsOf(o));
  }

  /** What the producer still has to do, and what everybody has. */
  function ProducerLeft(o: Outcome, s: State): int {
    match s.prod
    case Searching => 2 * |ResultsOf(o)| + 4
    case Sending(k) => 2 * (|ResultsOf(o)| - k) + 3
    case Failing => 3
    case Closing => 2
    case Gone => 0
  }

  function StepsLeft(o: Outcome, s: State): int {
    ProducerLeft(o, s) + |s.buffer|
    + (match s.cons case Draining => 2 case Ending => 1 case Left => 0)
    + if s.cancelled then 0 else 1
  }

  lemma StepsLeftDecreases(o: Outcome, s: State, step: Step, n: nat)
    requires Holds(o, s, n) && Enabled(o, s, step)
    ensures 0 <= StepsLeft(o, Take(o, s, step)) < StepsLeft(o, s)
  {
  }

  /** Every step brings the end closer, so every run is finite, and by NeverStuck it can always be
      continued to one in which both sides have finished. */
  lemma {:induction false} RunsAreFinite(o: Outcome, run: seq<Step>)
    requires Run(o, run).Some?
    ensures 0 <= StepsLeft(o, Run(o, run).value) <= 2 * |ResultsOf(o)| + 7 - |run|
  {
    if run != [] {
      var k := |run| - 1;
      RunsAreFinite(o, run[..k]);
      var n := RunKeepsInvariant(o, run[..k]);
      StepsLeftDecreases(o, Run(o, run[..k]).value, run[k], n);
    }
  }

  lemma RunCompletes(o: Outcome, run: seq<Step>) returns (whole: seq<Step>)
    requires Run(o, run).Some?
    ensures run <= whole && Run(o, whole).Some? && BothFinished(Run(o, whole).value)
    ensures Run(o, whole).value.cancelled == Run(o, run).value.cancelled
    decreases StepsLeft(o, Run(o, run).value)
  {
    RunsAreFinite(o, run);
    if BothFinished(Run(o, run).value) {
      whole := run;
    } else {
      NeverStuck(o, run);
      var s := Run(o, run).value;
      var next := run + [Ready(o, s)];
      assert next[..|run|] == run;
      var n := RunKeepsInvariant(o, run);
      StepsLeftDecreases(o, s, Ready(o, s), n);
      whole := RunCompletes(o, next);
    }
  }

  /** Once the context is cancelled the producer can always go on by itself, whether or not the consumer
      is still there, and every step it takes, and none that the consumer takes, brings it closer to the close. */
  lemma CancelledProducerCloses(o: Outcome, run: seq<Step>)
    requires Run(o, run).Some? && Run(o, run).value.cancelled && !Run(o, run).value.prod.Gone?
    ensures var s := Run(o, run).value;
      && (exists step :: IsProducerStep(step) && Enabled(o, s, step))
      && (forall step :: Enabled(o, s, step) ==>
            if IsProducerStep(step) then 0 <= ProducerLeft(o, Take(o, s, step)) < ProducerLeft(o, s)
            else ProducerLeft(o, Take(o, s, step)) == ProducerLeft(o, s))
  {
    var n := RunKeepsInvariant(o, run);
    var s := Run(o, run).value;
    var step := Ready(o, s);
    assert IsProducerStep(step) && Enabled(o, s, step);
  }

  /** Without a cancelled context a producer with results left waits exactly when eight more have been sent than the
      consumer has written; otherwise it can go on by itself. */
  lemma WaitsIff(o: Outcome, run: seq<Step>)
    requires Run(o, run).Some? && Run(o, run).value.prod.Sending? && !Run(o, run).value.cancelled
    ensures var s := Run(o, run).value;
      (forall step :: IsProducerStep(step) ==> !Enabled(o, s, step))
      <==> s.prod.k < |ResultsOf(o)| && s.prod.k == |s.frames| + 8
  {
    var n := RunKeepsInvariant(o, run);
    var s := Run(o, run).value;
    ResultFramesOnly(ResultsOf(o)[..n]);
    if s.prod.k >= |ResultsOf(o)| {
      assert Enabled(o, s, Summed);
    } else if |s.buffer| < 8 {
      assert Enabled(o, s, Sent);
    }
  }
}
