/** fetch/fetch.go, FetchStream, with fetch/stream.go, ExtractStream: an extracting and a forwarding
    goroutine in a row, each with a 16-slot chunk channel, a page slot and an error slot. */
module FetchStream {
  import opened Options
  import opened Readability
  import opened Streaming
  import opened Text
  import Dom

  const CAPACITY := 16

  /** How the fetch goes: refused or failed before a body is there; or a body, that fails to parse or
      yields chunks and a page. */
  datatype Origin = NoBody | BadBody | Body(chunks: seq<Chunk>, page: Page)

  /** The goroutine of ExtractStream; its page goes to the page slot before the channel is closed. */
  datatype Extractor = Idle | Extracting(k: nat) | Delivering | Shutting | Over

  /** The goroutine of FetchStream. */
  datatype Forwarder =
    | Fetching            // limiter, robots.txt, request
    | Receiving           // ranging over the inner channel
    | Holding(c: Chunk)   // sending on the outer channel
    | Selecting           // waiting for the page or the error
    | Storing(page: Page) // writing the caches
    | Finishing(page: Page)
    | Failing
    | Closing
    | Gone

  /** The caller of FetchStream: reading to the close of the channel, at the close, or gone for good. */
  datatype Consumer = Reading | AtClose | Left

  datatype State = State(
    ext: Extractor, inner: seq<Chunk>, innerPage: Option<Page>, innerErr: bool,
    fwd: Forwarder, outer: seq<Chunk>, pages: seq<Page>, errors: nat, stored: seq<Page>,
    cons: Consumer, consumed: seq<Chunk>)

  const START: State := State(Idle, [], None, false, Fetching, [], [], 0, [], Reading, [])

  datatype Step =
    | Fetched | ESent | EDelivered | EClosed
    | FReceived | FSent | FDrained | FTookPage | FTookError | FStored | FDelivered | FErrored | FClosed
    | CReceived | CClosed | CLeft

  predicate Enabled(o: Origin, s: State, step: Step) {
    match step
    case Fetched => s.fwd.Fetching?
    case ESent => o.Body? && s.ext.Extracting? && s.ext.k < |o.chunks| && |s.inner| < CAPACITY
    case EDelivered => s.ext.Delivering? || (s.ext.Extracting? && o.Body? && s.ext.k >= |o.chunks|)
    case EClosed => s.ext.Shutting?
    case FReceived => s.fwd.Receiving? && s.inner != []
    case FSent => s.fwd.Holding? && |s.outer| < CAPACITY
    case FDrained => s.fwd.Receiving? && s.inner == [] && s.ext.Over?
    case FTookPage => s.fwd.Selecting? && s.innerPage.Some?
    case FTookError => s.fwd.Selecting? && s.innerErr
    case FStored => s.fwd.Storing?
    case FDelivered => s.fwd.Finishing?
    case FErrored => s.fwd.Failing?
    case FClosed => s.fwd.Closing?
    case CReceived => s.cons.Reading? && s.outer != []
    case CClosed => s.cons.Reading? && s.outer == [] && s.fwd.Gone?
    case CLeft => s.cons.Reading?
  }

  function Take(o: Origin, s: State, step: Step): State
    requires Enabled(o, s, step)
  {
    match step
    case Fetched =>
      if o.NoBody? then s.(fwd := Failing)
      else s.(fwd := Receiving, ext := if o.Body? then Extracting(0) else Delivering)
    case ESent => s.(ext := Extracting(s.ext.k + 1), inner := s.inner + [o.chunks[s.ext.k]])
    case EDelivered =>
      if o.Body? then s.(ext := Shutting, innerPage := Some(o.page)) else s.(ext := Shutting, innerErr := true)
    case EClosed => s.(ext := Over)
    case FReceived => s.(fwd := Holding(s.inner[0]), inner := s.inner[1..])
    case FSent => s.(fwd := Receiving, outer := s.outer + [s.fwd.c])
    case FDrained => s.(fwd := Selecting)
    case FTookPage => s.(fwd := Storing(s.innerPage.value), innerPage := None)
    case FTookError => s.(fwd := Failing, innerErr := false)
    case FStored => s.(fwd := Finishing(s.fwd.page), stored := s.stored + [s.fwd.page])
    case FDelivered => s.(fwd := Closing, pages := s.pages + [s.fwd.page])
    case FErrored => s.(fwd := Closing, errors := s.errors + 1)
    case FClosed => s.(fwd := Gone)
    case CReceived => s.(consumed := s.consumed + [s.outer[0]], outer := s.outer[1..])
    case CClosed => s.(cons := AtClose)
    case CLeft => s.(cons := Left)
  }

  /** The state after a run, None if some step of it was not enabled. */
  function Run(o: Origin, run: seq<Step>): Option<State> {
    if run == [] then Some(START)
    else
      var s := Run(o, run[..|run| - 1]);
      if s.Some? && Enabled(o, s.value, run[|run| - 1]) then Some(Take(o, s.value, run[|run| - 1])) else None
  }

  // ---- Conservation ---------------------------------------------------------------------

  function ChunksOfBody(o: Origin): seq<Chunk> {
    if o.Body? then o.chunks else []
  }

  function InHand(s: State): seq<Chunk> {
    if s.fwd.Holding? then [s.fwd.c] else []
  }

  /** How many chunks the extractor has sent. */
  function SentCount(o: Origin, s: State): nat {
    match s.ext
    case Idle => 0
    case Extracting(k) => k
    case _ => |ChunksOfBody(o)|
  }

  /** Consumed, outer buffer, chunk in hand, inner buffer: together what the extractor has sent. */
  function InPipe(s: State): seq<Chunk> {
    s.consumed + (s.outer + (InHand(s) + s.inner))
  }

  predicate Conserved(o: Origin, s: State) {
    && SentCount(o, s) <= |ChunksOfBody(o)|
    && InPipe(s) == ChunksOfBody(o)[..SentCount(o, s)]
    && |s.inner| <= 16 && |s.outer| <= 16
  }

  /** Which slots are filled at which point of the two programs. */
  predicate Slots(o: Origin, s: State) {
    && (s.ext.Idle? <==> s.fwd.Fetching? || (o.NoBody? && (s.fwd.Failing? || s.fwd.Closing? || s.fwd.Gone?)))
    && (s.ext.Extracting? ==> o.Body?) && (s.ext.Delivering? ==> o.BadBody?)
    && (s.innerPage.Some? ==> o.Body? && s.innerPage.value == o.page && (s.ext.Shutting? || s.ext.Over?))
    && (s.innerErr ==> o.BadBody? && (s.ext.Shutting? || s.ext.Over?))
    && (s.ext.Shutting? ==> s.innerPage.Some? || s.innerErr)
    && (s.ext.Over? && (s.fwd.Receiving? || s.fwd.Holding? || s.fwd.Selecting?) ==> s.innerPage.Some? || s.innerErr)
    && (s.fwd.Receiving? || s.fwd.Holding? ==> !o.NoBody?)
    && (!s.fwd.Fetching? && !s.fwd.Receiving? && !s.fwd.Holding? ==> s.inner == [] && (o.NoBody? || s.ext.Over?))
    && (s.fwd.Storing? || s.fwd.Finishing? ==> o.Body? && s.fwd.page == o.page)
    && (s.fwd.Failing? ==> !o.Body?) && (s.fwd.Selecting? ==> !o.NoBody?)
    && (s.cons.AtClose? ==> s.fwd.Gone? && s.outer == [])
  }

  /** The page and the error: stored before it is delivered, and exactly one of the two by the close. */
  predicate Delivered(o: Origin, s: State) {
    var finished := s.fwd.Closing? || s.fwd.Gone?;
    && s.stored == (if o.Body? && (finished || s.fwd.Finishing?) then [o.page] else [])
    && s.pages == (if o.Body? && finished then [o.page] else [])
    && s.errors == (if !o.Body? && finished then 1 else 0)
  }

  predicate Holds(o: Origin, s: State) {
    Conserved(o, s) && Slots(o, s) && Delivered(o, s)
  }

  lemma SendKeeps(o: Origin, s: State)
    requires Holds(o, s) && Enabled(o, s, ESent)
    ensures Conserved(o, Take(o, s, ESent))
  {
    var c := o.chunks[s.ext.k];
    assert o.chunks[..s.ext.k + 1] == o.chunks[..s.ext.k] + [c];
    assert InPipe(Take(o, s, ESent)) == InPipe(s) + [c];
  }

  lemma ReceiveKeeps(o: Origin, s: State)
    requires Holds(o, s) && Enabled(o, s, FReceived)
    ensures Conserved(o, Take(o, s, FReceived))
  {
    assert [s.inner[0]] + s.inner[1..] == [] + s.inner;
  }

  lemma ForwardKeeps(o: Origin, s: State)
    requires Holds(o, s) && Enabled(o, s, FSent)
    ensures Conserved(o, Take(o, s, FSent))
  {
    assert (s.outer + [s.fwd.c]) + ([] + s.inner) == s.outer + ([s.fwd.c] + s.inner);
  }

  lemma ConsumeKeeps(o: Origin, s: State)
    requires Holds(o, s) && Enabled(o, s, CReceived)
    ensures Conserved(o, Take(o, s, CReceived))
  {
    var rest := InHand(s) + s.inner;
    assert (s.consumed + [s.outer[0]]) + (s.outer[1..] + rest) == s.consumed + (s.outer + rest);
  }

  lemma ControlStepKeeps(o: Origin, s: State, step: Step)
    requires Holds(o, s) && Enabled(o, s, step) && !(step.ESent? || step.FReceived? || step.FSent? || step.CReceived?)
    ensures Conserved(o, Take(o, s, step))
  {
    assert ChunksOfBody(o)[..0] == [];
  }

  predicate IsForwarderStep(step: Step) {
    step.FReceived? || step.FSent? || step.FDrained? || step.FTookPage? || step.FTookError? || step.FStored?
    || step.FDelivered? || step.FErrored? || step.FClosed?
  }

  predicate IsForwarding(step: Step) {
    step.FReceived? || step.FSent? || step.FDrained?
  }

  /** Passing chunks on, and after the last one. */
  lemma ForwardingKeepsSlots(o: Origin, s: State, step: Step)
    requires Holds(o, s) && Enabled(o, s, step) && IsForwarding(step)
    ensures Slots(o, Take(o, s, step))
  {
  }

  lemma FinishingKeepsSlots(o: Origin, s: State, step: Step)
    requires Slots(o, s) && Enabled(o, s, step) && IsForwarderStep(step) && !IsForwarding(step)
    ensures Slots(o, Take(o, s, step))
  {
  }

  lemma ForwarderKeepsSlots(o: Origin, s: State, step: Step)
    requires Holds(o, s) && Enabled(o, s, step) && IsForwarderStep(step)
    ensures Slots(o, Take(o, s, step))
  {
    if IsForwarding(step) {
      ForwardingKeepsSlots(o, s, step);
    } else {
      FinishingKeepsSlots(o, s, step);
    }
  }

  lemma OthersKeepSlots(o: Origin, s: State, step: Step)
    requires Holds(o, s) && Enabled(o, s, step) && !IsForwarderStep(step)
    ensures Slots(o, Take(o, s, step))
  {
  }

  lemma ForwarderKeepsDelivered(o: Origin, s: State, step: Step)
    requires Slots(o, s) && Delivered(o, s) && Enabled(o, s, step) && IsForwarderStep(step)
    ensures Delivered(o, Take(o, s, step))
  {
  }

  lemma OthersKeepDelivered(o: Origin, s: State, step: Step)
    requires Delivered(o, s) && Enabled(o, s, step) && !IsForwarderStep(step)
    ensures Delivered(o, Take(o, s, step))
  {
  }

  /** Pipeline conservation, and where the page and the error can be, in every reachable state. */
  lemma {:induction false} RunKeepsInvariant(o: Origin, run: seq<Step>)
    requires Run(o, run).Some?
    ensures Holds(o, Run(o, run).value)
  {
    if run == [] {
      assert ChunksOfBody(o)[..0] == [];
    } else {
      var k := |run| - 1;
      RunKeepsInvariant(o, run[..k]);
      var s, step := Run(o, run[..k]).value, run[k];
      if IsForwarderStep(step) {
        ForwarderKeepsSlots(o, s, step);
        ForwarderKeepsDelivered(o, s, step);
      } else {
        OthersKeepSlots(o, s, step);
        OthersKeepDelivered(o, s, step);
      }
      match step {
        case ESent => SendKeeps(o, s);
        case FReceived => ReceiveKeeps(o, s);
        case FSent => ForwardKeeps(o, s);
        case CReceived => ConsumeKeeps(o, s);
        case _ => ControlStepKeeps(o, s, step);
      }
    }
  }

  lemma Regrouped(cs: seq<Chunk>, n: nat, a: seq<Chunk>, b: seq<Chunk>, c: seq<Chunk>, d: seq<Chunk>)
    requires n <= |cs| && a + (b + (c + d)) == cs[..n]
    ensures a + b + c + d + cs[n..] == cs
  {
    assert a + b + c + d == a + (b + (c + d));
  }

  /** Nothing is lost, duplicated or reordered on the way: what was consumed, what waits in the two
      buffers and in the forwarder's hand, and what is not sent yet make up the chunk sequence. */
  lemma PipelineConserves(o: Origin, run: seq<Step>)
    requires Run(o, run).Some?
    ensures var s, cs := Run(o, run).value, ChunksOfBody(o);
      && SentCount(o, s) <= |cs|
      && s.consumed + s.outer + InHand(s) + s.inner + cs[SentCount(o, s)..] == cs
  {
    RunKeepsInvariant(o, run);
    var s := Run(o, run).value;
    Regrouped(ChunksOfBody(o), SentCount(o, s), s.consumed, s.outer, InHand(s), s.inner);
  }

  /** A consumer that reads to the close has all chunks, and exactly one of the page and the error has
      been delivered, once; the page is the one stored in the caches. */
  lemma DrainedToClose(o: Origin, run: seq<Step>)
    requires Run(o, run).Some? && Run(o, run).value.cons.AtClose?
    ensures var s := Run(o, run).value;
      && s.consumed == ChunksOfBody(o)
      && s.pages == s.stored == (if o.Body? then [o.page] else [])
      && |s.pages| + s.errors == 1
  {
    RunKeepsInvariant(o, run);
    var s, cs := Run(o, run).value, ChunksOfBody(o);
    assert InPipe(s) == s.consumed;
    assert cs[..|cs|] == cs;
  }

  // ---- Progress -------------------------------------------------------------------------

  /** A step of one of the three that a state allows; the consumer reads if it is there. */
  function Ready(o: Origin, s: State): Step {
    if s.ext.Shutting? then EClosed
    else if s.ext.Delivering? || (s.ext.Extracting? && s.ext.k >= |ChunksOfBody(o)|) then EDelivered
    else
      match s.fwd
      case Fetching => Fetched
      case Selecting => if s.innerPage.Some? then FTookPage else FTookError
      case Storing(_) => FStored
      case Finishing(_) => FDelivered
      case Failing => FErrored
      case Closing => FClosed
      case Receiving => if s.inner != [] then FReceived else if s.ext.Over? then FDrained else ESent
      case Holding(_) => if |s.outer| < CAPACITY then FSent else CReceived
      case Gone => if s.outer != [] then CReceived else CClosed
  }

  /** With a consumer that keeps reading no reachable state before the close is stuck. */
  lemma NeverStuck(o: Origin, run: seq<Step>)
    requires Run(o, run).Some? && Run(o, run).value.cons.Reading?
    ensures Enabled(o, Run(o, run).value, Ready(o, Run(o, run).value)) && Ready(o, Run(o, run).value) != CLeft
  {
    RunKeepsInvariant(o, run);
  }

  function ExtractorLeft(o: Origin, s: State): int {
    match s.ext
    case Idle => 4 * |ChunksOfBody(o)| + 3
    case Extracting(k) => 4 * (|ChunksOfBody(o)| - k) + 2
    case Delivering => 2
    case Shutting => 1
    case Over => 0
  }

  function ForwarderLeft(s: State): int {
    match s.fwd
    case Fetching => 7
    case Receiving => 6
    case Holding(_) => 8
    case Selecting => 5
    case Storing(_) => 4
    case Finishing(_) => 3
    case Failing => 3
    case Closing => 2
    case Gone => 0
  }

  function StepsLeft(o: Origin, s: State): int {
    ExtractorLeft(o, s) + 3 * |s.inner| + ForwarderLeft(s) + |s.outer| + if s.cons.Reading? then 1 else 0
  }

  lemma ForwarderStepsLeft(o: Origin, s: State, step: Step)
    requires Holds(o, s) && Enabled(o, s, step) && IsForwarderStep(step)
    ensures StepsLeft(o, Take(o, s, step)) < StepsLeft(o, s)
  {
  }

  lemma StepsLeftDecreases(o: Origin, s: State, step: Step)
    requires Holds(o, s) && Enabled(o, s, step)
    ensures StepsLeft(o, Take(o, s, step)) < StepsLeft(o, s)
  {
    if IsForwarderStep(step) {
      ForwarderStepsLeft(o, s, step);
    }
  }

  lemma StepsLeftNotNegative(o: Origin, s: State)
    requires Conserved(o, s)
    ensures 0 <= StepsLeft(o, s)
  {
  }

  /** Every run is finite: no more steps than four per chunk and eleven. */
  lemma {:induction false} RunsAreFinite(o: Origin, run: seq<Step>)
    requires Run(o, run).Some?
    ensures 0 <= StepsLeft(o, Run(o, run).value) <= 4 * |ChunksOfBody(o)| + 11 - |run|
  {
    if run != [] {
      var k := |run| - 1;
      RunsAreFinite(o, run[..k]);
      RunKeepsInvariant(o, run[..k]);
      StepsLeftDecreases(o, Run(o, run[..k]).value, run[k]);
    }
    RunKeepsInvariant(o, run);
    StepsLeftNotNegative(o, Run(o, run).value);
  }

  lemma OneMore(o: Origin, run: seq<Step>) returns (next: seq<Step>)
    requires Run(o, run).Some? && Run(o, run).value.cons.Reading?
    ensures |next| == |run| + 1 && run <= next && Run(o, next).Some? && !Run(o, next).value.cons.Left?
  {
    NeverStuck(o, run);
    next := run + [Ready(o, Run(o, run).value)];
    assert next[..|run|] == run;
  }

  /** Any run with the consumer still there goes on to one in which it has read to the close. */
  lemma RunCompletes(o: Origin, run: seq<Step>) returns (whole: seq<Step>)
    requires Run(o, run).Some? && !Run(o, run).value.cons.Left?
    ensures run <= whole && Run(o, whole).Some? && Run(o, whole).value.cons.AtClose?
    decreases 4 * |ChunksOfBody(o)| + 11 - |run|
  {
    if Run(o, run).value.cons.AtClose? {
      whole := run;
    } else {
      var next := OneMore(o, run);
      RunsAreFinite(o, next);
      whole := RunCompletes(o, next);
    }
  }

  // ---- A consumer that leaves -----------------------------------------------------------

  /** Nobody can move any more. */
  ghost predicate Halted(o: Origin, s: State) {
    forall step :: !Enabled(o, s, step)
  }

  /** With the consumer gone and nothing able to move, the forwarder has either ended, or hangs on a send
      into the full outer channel. */
  lemma HaltedWithoutConsumer(o: Origin, s: State)
    requires Holds(o, s) && s.cons.Left? && Halted(o, s)
    ensures s.fwd.Gone? || (s.fwd.Holding? && |s.outer| == 16)
  {
    var step := Ready(o, s);
    assert !Enabled(o, s, step);
    assert !Enabled(o, s, ESent) && !Enabled(o, s, FSent);
  }

  /** FetchStream sends without watching the context. When the consumer has left and nothing moves any
      more, the forwarding goroutine has ended exactly if the chunks not consumed fit the outer channel;
      otherwise it hangs on a send for ever, and neither page nor error is delivered or stored. */
  lemma LeftBehind(o: Origin, run: seq<Step>)
    requires Run(o, run).Some? && Run(o, run).value.cons.Left? && Halted(o, Run(o, run).value)
    ensures var s := Run(o, run).value;
      && (s.fwd.Gone? <==> |ChunksOfBody(o)| - |s.consumed| <= 16)
      && (!s.fwd.Gone? ==> s.fwd.Holding? && s.pages == [] && s.stored == [] && s.errors == 0)
  {
    RunKeepsInvariant(o, run);
    var s, cs := Run(o, run).value, ChunksOfBody(o);
    HaltedWithoutConsumer(o, s);
    assert |InPipe(s)| == |s.consumed| + |s.outer| + |InHand(s)| + |s.inner|;
    assert |InPipe(s)| == SentCount(o, s);
  }

  /** Without the consumer somebody else moves, and nothing more is consumed. */
  lemma OneMoveLeft(o: Origin, run: seq<Step>, step: Step) returns (next: seq<Step>)
    requires Run(o, run).Some? && Run(o, run).value.cons.Left? && Enabled(o, Run(o, run).value, step)
    ensures |next| == |run| + 1 && run <= next && Run(o, next).Some?
    ensures Run(o, next).value.cons.Left? && Run(o, next).value.consumed == Run(o, run).value.consumed
  {
    next := run + [step];
    assert next[..|run|] == run;
  }

  /** Every run whose consumer has left goes on to one in which nothing moves any more. */
  lemma LeftHalts(o: Origin, run: seq<Step>) returns (whole: seq<Step>)
    requires Run(o, run).Some? && Run(o, run).value.cons.Left?
    ensures run <= whole && Run(o, whole).Some? && Run(o, whole).value.cons.Left?
    ensures Halted(o, Run(o, whole).value) && Run(o, whole).value.consumed == Run(o, run).value.consumed
    decreases 4 * |ChunksOfBody(o)| + 11 - |run|
  {
    if step :| Enabled(o, Run(o, run).value, step) {
      var next := OneMoveLeft(o, run, step);
      RunsAreFinite(o, next);
      whole := LeftHalts(o, next);
    } else {
      whole := run;
    }
  }

  /** The consumer has left, nothing moves any more, and the forwarding goroutine has not ended. */
  ghost predicate Stranded(o: Origin, run: seq<Step>) {
    && Run(o, run).Some? && Run(o, run).value.cons.Left?
    && Halted(o, Run(o, run).value) && !Run(o, run).value.fwd.Gone?
  }

  /** A stream can strand its forwarding goroutine exactly if it has more chunks than the channel holds: then
      it does if the consumer leaves at once. */
  lemma StrandedIff(o: Origin)
    ensures (exists run: seq<Step> :: Stranded(o, run)) <==> |ChunksOfBody(o)| > 16
  {
    forall run: seq<Step> | Stranded(o, run) ensures |ChunksOfBody(o)| > 16 {
      LeftBehind(o, run);
    }
    if |ChunksOfBody(o)| > 16 {
      assert [CLeft][..0] == [];
      assert Run(o, []) == Some(START);
      var whole := LeftHalts(o, [CLeft]);
      LeftBehind(o, whole);
      assert Stranded(o, whole);
    }
  }

  // ---- With the extractor of module Streaming -------------------------------------------

  /** The whole fetch stream of a parsed document: the consumer's text, the delivered page and the page in
      the caches all hold the same characters, white space aside. */
  lemma StreamedPageAgrees(url: string, doc: Dom.Node, run: seq<Step>)
    requires var o := Body(StreamedChunks(doc), Page(url, PageText(doc)));
      Run(o, run).Some? && Run(o, run).value.cons.AtClose?
    ensures var s := Run(Body(StreamedChunks(doc), Page(url, PageText(doc))), run).value;
      && s.pages == s.stored && |s.pages| == 1 && s.pages[0].url == url
      && NonSpace(TextOf(s.consumed)) == NonSpace(s.pages[0].text)
  {
    var o := Body(StreamedChunks(doc), Page(url, PageText(doc)));
    DrainedToClose(o, run);
    StreamMatchesPage(doc);
  }
}
