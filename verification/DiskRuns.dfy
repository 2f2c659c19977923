/** fetch/diskcache.go with many processes and goroutines on one directory: each file operation of Put, Get
    and GC is a step of its own, and between two steps anybody else may act. */
module DiskRuns {
  import opened DiskCache
  import opened Options
  import opened Readability

  // ---- Steps ----------------------------------------------------------------------------

  /** A Put is Begin, Wrote, Renamed; GaveUp is a failed one. Get and the collector's treatment of one file
      are Stat, then Judge (reading the clock), then Remove if the file has expired; Get goes on with Open if it
      has not, and with Remove if the file read is torn. Crash loses every process but no file. */
  datatype Op =
    | Begin(url: string, page: Page)
    | Wrote(url: string)
    | Renamed(url: string)
    | GaveUp(url: string)
    | Stat(id: nat, url: string, reading: bool)
    | Judge(id: nat)
    | Open(id: nat, works: bool)
    | Remove(id: nat, works: bool)
    | Crash

  datatype Timed = Timed(at: real, op: Op)

  datatype Writer = Writer(page: Page, written: bool)

  /** A Get (reading) or a collector between two steps on a file. */
  datatype Visitor =
    | Judging(url: string, reading: bool, mtime: real)
    | Opening(url: string, clock: real)
    | Dropping(url: string, reading: bool)

  datatype State = State(files: Files, writers: map<string, Writer>, visitors: map<nat, Visitor>)

  const EMPTY: State := State(map[], map[], map[])

  /** A second Put for a URL waits for the first one to be over: one writer per URL. */
  predicate Starts(s: State, op: Op) {
    op.Begin? && op.url !in s.writers
  }

  predicate Finishes(s: State, op: Op) {
    op.Renamed? && op.url in s.writers && s.writers[op.url].written && Tmp(op.url) in s.files
  }

  /** A visit begins: the visitor is new and finds a file. */
  predicate Stats(s: State, op: Op) {
    op.Stat? && op.id !in s.visitors && Final(op.url) in s.files
  }

  predicate Judges(s: State, op: Op) {
    op.Judge? && op.id in s.visitors && s.visitors[op.id].Judging?
  }

  predicate Opens(s: State, op: Op) {
    op.Open? && op.id in s.visitors && s.visitors[op.id].Opening?
  }

  predicate Removes(s: State, op: Op) {
    op.Remove? && op.id in s.visitors && s.visitors[op.id].Dropping?
  }

  function Put(s: State, t: Timed): State {
    match t.op
    case Begin(u, page) =>
      if Starts(s, t.op) then
        s.(files := s.files[Tmp(u) := Torn(t.at)], writers := s.writers[u := Writer(page, false)])
      else s
    case Wrote(u) =>
      if u in s.writers then
        s.(files := s.files[Tmp(u) := Full(s.writers[u].page, t.at)],
           writers := s.writers[u := s.writers[u].(written := true)])
      else s
    case Renamed(u) =>
      if Finishes(s, t.op) then
        s.(files := s.files[Final(u) := s.files[Tmp(u)]] - {Tmp(u)}, writers := s.writers - {u})
      else s
    case GaveUp(u) => s.(writers := s.writers - {u})
    case _ => s
  }

  function Visit(ttl: real, s: State, t: Timed): State {
    match t.op
    case Stat(id, u, reading) =>
      if Stats(s, t.op) then s.(visitors := s.visitors[id := Judging(u, reading, s.files[Final(u)].mtime)]) else s
    case Judge(id) =>
      if Judges(s, t.op) then
        var v := s.visitors[id];
        if t.at - v.mtime > ttl then s.(visitors := s.visitors[id := Dropping(v.url, v.reading)])
        else if v.reading then s.(visitors := s.visitors[id := Opening(v.url, t.at)])
        else s.(visitors := s.visitors - {id})
      else s
    case Open(id, works) =>
      if Opens(s, t.op) then
        var u := s.visitors[id].url;
        if works && Final(u) in s.files && s.files[Final(u)].Torn? then
          s.(visitors := s.visitors[id := Dropping(u, true)])
        else s.(visitors := s.visitors - {id})
      else s
    case Remove(id, works) =>
      if Removes(s, t.op) then
        s.(files := if works then s.files - {Final(s.visitors[id].url)} else s.files, visitors := s.visitors - {id})
      else s
    case _ => s
  }

  function Do(ttl: real, s: State, t: Timed): State {
    match t.op
    case Crash => s.(writers := map[], visitors := map[])
    case Begin(_, _) => Put(s, t)
    case Wrote(_) => Put(s, t)
    case Renamed(_) => Put(s, t)
    case GaveUp(_) => Put(s, t)
    case _ => Visit(ttl, s, t)
  }

  function After(ttl: real, run: seq<Timed>): State {
    if run == [] then EMPTY else Do(ttl, After(ttl, run[..|run| - 1]), run[|run| - 1])
  }

  /** What a Get of url answers. */
  datatype Answer = Answer(url: string, page: Option<Page>)

  /** The answer, if any, that a step gives. */
  function AnswerOf(s: State, op: Op): Option<Answer> {
    match op
    case Stat(id, u, reading) =>
      if reading && id !in s.visitors && Final(u) !in s.files then Some(Answer(u, None)) else None
    case Open(id, works) =>
      if !Opens(s, op) then None
      else
        var u := s.visitors[id].url;
        if !works || Final(u) !in s.files then Some(Answer(u, None))
        else if s.files[Final(u)].Full? then Some(Answer(u, Some(s.files[Final(u)].page)))
        else None
    case Remove(id, _) =>
      if Removes(s, op) && s.visitors[id].reading then Some(Answer(s.visitors[id].url, None)) else None
    case _ => None
  }

  function AnswerAt(ttl: real, run: seq<Timed>, k: nat): Option<Answer>
    requires k < |run|
  {
    AnswerOf(After(ttl, run[..k]), run[k].op)
  }

  /** A lone visitor's steps, with nobody else acting, do what Get does. */
  lemma LoneVisitIsGet(ttl: real, s: State, id: nat, u: string, now: real, io: Io)
    requires id !in s.visitors
    ensures var s1 := Do(ttl, s, Timed(now, Stat(id, u, true)));
      var s2 := Do(ttl, s1, Timed(now, Judge(id)));
      var s3 := Do(ttl, s2, Timed(now, Open(id, io.readable)));
      var s4 := Do(ttl, s3, Timed(now, Remove(id, io.removable)));
      var got := Get(s.files, ttl, u, now, io);
      && s4 == s.(files := got.files)
      && (got.page.Some? ==> AnswerOf(s2, Open(id, io.readable)) == Some(Answer(u, got.page)))
      && (got.page.None? ==>
           || AnswerOf(s, Stat(id, u, true)) == Some(Answer(u, None))
           || AnswerOf(s2, Open(id, io.readable)) == Some(Answer(u, None))
           || AnswerOf(s3, Remove(id, io.removable)) == Some(Answer(u, None)))
  {
    var s1 := Do(ttl, s, Timed(now, Stat(id, u, true)));
    var s2 := Do(ttl, s1, Timed(now, Judge(id)));
    if Final(u) in s.files {
      assert s1.visitors - {id} == s.visitors && s2.visitors - {id} == s.visitors;
    }
  }

  /** So do the steps of a lone collector on one file, and those of a lone Put, however far it gets. */
  lemma LoneCollectorDrops(ttl: real, s: State, id: nat, u: string, now: real, works: bool)
    requires id !in s.visitors
    ensures var s1 := Do(ttl, s, Timed(now, Stat(id, u, false)));
      var s2 := Do(ttl, s1, Timed(now, Judge(id)));
      var expired := Final(u) in s.files && now - s.files[Final(u)].mtime > ttl;
      Do(ttl, s2, Timed(now, Remove(id, works)))
      == s.(files := if expired && works then s.files - {Final(u)} else s.files)
  {
    var s1 := Do(ttl, s, Timed(now, Stat(id, u, false)));
    if Final(u) in s.files {
      assert s1.visitors - {id} == s.visitors;
    }
  }

  lemma LonePutIsPut(ttl: real, s: State, u: string, page: Page, now: real, fate: PutFate)
    requires u !in s.writers
    ensures var s1 := Do(ttl, s, Timed(now, Begin(u, page)));
      var s2 := Do(ttl, s1, Timed(now, Wrote(u)));
      var end := match fate
        case NotStarted => s
        case WriteFailed => Do(ttl, s1, Timed(now, GaveUp(u)))
        case RenameFailed => Do(ttl, s2, Timed(now, GaveUp(u)))
        case Written => Do(ttl, s2, Timed(now, Renamed(u)));
      end == s.(files := DiskCache.Put(s.files, u, page, now, fate))
  {
    var s1 := Do(ttl, s, Timed(now, Begin(u, page)));
    var s2 := Do(ttl, s1, Timed(now, Wrote(u)));
    assert s1.writers - {u} == s.writers && s2.writers - {u} == s.writers;
    assert s2.files == s.files[Tmp(u) := Full(page, now)];
    assert s2.files[Final(u) := Full(page, now)] - {Tmp(u)} == s.files[Final(u) := Full(page, now)] - {Tmp(u)};
  }

  // ---- The reference: a map from URLs to the page renamed last and when it was written --

  datatype Entry = Entry(page: Page, at: real)

  datatype Pending = Pending(page: Page, at: Option<real>)

  /** A timestamped map that nothing is ever removed from, with the puts under way. */
  datatype Reference = Reference(latest: map<string, Entry>, pending: map<string, Pending>)

  const BLANK: Reference := Reference(map[], map[])

  function RefDo(r: Reference, t: Timed): Reference {
    match t.op
    case Begin(u, page) => if u in r.pending then r else r.(pending := r.pending[u := Pending(page, None)])
    case Wrote(u) => if u in r.pending then r.(pending := r.pending[u := r.pending[u].(at := Some(t.at))]) else r
    case Renamed(u) =>
      if u in r.pending && r.pending[u].at.Some? then
        Reference(r.latest[u := Entry(r.pending[u].page, r.pending[u].at.value)], r.pending - {u})
      else r
    case GaveUp(u) => r.(pending := r.pending - {u})
    case Crash => r.(pending := map[])
    case _ => r
  }

  function RefAfter(run: seq<Timed>): Reference {
    if run == [] then BLANK else RefDo(RefAfter(run[..|run| - 1]), run[|run| - 1])
  }

  function RefGet(r: Reference, ttl: real, url: string, now: real): Option<Page> {
    if url in r.latest && now - r.latest[url].at <= ttl then Some(r.latest[url].page) else None
  }

  predicate ClockOrdered(run: seq<Timed>) {
    forall i, j :: 0 <= i <= j < |run| ==> run[i].at <= run[j].at
  }

  /** The time of the last step is not after now. */
  predicate UpTo(run: seq<Timed>, now: real) {
    run != [] ==> run[|run| - 1].at <= now
  }

  // ---- What holds whatever happens ------------------------------------------------------

  /** A file that is there holds the page renamed last, and is never torn. */
  predicate FileHolds(s: State, r: Reference, u: string) {
    Final(u) in s.files ==> u in r.latest && s.files[Final(u)] == Full(r.latest[u].page, r.latest[u].at)
  }

  predicate WriterHolds(s: State, r: Reference, u: string) {
    && (u in s.writers <==> u in r.pending)
    && (u in s.writers ==>
         && s.writers[u].page == r.pending[u].page && s.writers[u].written == r.pending[u].at.Some?
         && (s.writers[u].written ==>
               Tmp(u) in s.files && s.files[Tmp(u)] == Full(r.pending[u].page, r.pending[u].at.value)))
  }

  /** Pages are renamed in the order they were written. */
  predicate TimesHold(r: Reference, now: real, u: string) {
    && (u in r.latest ==> r.latest[u].at <= now)
    && (u in r.pending && r.pending[u].at.Some? ==>
         r.pending[u].at.value <= now && (u in r.latest ==> r.latest[u].at <= r.pending[u].at.value))
  }

  /** A visitor has seen a page no newer than the latest; one about to read found it fresh by its clock. */
  predicate VisitorHolds(ttl: real, r: Reference, now: real, v: Visitor) {
    match v
    case Judging(u, _, mtime) => u in r.latest && mtime <= r.latest[u].at && mtime <= now
    case Opening(u, clock) => u in r.latest && clock - r.latest[u].at <= ttl && clock <= now && ttl >= 0.0
    case Dropping(_, _) => true
  }

  ghost predicate VisitorsHold(ttl: real, s: State, r: Reference, now: real, u: string) {
    forall id :: id in s.visitors && s.visitors[id].url == u ==> VisitorHolds(ttl, r, now, s.visitors[id])
  }

  ghost predicate Holds(ttl: real, s: State, r: Reference, now: real, u: string) {
    FileHolds(s, r, u) && WriterHolds(s, r, u) && TimesHold(r, now, u) && VisitorsHold(ttl, s, r, now, u)
  }

  lemma PutHolds(ttl: real, s: State, r: Reference, before: real, t: Timed, u: string)
    requires t.op.Begin? || t.op.Wrote? || t.op.Renamed? || t.op.GaveUp?
    requires before <= t.at && Holds(ttl, s, r, before, u) && WriterHolds(s, r, t.op.url)
    ensures Holds(ttl, Do(ttl, s, t), RefDo(r, t), t.at, u)
  {
  }

  lemma VisitHolds(ttl: real, s: State, r: Reference, before: real, t: Timed, u: string)
    requires t.op.Stat? || t.op.Judge? || t.op.Open? || t.op.Remove?
    requires before <= t.at && Holds(ttl, s, r, before, u)
    ensures Holds(ttl, Do(ttl, s, t), r, t.at, u)
  {
  }

  lemma {:induction false} RunHolds(ttl: real, run: seq<Timed>, now: real, u: string)
    requires ClockOrdered(run) && UpTo(run, now)
    ensures Holds(ttl, After(ttl, run), RefAfter(run), now, u)
  {
    if run != [] {
      var k := |run| - 1;
      var s, r, t := After(ttl, run[..k]), RefAfter(run[..k]), run[k];
      RunHolds(ttl, run[..k], t.at, u);
      match t.op {
        case Crash =>
        case Begin(_, _) => RunHolds(ttl, run[..k], t.at, t.op.url); PutHolds(ttl, s, r, t.at, t, u);
        case Wrote(_) => RunHolds(ttl, run[..k], t.at, t.op.url); PutHolds(ttl, s, r, t.at, t, u);
        case Renamed(_) => RunHolds(ttl, run[..k], t.at, t.op.url); PutHolds(ttl, s, r, t.at, t, u);
        case GaveUp(_) => RunHolds(ttl, run[..k], t.at, t.op.url); PutHolds(ttl, s, r, t.at, t, u);
        case _ => VisitHolds(ttl, s, r, t.at, t, u);
      }
      LaterHolds(ttl, After(ttl, run), RefAfter(run), t.at, now, u);
    }
  }

  lemma LaterHolds(ttl: real, s: State, r: Reference, before: real, now: real, u: string)
    requires before <= now && Holds(ttl, s, r, before, u)
    ensures Holds(ttl, s, r, now, u)
  {
  }

  // ---- The race -------------------------------------------------------------------------

  /** Has a page been renamed into place since visitor id looked at the file? */
  function Overtaken(ttl: real, run: seq<Timed>, id: nat): bool {
    if run == [] then false
    else
      var s, op := After(ttl, run[..|run| - 1]), run[|run| - 1].op;
      if Stats(s, op) && op.id == id then false
      else
        || (Finishes(s, op) && id in s.visitors && s.visitors[id].url == op.url)
        || Overtaken(ttl, run[..|run| - 1], id)
  }

  /** Step k removes the file of u after another page was renamed into its place, one still fresh by then. */
  predicate RaceAt(ttl: real, run: seq<Timed>, k: nat, u: string)
    requires k < |run|
  {
    var s, op, r := After(ttl, run[..k]), run[k].op, RefAfter(run[..k]);
    && Removes(s, op) && op.works && s.visitors[op.id].url == u && Overtaken(ttl, run[..k], op.id)
    && u in r.latest && run[k].at - r.latest[u].at <= ttl
  }

  predicate NoRace(ttl: real, run: seq<Timed>, u: string) {
    forall k :: 0 <= k < |run| ==> !RaceAt(ttl, run, k, u)
  }

  /** What a visitor that was not overtaken knows. */
  predicate UpToDate(ttl: real, r: Reference, now: real, v: Visitor) {
    match v
    case Judging(u, _, mtime) => u in r.latest && mtime == r.latest[u].at
    case Opening(_, _) => true
    case Dropping(u, _) => u in r.latest ==> now - r.latest[u].at > ttl
  }

  /** A page is missing only if it has expired, and so has what a visitor that was not overtaken removes. */
  ghost predicate Safe(ttl: real, run: seq<Timed>, now: real, u: string) {
    var s, r := After(ttl, run), RefAfter(run);
    && (u in r.latest && Final(u) !in s.files ==> now - r.latest[u].at > ttl)
    && (forall id :: id in s.visitors && s.visitors[id].url == u && !Overtaken(ttl, run, id) ==>
          UpToDate(ttl, r, now, s.visitors[id]))
  }

  lemma NoRacePrefix(ttl: real, run: seq<Timed>, k: nat, u: string)
    requires k <= |run| && NoRace(ttl, run, u)
    ensures NoRace(ttl, run[..k], u)
  {
    forall j | 0 <= j < k ensures !RaceAt(ttl, run[..k], j, u) {
      assert run[..k][..j] == run[..j] && !RaceAt(ttl, run, j, u);
    }
  }

  lemma LaterSafe(ttl: real, run: seq<Timed>, before: real, now: real, u: string)
    requires before <= now && Safe(ttl, run, before, u)
    ensures Safe(ttl, run, now, u)
  {
  }

  lemma PutSafe(ttl: real, run: seq<Timed>, t: Timed, u: string)
    requires t.op.Begin? || t.op.Wrote? || t.op.Renamed? || t.op.GaveUp?
    requires Safe(ttl, run, t.at, u) && WriterHolds(After(ttl, run), RefAfter(run), t.op.url)
    ensures Safe(ttl, run + [t], t.at, u)
  {
    assert (run + [t])[..|run|] == run;
  }

  /** Looking at a file, judging and reading it. */
  lemma LookSafe(ttl: real, run: seq<Timed>, t: Timed, u: string)
    requires t.op.Stat? || t.op.Judge? || t.op.Open?
    requires Safe(ttl, run, t.at, u) && FileHolds(After(ttl, run), RefAfter(run), u)
    ensures Safe(ttl, run + [t], t.at, u)
  {
    assert (run + [t])[..|run|] == run;
  }

  lemma RemoveSafe(ttl: real, run: seq<Timed>, t: Timed, u: string)
    requires t.op.Remove? && Safe(ttl, run, t.at, u)
    requires !RaceAt(ttl, run + [t], |run|, u)
    ensures Safe(ttl, run + [t], t.at, u)
  {
    assert (run + [t])[..|run|] == run && (run + [t])[|run|] == t;
  }

  lemma {:induction false} RunSafe(ttl: real, run: seq<Timed>, now: real, u: string)
    requires ClockOrdered(run) && UpTo(run, now) && NoRace(ttl, run, u)
    ensures Safe(ttl, run, now, u)
  {
    if run != [] {
      var k := |run| - 1;
      var t := run[k];
      NoRacePrefix(ttl, run, k, u);
      RunSafe(ttl, run[..k], t.at, u);
      RunHolds(ttl, run[..k], t.at, u);
      assert run[..k] + [t] == run;
      match t.op {
        case Crash =>
        case Begin(_, _) => RunHolds(ttl, run[..k], t.at, t.op.url); PutSafe(ttl, run[..k], t, u);
        case Wrote(_) => RunHolds(ttl, run[..k], t.at, t.op.url); PutSafe(ttl, run[..k], t, u);
        case Renamed(_) => RunHolds(ttl, run[..k], t.at, t.op.url); PutSafe(ttl, run[..k], t, u);
        case GaveUp(_) => RunHolds(ttl, run[..k], t.at, t.op.url); PutSafe(ttl, run[..k], t, u);
        case Remove(_, _) => RemoveSafe(ttl, run[..k], t, u);
        case _ => LookSafe(ttl, run[..k], t, u);
      }
      LaterSafe(ttl, run, t.at, now, u);
    }
  }

  // ---- Refinement, exactly without races ------------------------------------------------

  /** What an undisturbed Get gives after a run. */
  function Probe(ttl: real, run: seq<Timed>, u: string, now: real): Option<Page> {
    Get(After(ttl, run).files, ttl, u, now, WORKING).page
  }

  /** At any moment of the run an undisturbed Get gives what the map would. */
  ghost predicate Lossless(ttl: real, run: seq<Timed>, u: string) {
    forall n: nat, now: real :: n <= |run| && UpTo(run[..n], now) ==>
      Probe(ttl, run[..n], u, now) == RefGet(RefAfter(run[..n]), ttl, u, now)
  }

  lemma ProbeWithoutRace(ttl: real, run: seq<Timed>, u: string, now: real)
    requires ClockOrdered(run) && UpTo(run, now) && NoRace(ttl, run, u)
    ensures Probe(ttl, run, u, now) == RefGet(RefAfter(run), ttl, u, now)
  {
    RunHolds(ttl, run, now, u);
    RunSafe(ttl, run, now, u);
  }

  /** Right after a race the page that was renamed last is gone, although it is fresh. */
  lemma RaceLoses(ttl: real, run: seq<Timed>, k: nat, u: string)
    requires ClockOrdered(run) && k < |run| && RaceAt(ttl, run, k, u)
    ensures Probe(ttl, run[..k + 1], u, run[k].at) == None
    ensures RefGet(RefAfter(run[..k + 1]), ttl, u, run[k].at).Some?
  {
    assert run[..k + 1][..k] == run[..k];
  }

  /** The disk cache refines the timestamped map for u exactly if no removal of u's file races with a rename. */
  lemma DiskRefinesMap(ttl: real, run: seq<Timed>, u: string)
    requires ClockOrdered(run)
    ensures Lossless(ttl, run, u) <==> NoRace(ttl, run, u)
  {
    if NoRace(ttl, run, u) {
      forall n: nat, now: real | n <= |run| && UpTo(run[..n], now)
        ensures Probe(ttl, run[..n], u, now) == RefGet(RefAfter(run[..n]), ttl, u, now)
      {
        NoRacePrefix(ttl, run, n, u);
        ProbeWithoutRace(ttl, run[..n], u, now);
      }
    } else {
      var k: nat :| k < |run| && RaceAt(ttl, run, k, u);
      RaceLoses(ttl, run, k, u);
      assert run[..k + 1][|run[..k + 1]| - 1] == run[k];
    }
  }

  // ---- What a read returns --------------------------------------------------------------

  /** Where in the run visitor id looked at the file last. */
  function Since(ttl: real, run: seq<Timed>, id: nat): (i: nat)
    ensures i <= |run|
  {
    if run == [] then 0
    else
      var k := |run| - 1;
      if Stats(After(ttl, run[..k]), run[k].op) && run[k].op.id == id then k else Since(ttl, run[..k], id)
  }

  /** The map of some moment n between steps i and k, asked with a clock reading from between them, gives the
      page. */
  predicate Asked(ttl: real, run: seq<Timed>, i: nat, k: nat, u: string, page: Option<Page>, n: nat, clock: real)
    requires k < |run|
  {
    && i <= n <= k && run[i].at <= clock <= run[k].at
    && RefGet(RefAfter(run[..n]), ttl, u, clock) == page
  }

  /** What a visitor remembers of the map r at the time it looked at the file. */
  predicate Recalls(ttl: real, r: Reference, since: real, now: real, v: Visitor) {
    && since <= now
    && match v
       case Judging(u, _, mtime) => u in r.latest && mtime == r.latest[u].at
       case Opening(_, clock) => since <= clock
       case Dropping(u, _) => u in r.latest && now - r.latest[u].at > ttl
  }

  predicate Remembers(ttl: real, run: seq<Timed>, now: real, i: nat, v: Visitor) {
    i < |run| && Recalls(ttl, RefAfter(run[..i]), run[i].at, now, v)
  }

  /** A visitor after somebody's step. */
  lemma StillRecalls(ttl: real, s: State, t: Timed, r: Reference, since: real, id: nat)
    requires id in s.visitors && id in Do(ttl, s, t).visitors && Recalls(ttl, r, since, t.at, s.visitors[id])
    requires Final(s.visitors[id].url) in s.files ==> s.files[Final(s.visitors[id].url)].Full?
    ensures Recalls(ttl, r, since, t.at, Do(ttl, s, t).visitors[id])
    ensures !(Stats(s, t.op) && t.op.id == id)
  {
  }

  lemma AfterSnoc(ttl: real, run: seq<Timed>, t: Timed)
    ensures After(ttl, run + [t]) == Do(ttl, After(ttl, run), t)
    ensures RefAfter(run + [t]) == RefDo(RefAfter(run), t)
  {
    assert (run + [t])[..|run|] == run;
  }

  lemma SinceSnoc(ttl: real, run: seq<Timed>, t: Timed, id: nat)
    ensures Since(ttl, run + [t], id)
         == if Stats(After(ttl, run), t.op) && t.op.id == id then |run| else Since(ttl, run, id)
  {
    assert (run + [t])[..|run|] == run;
  }

  /** A visitor that has just looked. */
  lemma NewRemembers(ttl: real, run: seq<Timed>, t: Timed, id: nat)
    requires id !in After(ttl, run).visitors && id in After(ttl, run + [t]).visitors
    requires t.op.Stat? ==> FileHolds(After(ttl, run), RefAfter(run), t.op.url)
    ensures Since(ttl, run + [t], id) == |run|
    ensures Remembers(ttl, run + [t], t.at, |run|, After(ttl, run + [t]).visitors[id])
  {
    AfterSnoc(ttl, run, t);
    SinceSnoc(ttl, run, t, id);
    assert (run + [t])[..|run|] == run;
  }

  lemma StillRemembers(ttl: real, run: seq<Timed>, t: Timed, i: nat, id: nat)
    requires id in After(ttl, run).visitors && id in After(ttl, run + [t]).visitors
    requires Remembers(ttl, run, t.at, i, After(ttl, run).visitors[id])
    requires FileHolds(After(ttl, run), RefAfter(run), After(ttl, run).visitors[id].url)
    ensures Since(ttl, run + [t], id) == Since(ttl, run, id)
    ensures Remembers(ttl, run + [t], t.at, i, After(ttl, run + [t]).visitors[id])
  {
    AfterSnoc(ttl, run, t);
    SinceSnoc(ttl, run, t, id);
    StillRecalls(ttl, After(ttl, run), t, RefAfter(run[..i]), run[i].at, id);
    assert (run + [t])[..i] == run[..i] && (run + [t])[i] == run[i];
  }

  lemma RemembersLater(ttl: real, run: seq<Timed>, before: real, now: real, i: nat, v: Visitor)
    requires Remembers(ttl, run, before, i, v) && before <= now
    ensures Remembers(ttl, run, now, i, v)
  {
  }

  lemma {:induction false} VisitorRemembers(ttl: real, run: seq<Timed>, now: real, id: nat)
    requires ClockOrdered(run) && UpTo(run, now) && id in After(ttl, run).visitors
    ensures Remembers(ttl, run, now, Since(ttl, run, id), After(ttl, run).visitors[id])
  {
    var before, t := run[..|run| - 1], run[|run| - 1];
    assert before + [t] == run;
    if id in After(ttl, before).visitors {
      VisitorRemembers(ttl, before, t.at, id);
      RunHolds(ttl, before, t.at, After(ttl, before).visitors[id].url);
      StillRemembers(ttl, before, t, Since(ttl, before, id), id);
    } else {
      if t.op.Stat? {
        RunHolds(ttl, before, t.at, t.op.url);
      }
      NewRemembers(ttl, before, t, id);
    }
    RemembersLater(ttl, run, t.at, now, Since(ttl, run, id), After(ttl, run).visitors[id]);
  }

  /** The step where the read that step k answers looked at the file: k itself if there was none. */
  function AskedFrom(ttl: real, run: seq<Timed>, k: nat): (i: nat)
    requires k < |run| && AnswerAt(ttl, run, k).Some?
    ensures i <= k
  {
    if run[k].op.Stat? then k else Since(ttl, run[..k], run[k].op.id)
  }

  /** A page that is returned is the one renamed last, and was fresh by a clock reading taken since the read
      looked at the file, whatever races there were. */
  lemma ReadReturnsLatest(ttl: real, run: seq<Timed>, k: nat)
    requires ClockOrdered(run) && k < |run| && AnswerAt(ttl, run, k).Some? && AnswerAt(ttl, run, k).value.page.Some?
    ensures AskedFrom(ttl, run, k) <= k && ttl >= 0.0
    ensures var a := AnswerAt(ttl, run, k).value;
      exists clock :: Asked(ttl, run, AskedFrom(ttl, run, k), k, a.url, a.page, k, clock)
  {
    var s, id := After(ttl, run[..k]), run[k].op.id;
    var v := s.visitors[id];
    VisitorRemembers(ttl, run[..k], run[k].at, id);
    RunHolds(ttl, run[..k], run[k].at, v.url);
    assert VisitorHolds(ttl, RefAfter(run[..k]), run[k].at, v);
    assert run[..k][Since(ttl, run[..k], id)] == run[Since(ttl, run[..k], id)];
    assert Asked(ttl, run, AskedFrom(ttl, run, k), k, v.url, AnswerAt(ttl, run, k).value.page, k, v.clock);
  }

  /** Every read that the file system does not fail returns what the map gives at some moment of the read: a
      page always does, and nothing does if no removal has raced with a rename so far. */
  lemma ReadsLinearize(ttl: real, run: seq<Timed>, k: nat)
    requires ClockOrdered(run) && k < |run| && AnswerAt(ttl, run, k).Some?
    requires run[k].op.Open? ==> run[k].op.works
    requires NoRace(ttl, run[..k], AnswerAt(ttl, run, k).value.url)
    ensures AskedFrom(ttl, run, k) <= k
    ensures var a := AnswerAt(ttl, run, k).value;
      exists n: nat, clock: real :: Asked(ttl, run, AskedFrom(ttl, run, k), k, a.url, a.page, n, clock)
  {
    var a, now := AnswerAt(ttl, run, k).value, run[k].at;
    if a.page.Some? {
      ReadReturnsLatest(ttl, run, k);
      var clock :| Asked(ttl, run, AskedFrom(ttl, run, k), k, a.url, a.page, k, clock);
    } else {
      if !run[k].op.Stat? {
        VisitorRemembers(ttl, run[..k], now, run[k].op.id);
      }
      var i := AskedFrom(ttl, run, k);
      if run[k].op.Remove? {
        assert run[..k][..i] == run[..i];
        assert Asked(ttl, run, i, k, a.url, None, i, now);
      } else {
        RunSafe(ttl, run[..k], now, a.url);
        assert Asked(ttl, run, i, k, a.url, None, k, now);
      }
    }
  }

  // ---- A race ---------------------------------------------------------------------------

  /** One Put of p; when that has expired, a Get and a second Put: the rename comes between the Get's look at
      the file and its removal. */
  function RaceRun(ttl: real, u: string, p: Page, q: Page): (run: seq<Timed>)
    ensures |run| == 9
  {
    var late := ttl + 1.0;
    [Timed(0.0, Begin(u, p)), Timed(0.0, Wrote(u)), Timed(0.0, Renamed(u)),
     Timed(late, Stat(1, u, true)), Timed(late, Judge(1)),
     Timed(late, Begin(u, q)), Timed(late, Wrote(u)), Timed(late, Renamed(u)), Timed(late, Remove(1, true))]
  }

  lemma Grown(ttl: real, run: seq<Timed>, n: nat)
    requires n < |run|
    ensures After(ttl, run[..n + 1]) == Do(ttl, After(ttl, run[..n]), run[n])
    ensures RefAfter(run[..n + 1]) == RefDo(RefAfter(run[..n]), run[n])
  {
    assert run[..n + 1][..n] == run[..n];
  }

  /** A Put with nobody in between. */
  lemma LonePut(ttl: real, s: State, r: Reference, u: string, page: Page, at: real)
    requires u !in s.writers && u !in r.pending
    ensures var begin, wrote, renamed := Timed(at, Begin(u, page)), Timed(at, Wrote(u)), Timed(at, Renamed(u));
      && Finishes(Do(ttl, Do(ttl, s, begin), wrote), Renamed(u))
      && Do(ttl, Do(ttl, Do(ttl, s, begin), wrote), renamed)
         == s.(files := s.files[Final(u) := Full(page, at)] - {Tmp(u)})
      && RefDo(RefDo(RefDo(r, begin), wrote), renamed) == r.(latest := r.latest[u := Entry(page, at)])
  {
    var s2 := Do(ttl, Do(ttl, s, Timed(at, Begin(u, page))), Timed(at, Wrote(u)));
    assert s2.writers - {u} == s.writers;
    assert s2.files[Final(u) := Full(page, at)] - {Tmp(u)} == s.files[Final(u) := Full(page, at)] - {Tmp(u)};
    var r2 := RefDo(RefDo(r, Timed(at, Begin(u, page))), Timed(at, Wrote(u)));
    assert r2.pending - {u} == r.pending;
  }

  /** Steps n, n + 1 and n + 2 of the run are such a Put. */
  predicate PutAt(run: seq<Timed>, n: nat, u: string, page: Page, at: real) {
    && n + 3 <= |run| && run[n] == Timed(at, Begin(u, page)) && run[n + 1] == Timed(at, Wrote(u))
    && run[n + 2] == Timed(at, Renamed(u))
  }

  lemma PutGrown(ttl: real, run: seq<Timed>, n: nat, u: string, page: Page, at: real)
    requires PutAt(run, n, u, page, at)
    requires u !in After(ttl, run[..n]).writers && u !in RefAfter(run[..n]).pending
    ensures var s, r := After(ttl, run[..n]), RefAfter(run[..n]);
      && After(ttl, run[..n + 3]) == s.(files := s.files[Final(u) := Full(page, at)] - {Tmp(u)})
      && RefAfter(run[..n + 3]) == r.(latest := r.latest[u := Entry(page, at)])
    ensures Finishes(After(ttl, run[..n + 2]), Renamed(u))
    ensures After(ttl, run[..n + 2]).visitors == After(ttl, run[..n]).visitors
  {
    Grown(ttl, run, n);
    Grown(ttl, run, n + 1);
    Grown(ttl, run, n + 2);
    LonePut(ttl, After(ttl, run[..n]), RefAfter(run[..n]), u, page, at);
  }

  /** It overtakes whoever has looked at the file before. */
  lemma PutOvertakes(ttl: real, run: seq<Timed>, n: nat, u: string, page: Page, at: real, id: nat)
    requires PutAt(run, n, u, page, at)
    requires u !in After(ttl, run[..n]).writers && u !in RefAfter(run[..n]).pending
    requires id in After(ttl, run[..n]).visitors && After(ttl, run[..n]).visitors[id].url == u
    ensures Overtaken(ttl, run[..n + 3], id)
  {
    PutGrown(ttl, run, n, u, page, at);
    assert run[..n + 3][..n + 2] == run[..n + 2] && run[..n + 3][n + 2] == run[n + 2];
  }

  lemma FirstPut(ttl: real, u: string, p: Page, q: Page)
    ensures var run := RaceRun(ttl, u, p, q);
      && After(ttl, run[..3]) == State(map[Final(u) := Full(p, 0.0)], map[], map[])
      && RefAfter(run[..3]) == Reference(map[u := Entry(p, 0.0)], map[])
  {
    var run := RaceRun(ttl, u, p, q);
    assert After(ttl, run[..0]) == EMPTY && RefAfter(run[..0]) == BLANK;
    PutGrown(ttl, run, 0, u, p, 0.0);
  }

  lemma ThenTheGet(ttl: real, u: string, p: Page, q: Page)
    ensures var run := RaceRun(ttl, u, p, q);
      && After(ttl, run[..5]) == State(map[Final(u) := Full(p, 0.0)], map[], map[1 := Dropping(u, true)])
      && RefAfter(run[..5]) == Reference(map[u := Entry(p, 0.0)], map[])
  {
    var run := RaceRun(ttl, u, p, q);
    FirstPut(ttl, u, p, q);
    Grown(ttl, run, 3);
    Grown(ttl, run, 4);
  }

  lemma ThenTheSecondPut(ttl: real, u: string, p: Page, q: Page)
    ensures var run, late := RaceRun(ttl, u, p, q), ttl + 1.0;
      && After(ttl, run[..8]) == State(map[Final(u) := Full(q, late)], map[], map[1 := Dropping(u, true)])
      && RefAfter(run[..8]) == Reference(map[u := Entry(q, late)], map[])
      && Overtaken(ttl, run[..8], 1)
  {
    var run := RaceRun(ttl, u, p, q);
    ThenTheGet(ttl, u, p, q);
    PutGrown(ttl, run, 5, u, q, ttl + 1.0);
    PutOvertakes(ttl, run, 5, u, q, ttl + 1.0, 1);
  }

  /** The race does happen: with one writer and a clock that does not run backwards, the removal of an expired
      page can delete the fresh one just renamed into its place. */
  lemma RaceLosesPage(ttl: real, u: string, p: Page, q: Page)
    requires ttl >= 0.0
    ensures var run, late := RaceRun(ttl, u, p, q), ttl + 1.0;
      && ClockOrdered(run) && RaceAt(ttl, run, 8, u)
      && Probe(ttl, run, u, late) == None && RefGet(RefAfter(run), ttl, u, late) == Some(q)
  {
    var run := RaceRun(ttl, u, p, q);
    ThenTheSecondPut(ttl, u, p, q);
    Grown(ttl, run, 8);
    assert run[..9] == run;
  }

  // ---- Collection -----------------------------------------------------------------------

  predicate IsVisit(op: Op) {
    op.Stat? || op.Judge? || op.Open? || op.Remove?
  }

  /** The run without its readers and collectors. */
  function Unvisited(run: seq<Timed>): seq<Timed> {
    if run == [] then []
    else
      var t := run[|run| - 1];
      Unvisited(run[..|run| - 1]) + if IsVisit(t.op) then [] else [t]
  }

  predicate AllUpTo(run: seq<Timed>, now: real) {
    forall i :: 0 <= i < |run| ==> run[i].at <= now
  }

  lemma OrderedSnoc(run: seq<Timed>, t: Timed)
    requires ClockOrdered(run) && AllUpTo(run, t.at)
    ensures ClockOrdered(run + [t]) && AllUpTo(run + [t], t.at)
  {
  }

  lemma {:induction false} UnvisitedOrdered(run: seq<Timed>, now: real)
    requires ClockOrdered(run) && UpTo(run, now)
    ensures ClockOrdered(Unvisited(run)) && AllUpTo(Unvisited(run), now)
  {
    if run != [] {
      var before, t := run[..|run| - 1], run[|run| - 1];
      UnvisitedOrdered(before, t.at);
      if !IsVisit(t.op) {
        OrderedSnoc(Unvisited(before), t);
      }
    }
  }

  predicate VisitFree(run: seq<Timed>) {
    forall i :: 0 <= i < |run| ==> !IsVisit(run[i].op)
  }

  lemma {:induction false} UnvisitedIsVisitFree(run: seq<Timed>)
    ensures VisitFree(Unvisited(run))
  {
    if run != [] {
      UnvisitedIsVisitFree(run[..|run| - 1]);
    }
  }

  lemma RefSnoc(run: seq<Timed>, t: Timed)
    ensures RefAfter(run + [t]) == RefDo(RefAfter(run), t)
  {
    assert (run + [t])[..|run|] == run;
  }

  /** The map does not notice readers and collectors. */
  lemma {:induction false} UnvisitedKeepsMap(run: seq<Timed>)
    ensures RefAfter(Unvisited(run)) == RefAfter(run)
  {
    if run != [] {
      var before, t := run[..|run| - 1], run[|run| - 1];
      UnvisitedKeepsMap(before);
      if IsVisit(t.op) {
        assert Unvisited(run) == Unvisited(before);
      } else {
        RefSnoc(Unvisited(before), t);
      }
    }
  }

  lemma VisitFreeHasNoRace(ttl: real, run: seq<Timed>, u: string)
    requires VisitFree(run)
    ensures NoRace(ttl, run, u)
  {
    forall k | 0 <= k < |run| ensures !RaceAt(ttl, run, k, u) {
      assert !IsVisit(run[k].op);
    }
  }

  /** Without visitors nothing is ever removed, so the cache is the map. */
  lemma UnvisitedIsMap(ttl: real, run: seq<Timed>, u: string, now: real)
    requires ClockOrdered(run) && UpTo(run, now)
    ensures Probe(ttl, Unvisited(run), u, now) == RefGet(RefAfter(run), ttl, u, now)
  {
    UnvisitedOrdered(run, now);
    UnvisitedKeepsMap(run);
    UnvisitedIsVisitFree(run);
    VisitFreeHasNoRace(ttl, Unvisited(run), u);
    ProbeWithoutRace(ttl, Unvisited(run), u, now);
  }

  /** Readers and collectors change what a Get of u gives, at some moment of the run, exactly if a removal of
      u's file races with a rename. */
  lemma CollectionIsInvisible(ttl: real, run: seq<Timed>, u: string)
    requires ClockOrdered(run)
    ensures (forall n: nat, now: real :: n <= |run| && UpTo(run[..n], now) ==>
               Probe(ttl, run[..n], u, now) == Probe(ttl, Unvisited(run[..n]), u, now))
       <==> NoRace(ttl, run, u)
  {
    forall n: nat, now: real | n <= |run| && UpTo(run[..n], now)
      ensures Probe(ttl, Unvisited(run[..n]), u, now) == RefGet(RefAfter(run[..n]), ttl, u, now)
    {
      UnvisitedIsMap(ttl, run[..n], u, now);
    }
    DiskRefinesMap(ttl, run, u);
    if !Lossless(ttl, run, u) {
      var n: nat, now: real :| n <= |run| && UpTo(run[..n], now)
        && Probe(ttl, run[..n], u, now) != RefGet(RefAfter(run[..n]), ttl, u, now);
    }
  }

  // ---- Crashes --------------------------------------------------------------------------

  predicate BeginsNone(run: seq<Timed>, u: string) {
    forall i :: 0 <= i < |run| ==> !(run[i].op.Begin? && run[i].op.url == u)
  }

  /** The page the map has for u, with the time it was written. */
  function Latest(run: seq<Timed>, u: string): Option<Entry> {
    if u in RefAfter(run).latest then Some(RefAfter(run).latest[u]) else None
  }

  /** From the beginning of a Put until the next one for the URL begins, whatever else happens, crashes
      included, the map has the old page, or, once the Put is no longer pending, perhaps the new one. */
  lemma {:induction false} OldOrNew(before: seq<Timed>, t: Timed, rest: seq<Timed>, u: string, page: Page)
    requires t.op == Begin(u, page) && u !in RefAfter(before).pending && BeginsNone(rest, u)
    ensures var run := before + [t] + rest;
      && (u in RefAfter(run).pending ==> RefAfter(run).pending[u].page == page && Latest(run, u) == Latest(before, u))
      && (Latest(run, u) == Latest(before, u) || (Latest(run, u).Some? && Latest(run, u).value.page == page))
  {
    if rest == [] {
      assert before + [t] + rest == before + [t];
      assert (before + [t])[..|before|] == before;
    } else {
      var m := |rest| - 1;
      OldOrNew(before, t, rest[..m], u, page);
      assert before + [t] + rest == (before + [t] + rest[..m]) + [rest[m]];
      assert (before + [t] + rest)[..|before| + 1 + m] == before + [t] + rest[..m];
    }
  }

  /** Nothing changes for a URL while no Put of it is pending or begins. */
  lemma {:induction false} StaysLatest(before: seq<Timed>, rest: seq<Timed>, u: string)
    requires u !in RefAfter(before).pending && BeginsNone(rest, u)
    ensures Latest(before + rest, u) == Latest(before, u) && u !in RefAfter(before + rest).pending
  {
    if rest == [] {
      assert before + rest == before;
    } else {
      var m := |rest| - 1;
      StaysLatest(before, rest[..m], u);
      assert (before + rest)[..|before + rest| - 1] == before + rest[..m];
    }
  }

  /** A crash at any moment of a Put, with anything else going on before and after it: until the next Put of
      the URL every read returns the old page, the new one, or nothing; not the new one if the Put had not come
      to its rename. What it returns is whole, by ReadReturnsLatest. */
  lemma CrashLeavesOldOrNew(ttl: real, before: seq<Timed>, t: Timed, mid: seq<Timed>, crash: Timed,
                            later: seq<Timed>, u: string, page: Page, k: nat)
    requires t.op == Begin(u, page) && u !in RefAfter(before).pending && crash.op == Crash
    requires BeginsNone(mid, u) && BeginsNone(later, u)
    requires var run := before + [t] + mid + [crash] + later;
      && ClockOrdered(run) && |before + [t] + mid| < k < |run|
      && AnswerAt(ttl, run, k).Some? && AnswerAt(ttl, run, k).value.url == u
    ensures var run, cut := before + [t] + mid + [crash] + later, u in RefAfter(before + [t] + mid).pending;
      var answer, was := AnswerAt(ttl, run, k).value.page, Latest(before, u);
      || answer.None?
      || (was.Some? && answer.value == was.value.page)
      || (!cut && answer.value == page)
  {
    var put := before + [t] + mid;
    var run := put + [crash] + later;
    var seen := later[..k - |put| - 1];
    assert run[..k] == put + [crash] + seen;
    OldOrNew(before, t, mid, u, page);
    AfterSnoc(ttl, put, crash);
    StaysLatest(put + [crash], seen, u);
    if AnswerAt(ttl, run, k).value.page.Some? {
      ReadReturnsLatest(ttl, run, k);
      assert Latest(run[..k], u) == Latest(put, u);
    }
  }
}
