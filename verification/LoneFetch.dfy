/** Fetches one after the other: module Fetcher's fetch does what the steps of module FetchRuns do when nobody
    acts in between. What is proved there about every interleaving then holds of it. */
module LoneFetch {
  import opened Fetcher
  import opened FetchRuns
  import opened Options
  import opened Readability
  import Files = DiskCache
  import Disk = DiskRuns

  /** A call of Fetch in some process; its page, if it gets one from the origin, is extracted at the time born. */
  datatype Call = Call(process: nat, url: string, clocks: Clocks, born: real, world: World)

  function SlotOf(call: Call): Slot {
    Slot(call.process, call.url)
  }

  /** The clock runs forward during the call. */
  predicate Forward(call: Call) {
    call.clocks.look <= call.clocks.read <= call.born <= call.clocks.keep <= call.clocks.put
  }

  predicate Swift(call: Call, lag: real, delay: real) {
    call.clocks.keep - call.clocks.read <= lag && call.clocks.put - call.born <= delay
  }

  // ---- The steps of a call --------------------------------------------------------------

  /** What the disk, a timestamped map, gives to a call; nothing if the file cannot be read. */
  function DiskPage(l: Limits, s: State, call: Call): Option<Page> {
    if l.disk.Some? && call.world.io.readable then
      Disk.RefGet(Disk.Reference(s.disk, map[]), l.disk.value, call.url, call.clocks.read)
    else None
  }

  function PutOnDisk(run: seq<Timed>, id: nat, at: real, fate: Files.PutFate): seq<Timed> {
    match fate
    case NotStarted => run + [Timed(at, GiveUp(id))]
    case WriteFailed => run + [Timed(at, Begin(id))] + [Timed(at, GiveUp(id))]
    case RenameFailed => run + [Timed(at, Begin(id))] + [Timed(at, Wrote(id))] + [Timed(at, GiveUp(id))]
    case Written => run + [Timed(at, Begin(id))] + [Timed(at, Wrote(id))] + [Timed(at, Renamed(id))]
  }

  function Store(l: Limits, run: seq<Timed>, id: nat, call: Call): seq<Timed> {
    var kept := run + [Timed(call.clocks.keep, Remember(id))];
    if l.disk.Some? then PutOnDisk(kept, id, call.clocks.put, call.world.fate) else kept
  }

  function AskOrigin(l: Limits, run: seq<Timed>, id: nat, call: Call): seq<Timed> {
    var asked := run + [Timed(call.born, Extract(id, call.world.origin))];
    if FromOrigin(call.url, call.world.origin).Ok? then Store(l, asked, id, call) else asked
  }

  function AskDisk(l: Limits, run: seq<Timed>, id: nat, call: Call, page: Option<Page>): seq<Timed> {
    if l.disk.Some? then run + [Timed(call.clocks.read, Load(id, call.clocks.read, page))] else run
  }

  /** The run with the steps of a call made in state s. */
  function WithCall(l: Limits, s: State, run: seq<Timed>, id: nat, call: Call): seq<Timed> {
    var looked := run + [Timed(call.clocks.look, Look(id, SlotOf(call)))];
    if Hit(s, SlotOf(call), call.clocks.look) then looked
    else
      var page := DiskPage(l, s, call);
      var loaded := AskDisk(l, looked, id, call, page);
      if page.Some? then loaded + [Timed(call.clocks.keep, Warm(id))] else AskOrigin(l, loaded, id, call)
  }

  /** What the last step of a run returns. */
  function LastReturn(l: Limits, run: seq<Timed>): Option<Returned> {
    if run == [] || Run(l, run).None? then None
    else ReturnOf(l, Run(l, run[..|run| - 1]).value, run[|run| - 1])
  }

  /** The page is what the origin answered to the call. */
  predicate Gave(call: Call, page: Page, at: real) {
    at == call.born && FromOrigin(call.url, call.world.origin) == Ok(page)
  }

  /** The longer run has extracted no page but those of the shorter one and what the origin gave to the call. */
  ghost predicate BearsOnly(l: Limits, run: seq<Timed>, longer: seq<Timed>, call: Call) {
    forall page, at :: Born(l, longer, page, at) ==> Born(l, run, page, at) || Gave(call, page, at)
  }

  /** A run with some steps of a call. */
  ghost predicate Stands(l: Limits, run: seq<Timed>, longer: seq<Timed>, lag: real, delay: real, call: Call, s: State,
                         now: real)
  {
    Reaches(l, longer, lag, delay, s, now) && BearsOnly(l, run, longer, call)
  }

  lemma BornSnoc(l: Limits, run: seq<Timed>, t: Timed, page: Page, at: real)
    requires Run(l, run).Some? && Born(l, run + [t], page, at)
    ensures Born(l, run, page, at) || (t.at == at && PageBorn(Run(l, run).value, t.op) == Some(page))
  {
    var longer := run + [t];
    var j: nat :| j < |longer| && longer[j].at == at && Run(l, longer[..j]).Some?
      && PageBorn(Run(l, longer[..j]).value, longer[j].op) == Some(page);
    if j < |run| {
      assert longer[..j] == run[..j];
    } else {
      assert longer[..j] == run;
    }
  }

  lemma Goes(l: Limits, run: seq<Timed>, longer: seq<Timed>, lag: real, delay: real, call: Call, s: State, now: real,
             t: Timed, s': State)
    requires Stands(l, run, longer, lag, delay, call, s, now) && now <= t.at
    requires Enabled(l, s, t) && Keeps(s, t, lag, delay) && Do(l, s, t) == s'
    requires PageBorn(s, t.op).Some? ==> Gave(call, PageBorn(s, t.op).value, t.at)
    ensures Stands(l, run, longer + [t], lag, delay, call, s', t.at)
    ensures LastReturn(l, longer + [t]) == ReturnOf(l, s, t)
  {
    ReachesLater(l, longer, lag, delay, s, now, t.at);
    Extends(l, longer, lag, delay, s, t);
    assert (longer + [t])[..|longer|] == longer && (longer + [t])[|longer|] == t;
    forall page, at | Born(l, longer + [t], page, at) ensures Born(l, run, page, at) || Gave(call, page, at) {
      BornSnoc(l, longer, t, page, at);
    }
  }

  function With(s: State, id: nat, f: Pc): State {
    s.(fetches := s.fetches[id := f])
  }

  lemma WithOver(s: State, id: nat, f: Pc, g: Pc)
    ensures With(With(s, id, f), id, g) == With(s, id, g)
    ensures id !in s.fetches ==> With(s, id, f).(fetches := With(s, id, f).fetches - {id}) == s
  {
    assert id !in s.fetches ==> With(s, id, f).fetches - {id} == s.fetches;
  }

  lemma NobodyWrites(s: State, id: nat, f: Pc, url: string)
    requires !BeingWritten(s, url) && !f.Writing?
    ensures !BeingWritten(With(s, id, f), url)
  {
    assert forall other :: other in With(s, id, f).fetches && With(s, id, f).fetches[other].Writing? ==>
      other != id && other in s.fetches;
  }

  function OnDisk(s: State, url: string, page: Page, at: real): State {
    s.(disk := s.disk[url := Disk.Entry(page, at)])
  }

  lemma PutBegins(l: Limits, run: seq<Timed>, longer: seq<Timed>, lag: real, delay: real, call: Call, s: State,
                  now: real, id: nat, page: Page)
    requires Stands(l, run, longer, lag, delay, call, With(s, id, Putting(SlotOf(call), page, call.born)), now)
    requires now <= call.clocks.put && id !in s.fetches && !BeingWritten(s, call.url)
    ensures Stands(l, run, longer + [Timed(call.clocks.put, Begin(id))], lag, delay, call,
                   With(s, id, Writing(SlotOf(call), page, call.born, None)), call.clocks.put)
  {
    var f, g := Putting(SlotOf(call), page, call.born), Writing(SlotOf(call), page, call.born, None);
    NobodyWrites(s, id, f, call.url);
    WithOver(s, id, f, g);
    Goes(l, run, longer, lag, delay, call, With(s, id, f), now, Timed(call.clocks.put, Begin(id)), With(s, id, g));
  }

  lemma PutWrites(l: Limits, run: seq<Timed>, longer: seq<Timed>, lag: real, delay: real, call: Call, s: State,
                  id: nat, page: Page)
    requires var f := Writing(SlotOf(call), page, call.born, None);
      Stands(l, run, longer, lag, delay, call, With(s, id, f), call.clocks.put)
    requires Swift(call, lag, delay)
    ensures Stands(l, run, longer + [Timed(call.clocks.put, Wrote(id))], lag, delay, call,
                   With(s, id, Writing(SlotOf(call), page, call.born, Some(call.clocks.put))), call.clocks.put)
  {
    var at := call.clocks.put;
    var f, g := Writing(SlotOf(call), page, call.born, None), Writing(SlotOf(call), page, call.born, Some(at));
    WithOver(s, id, f, g);
    Goes(l, run, longer, lag, delay, call, With(s, id, f), at, Timed(at, Wrote(id)), With(s, id, g));
  }

  lemma PutRenames(l: Limits, run: seq<Timed>, longer: seq<Timed>, lag: real, delay: real, call: Call, s: State,
                   id: nat, page: Page)
    requires var f := Writing(SlotOf(call), page, call.born, Some(call.clocks.put));
      Stands(l, run, longer, lag, delay, call, With(s, id, f), call.clocks.put)
    requires Swift(call, lag, delay) && id !in s.fetches
    ensures var renamed := longer + [Timed(call.clocks.put, Renamed(id))];
      && Stands(l, run, renamed, lag, delay, call, OnDisk(s, call.url, page, call.clocks.put), call.clocks.put)
      && LastReturn(l, renamed) == Some(Returned(call.url, Ok(page)))
  {
    var at := call.clocks.put;
    var f := Writing(SlotOf(call), page, call.born, Some(at));
    WithOver(s, id, f, f);
    Goes(l, run, longer, lag, delay, call, With(s, id, f), at, Timed(at, Renamed(id)), OnDisk(s, call.url, page, at));
  }

  lemma PutFails(l: Limits, run: seq<Timed>, longer: seq<Timed>, lag: real, delay: real, call: Call, s: State,
                 now: real, id: nat, page: Page, f: Pc)
    requires f.Putting? || f.Writing?
    requires f.slot == SlotOf(call) && f.page == page && f.born == call.born
    requires Stands(l, run, longer, lag, delay, call, With(s, id, f), now) && now <= call.clocks.put
    requires Swift(call, lag, delay) && id !in s.fetches
    ensures var failed := longer + [Timed(call.clocks.put, GiveUp(id))];
      && Stands(l, run, failed, lag, delay, call, s, call.clocks.put)
      && LastReturn(l, failed) == Some(Returned(call.url, Ok(page)))
  {
    WithOver(s, id, f, f);
    Goes(l, run, longer, lag, delay, call, With(s, id, f), now, Timed(call.clocks.put, GiveUp(id)), s);
  }

  /** The steps of Put, however far it gets. */
  lemma PutGoes(l: Limits, run: seq<Timed>, longer: seq<Timed>, lag: real, delay: real, call: Call, s: State,
                now: real, id: nat, page: Page)
    requires Stands(l, run, longer, lag, delay, call, With(s, id, Putting(SlotOf(call), page, call.born)), now)
    requires now <= call.clocks.put && Swift(call, lag, delay) && id !in s.fetches && !BeingWritten(s, call.url)
    ensures var put := PutOnDisk(longer, id, call.clocks.put, call.world.fate);
      && Stands(l, run, put, lag, delay, call,
                if call.world.fate.Written? then OnDisk(s, call.url, page, call.clocks.put) else s, call.clocks.put)
      && LastReturn(l, put) == Some(Returned(call.url, Ok(page)))
  {
    var at, slot := call.clocks.put, SlotOf(call);
    var begun := longer + [Timed(at, Begin(id))];
    var wrote := begun + [Timed(at, Wrote(id))];
    match call.world.fate {
      case NotStarted =>
        PutFails(l, run, longer, lag, delay, call, s, now, id, page, Putting(slot, page, call.born));
      case WriteFailed =>
        PutBegins(l, run, longer, lag, delay, call, s, now, id, page);
        PutFails(l, run, begun, lag, delay, call, s, at, id, page, Writing(slot, page, call.born, None));
      case RenameFailed =>
        PutBegins(l, run, longer, lag, delay, call, s, now, id, page);
        PutWrites(l, run, begun, lag, delay, call, s, id, page);
        PutFails(l, run, wrote, lag, delay, call, s, at, id, page, Writing(slot, page, call.born, Some(at)));
      case Written =>
        PutBegins(l, run, longer, lag, delay, call, s, now, id, page);
        PutWrites(l, run, begun, lag, delay, call, s, id, page);
        PutRenames(l, run, wrote, lag, delay, call, s, id, page);
    }
  }

  function InCache(l: Limits, s: State, call: Call, page: Page): State {
    s.(cache := s.cache[SlotOf(call) := CacheEntry(page, call.clocks.keep + l.ttl)])
  }

  /** The state with a page that was extracted and stored. */
  function StoredState(l: Limits, s: State, call: Call, page: Page): State {
    if l.disk.Some? && call.world.fate.Written? then
      OnDisk(InCache(l, s, call, page), call.url, page, call.clocks.put)
    else InCache(l, s, call, page)
  }

  lemma Kept(l: Limits, s: State, call: Call, id: nat, page: Page)
    requires id !in s.fetches
    ensures var s' := With(s, id, Fresh(SlotOf(call), page, call.born));
      var kept := InCache(l, s, call, page);
      Do(l, s', Timed(call.clocks.keep, Remember(id)))
      == if l.disk.Some? then With(kept, id, Putting(SlotOf(call), page, call.born)) else kept
  {
    WithOver(s, id, Fresh(SlotOf(call), page, call.born), Putting(SlotOf(call), page, call.born));
  }

  lemma StoreGoes(l: Limits, run: seq<Timed>, longer: seq<Timed>, lag: real, delay: real, call: Call, s: State,
                  id: nat, page: Page)
    requires var f := Fresh(SlotOf(call), page, call.born);
      Stands(l, run, longer, lag, delay, call, With(s, id, f), call.born)
    requires Forward(call) && Swift(call, lag, delay) && id !in s.fetches && !BeingWritten(s, call.url)
    ensures var stored, end := Store(l, longer, id, call), if l.disk.Some? then call.clocks.put else call.clocks.keep;
      && Stands(l, run, stored, lag, delay, call, StoredState(l, s, call, page), end)
      && stored[|stored| - 1].at == end
      && LastReturn(l, stored) == Some(Returned(call.url, Ok(page)))
  {
    var before, t := With(s, id, Fresh(SlotOf(call), page, call.born)), Timed(call.clocks.keep, Remember(id));
    var kept := InCache(l, s, call, page);
    Kept(l, s, call, id, page);
    Goes(l, run, longer, lag, delay, call, before, call.born, t, Do(l, before, t));
    if l.disk.Some? {
      assert BeingWritten(kept, call.url) ==> BeingWritten(s, call.url);
      PutGoes(l, run, longer + [t], lag, delay, call, kept, call.clocks.keep, id, page);
    }
  }

  lemma OriginGoes(l: Limits, run: seq<Timed>, longer: seq<Timed>, lag: real, delay: real, call: Call, s: State,
                   now: real, id: nat)
    requires Stands(l, run, longer, lag, delay, call, With(s, id, Asking(SlotOf(call))), now) && now <= call.born
    requires Forward(call) && Swift(call, lag, delay) && id !in s.fetches && !BeingWritten(s, call.url)
    ensures var asked, result := AskOrigin(l, longer, id, call), FromOrigin(call.url, call.world.origin);
      && Stands(l, run, asked, lag, delay, call, if result.Ok? then StoredState(l, s, call, result.page) else s,
                call.clocks.put)
      && (result.Ok? ==> asked[|asked| - 1].at == if l.disk.Some? then call.clocks.put else call.clocks.keep)
      && LastReturn(l, asked) == Some(Returned(call.url, result))
  {
    var result, f := FromOrigin(call.url, call.world.origin), Asking(SlotOf(call));
    var t := Timed(call.born, Extract(id, call.world.origin));
    if result.Ok? {
      var g := Fresh(SlotOf(call), result.page, call.born);
      WithOver(s, id, f, g);
      Goes(l, run, longer, lag, delay, call, With(s, id, f), now, t, With(s, id, g));
      StoreGoes(l, run, longer + [t], lag, delay, call, s, id, result.page);
    } else {
      WithOver(s, id, f, f);
      Goes(l, run, longer, lag, delay, call, With(s, id, f), now, t, s);
    }
  }

  lemma WarmGoes(l: Limits, run: seq<Timed>, longer: seq<Timed>, lag: real, delay: real, call: Call, s: State,
                 id: nat, page: Page)
    requires var f := Loaded(SlotOf(call), page, call.clocks.read);
      Stands(l, run, longer, lag, delay, call, With(s, id, f), call.clocks.read)
    requires Forward(call) && Swift(call, lag, delay) && id !in s.fetches
    ensures var warmed := longer + [Timed(call.clocks.keep, Warm(id))];
      && Stands(l, run, warmed, lag, delay, call, InCache(l, s, call, page), call.clocks.keep)
      && LastReturn(l, warmed) == Some(Returned(call.url, Ok(page)))
  {
    var f := Loaded(SlotOf(call), page, call.clocks.read);
    WithOver(s, id, f, f);
    Goes(l, run, longer, lag, delay, call, With(s, id, f), call.clocks.read, Timed(call.clocks.keep, Warm(id)),
         InCache(l, s, call, page));
  }

  /** No file was written after now. */
  predicate NoneLater(s: State, now: real) {
    forall u :: u in s.disk ==> s.disk[u].at <= now
  }

  lemma LookGoes(l: Limits, run: seq<Timed>, lag: real, delay: real, call: Call, s: State, now: real, id: nat)
    requires Reaches(l, run, lag, delay, s, now) && now <= call.clocks.look && id !in s.fetches
    ensures var looked := run + [Timed(call.clocks.look, Look(id, SlotOf(call)))];
      if Hit(s, SlotOf(call), call.clocks.look) then
        && Stands(l, run, looked, lag, delay, call, s, call.clocks.look)
        && LastReturn(l, looked) == Some(Returned(call.url, Ok(s.cache[SlotOf(call)].page)))
      else
        var f := if l.disk.Some? then Reading(SlotOf(call), call.clocks.look) else Asking(SlotOf(call));
        Stands(l, run, looked, lag, delay, call, With(s, id, f), call.clocks.look)
  {
    var t := Timed(call.clocks.look, Look(id, SlotOf(call)));
    Goes(l, run, run, lag, delay, call, s, now, t, Do(l, s, t));
  }

  lemma DiskGoes(l: Limits, run: seq<Timed>, longer: seq<Timed>, lag: real, delay: real, call: Call, s: State, id: nat)
    requires var f := if l.disk.Some? then Reading(SlotOf(call), call.clocks.look) else Asking(SlotOf(call));
      Stands(l, run, longer, lag, delay, call, With(s, id, f), call.clocks.look)
    requires Forward(call) && NoneLater(s, call.clocks.read)
    ensures var page := DiskPage(l, s, call);
      Stands(l, run, AskDisk(l, longer, id, call, page), lag, delay, call,
             With(s, id,
                  if page.Some? then Loaded(SlotOf(call), page.value, call.clocks.read) else Asking(SlotOf(call))),
             call.clocks.read)
  {
    var page, slot := DiskPage(l, s, call), SlotOf(call);
    var g := if page.Some? then Loaded(slot, page.value, call.clocks.read) else Asking(slot);
    if l.disk.Some? {
      var f := Reading(slot, call.clocks.look);
      WithOver(s, id, f, g);
      Goes(l, run, longer, lag, delay, call, With(s, id, f), call.clocks.look,
           Timed(call.clocks.read, Load(id, call.clocks.read, page)), With(s, id, g));
    }
  }

  // ---- What the steps of a call end in --------------------------------------------------

  function EndState(l: Limits, s: State, call: Call): State {
    var result := FromOrigin(call.url, call.world.origin);
    if Hit(s, SlotOf(call), call.clocks.look) then s
    else if DiskPage(l, s, call).Some? then InCache(l, s, call, DiskPage(l, s, call).value)
    else if result.Ok? then StoredState(l, s, call, result.page)
    else s
  }

  function EndResult(l: Limits, s: State, call: Call): Result {
    if Hit(s, SlotOf(call), call.clocks.look) then Ok(s.cache[SlotOf(call)].page)
    else if DiskPage(l, s, call).Some? then Ok(DiskPage(l, s, call).value)
    else FromOrigin(call.url, call.world.origin)
  }

  /** When a call returns its page. */
  function EndTime(l: Limits, s: State, call: Call): real {
    if Hit(s, SlotOf(call), call.clocks.look) then call.clocks.look
    else if DiskPage(l, s, call).Some? || l.disk.None? then call.clocks.keep
    else call.clocks.put
  }

  lemma MissGoes(l: Limits, run: seq<Timed>, longer: seq<Timed>, lag: real, delay: real, call: Call, s: State, id: nat)
    requires var page, slot := DiskPage(l, s, call), SlotOf(call);
      var f := if page.Some? then Loaded(slot, page.value, call.clocks.read) else Asking(slot);
      Stands(l, run, longer, lag, delay, call, With(s, id, f), call.clocks.read)
    requires Forward(call) && Swift(call, lag, delay) && id !in s.fetches && !BeingWritten(s, call.url)
    requires !Hit(s, SlotOf(call), call.clocks.look)
    ensures var end := if DiskPage(l, s, call).Some? then longer + [Timed(call.clocks.keep, Warm(id))]
                       else AskOrigin(l, longer, id, call);
      && Stands(l, run, end, lag, delay, call, EndState(l, s, call), call.clocks.put)
      && LastReturn(l, end) == Some(Returned(call.url, EndResult(l, s, call)))
      && (EndResult(l, s, call).Ok? ==> end[|end| - 1].at == EndTime(l, s, call))
  {
    var page := DiskPage(l, s, call);
    if page.Some? {
      WarmGoes(l, run, longer, lag, delay, call, s, id, page.value);
    } else {
      OriginGoes(l, run, longer, lag, delay, call, s, call.clocks.read, id);
    }
  }

  lemma CallGoes(l: Limits, run: seq<Timed>, lag: real, delay: real, call: Call, s: State, now: real, id: nat)
    requires Reaches(l, run, lag, delay, s, now) && now <= call.clocks.look && NoneLater(s, now)
    requires Forward(call) && Swift(call, lag, delay) && id !in s.fetches && !BeingWritten(s, call.url)
    ensures var longer := WithCall(l, s, run, id, call);
      && Stands(l, run, longer, lag, delay, call, EndState(l, s, call), call.clocks.put)
      && LastReturn(l, longer) == Some(Returned(call.url, EndResult(l, s, call)))
      && (EndResult(l, s, call).Ok? ==> longer[|longer| - 1].at == EndTime(l, s, call))
  {
    var looked := run + [Timed(call.clocks.look, Look(id, SlotOf(call)))];
    LookGoes(l, run, lag, delay, call, s, now, id);
    if !Hit(s, SlotOf(call), call.clocks.look) {
      var page := DiskPage(l, s, call);
      var loaded := AskDisk(l, looked, id, call, page);
      DiskGoes(l, run, looked, lag, delay, call, s, id);
      MissGoes(l, run, loaded, lag, delay, call, s, id);
    }
  }

  lemma CallRun(l: Limits, run: seq<Timed>, lag: real, delay: real, call: Call, s: State, now: real, id: nat)
    requires Reaches(l, run, lag, delay, s, now) && now <= call.clocks.look && NoneLater(s, now)
    requires Forward(call) && Swift(call, lag, delay) && id !in s.fetches && !BeingWritten(s, call.url)
    ensures Run(l, WithCall(l, s, run, id, call)) == Some(EndState(l, s, call))
    ensures LastReturn(l, WithCall(l, s, run, id, call)) == Some(Returned(call.url, EndResult(l, s, call)))
  {
    CallGoes(l, run, lag, delay, call, s, now, id);
  }

  // ---- Fetch does the same --------------------------------------------------------------

  /** The process has the same memory cache in both models. */
  ghost predicate CacheMatches(process: nat, cache: map<string, CacheEntry>, s: State) {
    forall u :: (u in cache <==> Slot(process, u) in s.cache) && (u in cache ==> cache[u] == s.cache[Slot(process, u)])
  }

  /** The file of a URL holds what the map has, and is missing only if that has expired. */
  predicate FileMatches(ttl: real, files: Files.Files, s: State, now: real, u: string) {
    && (Files.Final(u) in files ==> u in s.disk && files[Files.Final(u)] == Files.Full(s.disk[u].page, s.disk[u].at))
    && (u in s.disk && Files.Final(u) !in files ==> now - s.disk[u].at > ttl)
  }

  ghost predicate FilesMatch(ttl: real, files: Files.Files, s: State, now: real) {
    forall u :: FileMatches(ttl, files, s, now, u)
  }

  ghost predicate Matches(l: Limits, process: nat, t: Tiers, s: State, now: real) {
    && CacheMatches(process, t.cache, s) && NoneLater(s, now)
    && (l.disk.Some? ==> FilesMatch(l.disk.value, t.files, s, now))
  }

  lemma GetMatches(ttl: real, files: Files.Files, s: State, before: real, url: string, now: real, io: Files.Io)
    requires FilesMatch(ttl, files, s, before) && before <= now
    ensures var got := Files.Get(files, ttl, url, now, io);
      && FilesMatch(ttl, got.files, s, now)
      && got.page == if io.readable then Disk.RefGet(Disk.Reference(s.disk, map[]), ttl, url, now) else None
  {
    var got := Files.Get(files, ttl, url, now, io);
    assert FileMatches(ttl, files, s, before, url);
    forall u ensures FileMatches(ttl, got.files, s, now, u) {
      assert FileMatches(ttl, files, s, before, u);
    }
  }

  lemma PutMatches(ttl: real, files: Files.Files, s: State, before: real, url: string, page: Page, now: real,
                   fate: Files.PutFate)
    requires FilesMatch(ttl, files, s, before) && before <= now
    ensures FilesMatch(ttl, Files.Put(files, url, page, now, fate),
                       if fate.Written? then OnDisk(s, url, page, now) else s, now)
  {
    var put, s' := Files.Put(files, url, page, now, fate), if fate.Written? then OnDisk(s, url, page, now) else s;
    forall u ensures FileMatches(ttl, put, s', now, u) {
      assert FileMatches(ttl, files, s, before, u);
    }
  }

  lemma OneMore(l: Limits, process: nat, cache: map<string, CacheEntry>, s: State, call: Call, page: Page)
    requires CacheMatches(process, cache, s) && call.process == process
    ensures CacheMatches(process, cache[call.url := CacheEntry(page, call.clocks.keep + l.ttl)],
                         InCache(l, s, call, page))
  {
  }

  lemma SameResult(l: Limits, t: Tiers, s: State, now: real, call: Call)
    requires Matches(l, call.process, t, s, now) && now <= call.clocks.look && Forward(call) && call.world.parses
    ensures Fetch(l, t, call.url, call.clocks, call.world).result == EndResult(l, s, call)
  {
    assert InMemory(t.cache, call.url, call.clocks.look) == Hit(s, SlotOf(call), call.clocks.look);
    if l.disk.Some? {
      GetMatches(l.disk.value, t.files, s, now, call.url, call.clocks.read, call.world.io);
    }
  }

  lemma SameMemory(l: Limits, t: Tiers, s: State, now: real, call: Call)
    requires Matches(l, call.process, t, s, now) && now <= call.clocks.look && Forward(call) && call.world.parses
    ensures var fetched := Fetch(l, t, call.url, call.clocks, call.world);
      CacheMatches(call.process, fetched.tiers.cache, EndState(l, s, call))
  {
    assert InMemory(t.cache, call.url, call.clocks.look) == Hit(s, SlotOf(call), call.clocks.look);
    if l.disk.Some? {
      GetMatches(l.disk.value, t.files, s, now, call.url, call.clocks.read, call.world.io);
    }
    var result := EndResult(l, s, call);
    if !Hit(s, SlotOf(call), call.clocks.look) && result.Ok? {
      OneMore(l, call.process, t.cache, s, call, result.page);
    }
  }

  lemma SameFiles(l: Limits, t: Tiers, s: State, now: real, call: Call)
    requires Matches(l, call.process, t, s, now) && now <= call.clocks.look && Forward(call) && call.world.parses
    requires l.disk.Some?
    ensures var fetched := Fetch(l, t, call.url, call.clocks, call.world);
      FilesMatch(l.disk.value, fetched.tiers.files, EndState(l, s, call), call.clocks.put)
  {
    var ttl, c := l.disk.value, call.clocks;
    assert InMemory(t.cache, call.url, c.look) == Hit(s, SlotOf(call), c.look);
    GetMatches(ttl, t.files, s, now, call.url, c.read, call.world.io);
    var got, result := Files.Get(t.files, ttl, call.url, c.read, call.world.io), EndResult(l, s, call);
    FilesLater(ttl, t.files, s, now, s, c.put);
    FilesLater(ttl, got.files, s, c.read, s, c.put);
    if result.Ok? {
      var kept := InCache(l, s, call, result.page);
      FilesLater(ttl, got.files, s, c.read, kept, c.put);
      PutMatches(ttl, got.files, kept, c.put, call.url, result.page, c.put, call.world.fate);
    }
  }

  /** Time passes and the memory cache changes. */
  lemma FilesLater(ttl: real, files: Files.Files, s: State, before: real, s': State, now: real)
    requires FilesMatch(ttl, files, s, before) && before <= now && s'.disk == s.disk
    ensures FilesMatch(ttl, files, s', now)
  {
    forall u ensures FileMatches(ttl, files, s', now, u) {
      assert FileMatches(ttl, files, s, before, u);
    }
  }

  /** A call touches its own slot only. */
  ghost predicate OthersKeep(s: State, s': State, slot: Slot) {
    forall other :: other != slot ==>
      (other in s'.cache <==> other in s.cache) && (other in s.cache ==> s'.cache[other] == s.cache[other])
  }

  lemma EndKeeps(l: Limits, s: State, now: real, call: Call)
    requires NoneLater(s, now) && now <= call.clocks.put
    ensures var s' := EndState(l, s, call);
      s'.fetches == s.fetches && NoneLater(s', call.clocks.put) && OthersKeep(s, s', SlotOf(call))
  {
  }

  /** With nobody in between, Fetch has the result, the memory and the files that the steps of a fetch give: for
      any run so far, any tiers that match it, and any clock readings, I/O outcomes and answer of the origin. A
      URL that does not parse changes nothing. */
  lemma LoneFetchIsFetch(l: Limits, run: seq<Timed>, lag: real, delay: real, s: State, now: real, id: nat, t: Tiers,
                         call: Call)
    requires Reaches(l, run, lag, delay, s, now) && Matches(l, call.process, t, s, now)
    requires id !in s.fetches && !BeingWritten(s, call.url)
    requires now <= call.clocks.look && Forward(call) && Swift(call, lag, delay)
    ensures var fetched := Fetch(l, t, call.url, call.clocks, call.world);
      if !call.world.parses then fetched == Fetched(t, Err(BadUrl))
      else
        var longer := WithCall(l, s, run, id, call);
        && Run(l, longer).Some? && Run(l, longer).value.fetches == s.fetches
        && Matches(l, call.process, fetched.tiers, Run(l, longer).value, call.clocks.put)
        && OthersKeep(s, Run(l, longer).value, SlotOf(call))
        && LastReturn(l, longer) == Some(Returned(call.url, fetched.result))
  {
    if call.world.parses {
      CallRun(l, run, lag, delay, call, s, now, id);
      EndKeeps(l, s, now, call);
      SameResult(l, t, s, now, call);
      SameMemory(l, t, s, now, call);
      if l.disk.Some? {
        SameFiles(l, t, s, now, call);
      }
    }
  }

  // ---- Any number of calls, one after the other -----------------------------------------

  /** The memory caches of the processes and the files they share. */
  datatype Shared = Shared(caches: map<nat, map<string, CacheEntry>>, files: Files.Files)

  /** The tiers that a process sees. */
  function Seen(sh: Shared, process: nat): Tiers {
    Tiers(if process in sh.caches then sh.caches[process] else map[], sh.files)
  }

  function FetchOn(l: Limits, sh: Shared, call: Call): Fetched {
    Fetch(l, Seen(sh, call.process), call.url, call.clocks, call.world)
  }

  /** What a list of calls leaves, from empty tiers. */
  function AfterCalls(l: Limits, calls: seq<Call>): Shared {
    if calls == [] then Shared(map[], map[])
    else
      var sh, call := AfterCalls(l, calls[..|calls| - 1]), calls[|calls| - 1];
      var fetched := FetchOn(l, sh, call);
      Shared(sh.caches[call.process := fetched.tiers.cache], fetched.tiers.files)
  }

  function ResultAt(l: Limits, calls: seq<Call>, k: nat): Result
    requires k < |calls|
  {
    FetchOn(l, AfterCalls(l, calls[..k]), calls[k]).result
  }

  /** Call k finds its page in memory, not expired. */
  predicate HitAt(l: Limits, calls: seq<Call>, k: nat)
    requires k < |calls|
  {
    var t := Seen(AfterCalls(l, calls[..k]), calls[k].process);
    calls[k].url in t.cache && calls[k].clocks.look < t.cache[calls[k].url].expiresAt
  }

  /** When call k returns its page: at once from memory; else when the page has reached memory, or the disk, if it
      comes from the origin and there is one. */
  function ReturnTime(l: Limits, calls: seq<Call>, k: nat): real
    requires k < |calls|
  {
    var t, c := Seen(AfterCalls(l, calls[..k]), calls[k].process), calls[k].clocks;
    if HitAt(l, calls, k) then c.look
    else if l.disk.None? || DiskGet(l, t, calls[k].url, c.read, calls[k].world.io).page.Some? then c.keep
    else c.put
  }

  /** Each call begins when the one before has ended. */
  predicate InTurn(calls: seq<Call>) {
    && (forall k :: 0 <= k < |calls| ==> Forward(calls[k]))
    && (forall k :: 1 <= k < |calls| ==> calls[k - 1].clocks.put <= calls[k].clocks.look)
  }

  predicate AllSwift(calls: seq<Call>, lag: real, delay: real) {
    forall k :: 0 <= k < |calls| ==> Swift(calls[k], lag, delay)
  }

  ghost predicate AllMatch(l: Limits, sh: Shared, s: State, now: real) {
    forall process: nat :: Matches(l, process, Seen(sh, process), s, now)
  }

  predicate SomeGave(calls: seq<Call>, page: Page, at: real) {
    exists j :: 0 <= j < |calls| && Gave(calls[j], page, at)
  }

  ghost predicate BornOfCalls(l: Limits, run: seq<Timed>, calls: seq<Call>) {
    forall page, at :: Born(l, run, page, at) ==> SomeGave(calls, page, at)
  }

  /** The run that the calls make. */
  ghost predicate MadeBy(l: Limits, run: seq<Timed>, calls: seq<Call>, lag: real, delay: real, s: State, now: real) {
    && Reaches(l, run, lag, delay, s, now) && s.fetches == map[]
    && AllMatch(l, AfterCalls(l, calls), s, now) && BornOfCalls(l, run, calls)
  }

  lemma MoreCalls(l: Limits, run: seq<Timed>, longer: seq<Timed>, calls: seq<Call>, call: Call)
    requires BornOfCalls(l, run, calls) && BearsOnly(l, run, longer, call)
    ensures BornOfCalls(l, longer, calls + [call])
  {
    forall page, at | Born(l, longer, page, at) ensures SomeGave(calls + [call], page, at) {
      if Gave(call, page, at) {
        assert Gave((calls + [call])[|calls|], page, at);
      } else {
        var j :| 0 <= j < |calls| && Gave(calls[j], page, at);
        assert Gave((calls + [call])[j], page, at);
      }
    }
  }

  /** The other processes see the same memory and the new files. */
  lemma OthersMatch(l: Limits, sh: Shared, call: Call, fetched: Fetched, s: State, before: real, s': State, now: real)
    requires AllMatch(l, sh, s, before) && Matches(l, call.process, fetched.tiers, s', now)
    requires OthersKeep(s, s', SlotOf(call))
    ensures AllMatch(l, Shared(sh.caches[call.process := fetched.tiers.cache], fetched.tiers.files), s', now)
  {
    var sh' := Shared(sh.caches[call.process := fetched.tiers.cache], fetched.tiers.files);
    forall process: nat ensures Matches(l, process, Seen(sh', process), s', now) {
      if process == call.process {
        assert Seen(sh', process) == fetched.tiers;
      } else {
        assert Matches(l, process, Seen(sh, process), s, before);
      }
    }
  }

  lemma MatchLater(l: Limits, process: nat, t: Tiers, s: State, before: real, now: real)
    requires Matches(l, process, t, s, before) && before <= now
    ensures Matches(l, process, t, s, now)
  {
    if l.disk.Some? {
      FilesLater(l.disk.value, t.files, s, before, s, now);
    }
  }

  /** The last step of the run is that of the last call, and returns what it does. */
  predicate EndsWith(l: Limits, run: seq<Timed>, calls: seq<Call>)
    requires calls != []
  {
    var k := |calls| - 1;
    calls[k].world.parses ==>
      && LastReturn(l, run) == Some(Returned(calls[k].url, ResultAt(l, calls, k)))
      && (ResultAt(l, calls, k).Ok? ==> run != [] && run[|run| - 1].at == ReturnTime(l, calls, k))
  }

  /** One more call. */
  lemma CallMakes(l: Limits, run: seq<Timed>, calls: seq<Call>, lag: real, delay: real, s: State, now: real, call: Call)
    returns (longer: seq<Timed>, s': State)
    requires MadeBy(l, run, calls, lag, delay, s, now) && now <= call.clocks.look
    requires Forward(call) && Swift(call, lag, delay)
    ensures MadeBy(l, longer, calls + [call], lag, delay, s', call.clocks.put)
    ensures EndsWith(l, longer, calls + [call])
  {
    var sh, end := AfterCalls(l, calls), call.clocks.put;
    var t := Seen(sh, call.process);
    assert (calls + [call])[..|calls|] == calls;
    assert Matches(l, call.process, t, s, now);
    LoneFetchIsFetch(l, run, lag, delay, s, now, 0, t, call);
    if call.world.parses {
      CallGoes(l, run, lag, delay, call, s, now, 0);
      longer, s' := WithCall(l, s, run, 0, call), EndState(l, s, call);
      SameTime(l, t, s, now, call);
      MoreCalls(l, run, longer, calls, call);
    } else {
      longer, s' := run, s;
      ReachesLater(l, run, lag, delay, s, now, end);
      MatchLater(l, call.process, t, s, now, end);
      MoreCalls(l, run, run, calls, call);
    }
    OthersMatch(l, sh, call, FetchOn(l, sh, call), s, now, s', end);
  }

  lemma SameTime(l: Limits, t: Tiers, s: State, now: real, call: Call)
    requires Matches(l, call.process, t, s, now) && now <= call.clocks.look && Forward(call)
    ensures InMemory(t.cache, call.url, call.clocks.look) == Hit(s, SlotOf(call), call.clocks.look)
    ensures DiskGet(l, t, call.url, call.clocks.read, call.world.io).page == DiskPage(l, s, call)
  {
    if l.disk.Some? {
      GetMatches(l.disk.value, t.files, s, now, call.url, call.clocks.read, call.world.io);
    }
  }

  lemma PrefixInTurn(calls: seq<Call>, k: nat, lag: real, delay: real)
    requires k <= |calls| && InTurn(calls) && AllSwift(calls, lag, delay)
    ensures InTurn(calls[..k]) && AllSwift(calls[..k], lag, delay)
  {
  }

  /** The calls make a run that keeps to their lag and delay. */
  lemma {:induction false} CallsMakeRun(l: Limits, calls: seq<Call>, lag: real, delay: real)
    returns (run: seq<Timed>, s: State)
    requires InTurn(calls) && AllSwift(calls, lag, delay)
    ensures MadeBy(l, run, calls, lag, delay, s, if calls == [] then 0.0 else calls[|calls| - 1].clocks.put)
    ensures calls == [] ==> run == [] && s == EMPTY
    ensures calls != [] ==> EndsWith(l, run, calls)
  {
    if calls == [] {
      run, s := [], EMPTY;
    } else {
      var before, call := calls[..|calls| - 1], calls[|calls| - 1];
      PrefixInTurn(calls, |before|, lag, delay);
      run, s := CallsMakeRun(l, before, lag, delay);
      assert before + [call] == calls;
      var now := if before == [] then call.clocks.look else before[|before| - 1].clocks.put;
      if before == [] {
        MadeLater(l, run, before, lag, delay, s, now);
      }
      run, s := CallMakes(l, run, before, lag, delay, s, now, call);
    }
  }

  /** Without calls there is nothing whose time matters. */
  lemma MadeLater(l: Limits, run: seq<Timed>, calls: seq<Call>, lag: real, delay: real, s: State, now: real)
    requires calls == [] && run == [] && s == EMPTY && MadeBy(l, run, calls, lag, delay, s, 0.0)
    ensures MadeBy(l, run, calls, lag, delay, s, now)
  {
  }

  /** The page is of the URL, is the text of a document that the origin gave to the call for that URL with status
      200, and is young by now. */
  predicate GaveYoung(l: Limits, lag: real, delay: real, call: Call, page: Page, url: string, now: real) {
    && call.url == url && page.url == url
    && call.world.origin.Responds? && call.world.origin.status == 200 && call.world.origin.doc.Some?
    && page.text == PageText(call.world.origin.doc.value)
    && (now - call.born < l.ttl + DiskSpan(l, lag) + delay || now - call.born <= DiskSpan(l, lag) + delay)
  }

  lemma GaveMeans(call: Call, page: Page, at: real)
    requires Gave(call, page, at)
    ensures at == call.born && page.url == call.url && call.world.origin.Responds? && call.world.origin.status == 200
    ensures call.world.origin.doc.Some? && page.text == PageText(call.world.origin.doc.value)
  {
  }

  lemma PrefixReturns(l: Limits, calls: seq<Call>, k: nat)
    requires k < |calls|
    ensures ResultAt(l, calls[..k + 1], k) == ResultAt(l, calls, k)
    ensures ReturnTime(l, calls[..k + 1], k) == ReturnTime(l, calls, k)
  {
    assert calls[..k + 1][..k] == calls[..k] && calls[..k + 1][k] == calls[k];
  }

  lemma YoungGiven(l: Limits, run: seq<Timed>, calls: seq<Call>, lag: real, delay: real, page: Page, url: string,
                   now: real)
    requires BornOfCalls(l, run, calls) && Young(l, run, lag, delay, page, now) && page.url == url
    ensures exists j :: 0 <= j < |calls| && GaveYoung(l, lag, delay, calls[j], page, url, now)
  {
    var at :| Born(l, run, page, at)
      && (now - at < l.ttl + DiskSpan(l, lag) + delay || now - at <= DiskSpan(l, lag) + delay);
    assert SomeGave(calls, page, at);
    var j :| 0 <= j < |calls| && Gave(calls[j], page, at);
    GaveMeans(calls[j], page, at);
  }

  lemma LastStaleness(l: Limits, calls: seq<Call>, lag: real, delay: real)
    requires lag >= 0.0 && InTurn(calls) && AllSwift(calls, lag, delay) && calls != []
    requires ResultAt(l, calls, |calls| - 1).Ok?
    ensures var k := |calls| - 1;
      var page, now := ResultAt(l, calls, k).page, ReturnTime(l, calls, k);
      exists j :: 0 <= j < |calls| && GaveYoung(l, lag, delay, calls[j], page, calls[k].url, now)
  {
    var k := |calls| - 1;
    var run, s := CallsMakeRun(l, calls, lag, delay);
    Staleness(l, run, lag, delay);
    YoungGiven(l, run, calls, lag, delay, ResultAt(l, calls, k).page, calls[k].url, ReturnTime(l, calls, k));
  }

  /** A page that call k returns is one that the origin gave, for that URL, to this or an earlier call of any
      process; it is then no older than the TTLs and the times taken allow. */
  lemma FetchStaleness(l: Limits, calls: seq<Call>, lag: real, delay: real, k: nat)
    requires lag >= 0.0 && InTurn(calls) && AllSwift(calls, lag, delay) && k < |calls|
    requires ResultAt(l, calls, k).Ok?
    ensures var page, now := ResultAt(l, calls, k).page, ReturnTime(l, calls, k);
      exists j :: 0 <= j <= k && GaveYoung(l, lag, delay, calls[j], page, calls[k].url, now)
  {
    PrefixInTurn(calls, k + 1, lag, delay);
    PrefixReturns(l, calls, k);
    LastStaleness(l, calls[..k + 1], lag, delay);
  }

  // ---- The caches serve -----------------------------------------------------------------

  /** None of the calls after j and before n is for the URL in that process. */
  predicate NotAskedIn(calls: seq<Call>, j: nat, n: nat, process: nat, url: string)
    requires n <= |calls|
  {
    forall i :: j < i < n ==> calls[i].process != process || calls[i].url != url
  }

  /** None is for the URL in any process. */
  predicate NotAsked(calls: seq<Call>, j: nat, n: nat, url: string)
    requires n <= |calls|
  {
    forall i :: j < i < n ==> calls[i].url != url
  }

  predicate HasEntry(sh: Shared, process: nat, url: string, e: CacheEntry) {
    process in sh.caches && url in sh.caches[process] && sh.caches[process][url] == e
  }

  predicate HasFile(sh: Shared, url: string, f: Files.File) {
    Files.Final(url) in sh.files && sh.files[Files.Final(url)] == f
  }

  function AfterOne(l: Limits, sh: Shared, call: Call): Shared {
    var fetched := FetchOn(l, sh, call);
    Shared(sh.caches[call.process := fetched.tiers.cache], fetched.tiers.files)
  }

  lemma AfterPrefix(l: Limits, calls: seq<Call>, n: nat)
    requires n < |calls|
    ensures AfterCalls(l, calls[..n + 1]) == AfterOne(l, AfterCalls(l, calls[..n]), calls[n])
  {
    assert calls[..n + 1][..n] == calls[..n];
  }

  /** What a fetch leaves of the files and the entries of other URLs. */
  lemma PutKeeps(files: Files.Files, url: string, page: Page, now: real, fate: Files.PutFate, other: string)
    requires Files.Final(other) in files && other != url
    ensures Files.Final(other) in Files.Put(files, url, page, now, fate)
    ensures Files.Put(files, url, page, now, fate)[Files.Final(other)] == files[Files.Final(other)]
  {
  }

  lemma GetKeeps(files: Files.Files, ttl: real, url: string, now: real, io: Files.Io, other: string)
    requires Files.Final(other) in files && other != url
    ensures var got := Files.Get(files, ttl, url, now, io);
      Files.Final(other) in got.files && got.files[Files.Final(other)] == files[Files.Final(other)]
  {
  }

  lemma FetchKeeps(l: Limits, t: Tiers, call: Call, other: string)
    requires Files.Final(other) in t.files && other != call.url
    ensures var files := Fetch(l, t, call.url, call.clocks, call.world).tiers.files;
      Files.Final(other) in files && files[Files.Final(other)] == t.files[Files.Final(other)]
  {
    if l.disk.Some? {
      GetKeeps(t.files, l.disk.value, call.url, call.clocks.read, call.world.io, other);
      var got := Files.Get(t.files, l.disk.value, call.url, call.clocks.read, call.world.io);
      var result := FromOrigin(call.url, call.world.origin);
      if result.Ok? {
        PutKeeps(got.files, call.url, result.page, call.clocks.put, call.world.fate, other);
      }
    }
  }

  lemma EntryWritten(l: Limits, sh: Shared, call: Call, page: Page)
    requires FetchOn(l, sh, call).result == Ok(page)
    requires !InMemory(Seen(sh, call.process).cache, call.url, call.clocks.look)
    ensures HasEntry(AfterOne(l, sh, call), call.process, call.url, CacheEntry(page, call.clocks.keep + l.ttl))
  {
  }

  lemma EntryStays(l: Limits, sh: Shared, call: Call, process: nat, url: string, e: CacheEntry)
    requires HasEntry(sh, process, url, e) && (call.process != process || call.url != url)
    ensures HasEntry(AfterOne(l, sh, call), process, url, e)
  {
  }

  lemma FileStays(l: Limits, sh: Shared, call: Call, url: string, f: Files.File)
    requires HasFile(sh, url, f) && call.url != url
    ensures HasFile(AfterOne(l, sh, call), url, f)
  {
    FetchKeeps(l, Seen(sh, call.process), call, url);
  }

  lemma {:induction false} EntryKept(l: Limits, calls: seq<Call>, j: nat, n: nat, process: nat, url: string,
                                     e: CacheEntry)
    requires j < n <= |calls| && NotAskedIn(calls, j, n, process, url)
    requires HasEntry(AfterCalls(l, calls[..j + 1]), process, url, e)
    ensures HasEntry(AfterCalls(l, calls[..n]), process, url, e)
    decreases n
  {
    if j + 1 < n {
      EntryKept(l, calls, j, n - 1, process, url, e);
      AfterPrefix(l, calls, n - 1);
      EntryStays(l, AfterCalls(l, calls[..n - 1]), calls[n - 1], process, url, e);
    }
  }

  /** The memory cache serves: a page that a call got from disk or the origin is found again in the process by the
      next call for its URL exactly if that comes less than the TTL after it was kept. The disk and the origin are
      then not asked, and nothing changes. */
  lemma MemoryServes(l: Limits, calls: seq<Call>, j: nat, k: nat, page: Page)
    requires j < k < |calls| && calls[j].process == calls[k].process && calls[j].url == calls[k].url
    requires ResultAt(l, calls, j) == Ok(page) && !HitAt(l, calls, j)
    requires NotAskedIn(calls, j, k, calls[k].process, calls[k].url) && calls[k].world.parses
    ensures HitAt(l, calls, k) <==> calls[k].clocks.look < calls[j].clocks.keep + l.ttl
    ensures var sh := AfterCalls(l, calls[..k]);
      HitAt(l, calls, k) ==> FetchOn(l, sh, calls[k]) == Fetched(Seen(sh, calls[k].process), Ok(page))
  {
    AfterPrefix(l, calls, j);
    EntryWritten(l, AfterCalls(l, calls[..j]), calls[j], page);
    EntryKept(l, calls, j, k, calls[j].process, calls[j].url, CacheEntry(page, calls[j].clocks.keep + l.ttl));
  }

  /** Call k gets its page from the origin. */
  predicate FromOriginAt(l: Limits, calls: seq<Call>, k: nat)
    requires k < |calls|
  {
    var t := Seen(AfterCalls(l, calls[..k]), calls[k].process);
    && ResultAt(l, calls, k).Ok? && !HitAt(l, calls, k)
    && DiskGet(l, t, calls[k].url, calls[k].clocks.read, calls[k].world.io).page.None?
  }

  lemma FileWritten(l: Limits, calls: seq<Call>, j: nat, page: Page)
    requires j < |calls| && l.disk.Some? && FromOriginAt(l, calls, j) && ResultAt(l, calls, j) == Ok(page)
    requires calls[j].world.fate.Written?
    ensures HasFile(AfterOne(l, AfterCalls(l, calls[..j]), calls[j]), calls[j].url,
                    Files.Full(page, calls[j].clocks.put))
  {
  }

  lemma {:induction false} FileKept(l: Limits, calls: seq<Call>, j: nat, n: nat, url: string, f: Files.File)
    requires j < n <= |calls| && NotAsked(calls, j, n, url) && HasFile(AfterCalls(l, calls[..j + 1]), url, f)
    ensures HasFile(AfterCalls(l, calls[..n]), url, f)
    decreases n
  {
    if j + 1 < n {
      FileKept(l, calls, j, n - 1, url, f);
      AfterPrefix(l, calls, n - 1);
      FileStays(l, AfterCalls(l, calls[..n - 1]), calls[n - 1], url, f);
    }
  }

  /** The disk cache serves: a page from the origin whose Put got to the rename is found by the next call for its
      URL, in whatever process, that misses its memory, exactly if the file can be read and is no older than the
      disk's TTL. */
  lemma DiskServes(l: Limits, calls: seq<Call>, j: nat, k: nat, page: Page)
    requires j < k < |calls| && calls[j].url == calls[k].url && l.disk.Some?
    requires FromOriginAt(l, calls, j) && ResultAt(l, calls, j) == Ok(page) && calls[j].world.fate.Written?
    requires NotAsked(calls, j, k, calls[k].url) && calls[k].world.parses && !HitAt(l, calls, k)
    ensures var c, t := calls[k].clocks, Seen(AfterCalls(l, calls[..k]), calls[k].process);
      var found := calls[k].world.io.readable && c.read - calls[j].clocks.put <= l.disk.value;
      && DiskGet(l, t, calls[k].url, c.read, calls[k].world.io).page == (if found then Some(page) else None)
      && (found ==> ResultAt(l, calls, k) == Ok(page))
  {
    AfterPrefix(l, calls, j);
    FileWritten(l, calls, j, page);
    FileKept(l, calls, j, k, calls[j].url, Files.Full(page, calls[j].clocks.put));
  }
}
