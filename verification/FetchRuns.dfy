/** fetch/fetch.go under concurrency: any number of fetches and fetch streams, in any number of processes that
    share one cache directory. Each locked section and each disk operation is a step; the disk cache is what
    module DiskRuns proves it to be: a timestamped map whose reads may also find nothing. */
module FetchRuns {
  import opened Fetcher
  import opened Options
  import opened Readability
  import Disk = DiskRuns
  import Dom

  /** A process's memory cache holds one entry per URL. */
  datatype Slot = Slot(process: nat, url: string)

  /** Where a fetch stands: asking the disk since some time; about to put a page loaded from disk, by a clock
      reading, into memory; asking the origin; or storing a page born, that is extracted, at some time: first in
      memory, then on disk. */
  datatype Pc =
    | Reading(slot: Slot, since: real)
    | Loaded(slot: Slot, page: Page, clock: real)
    | Asking(slot: Slot)
    | Fresh(slot: Slot, page: Page, born: real)
    | Putting(slot: Slot, page: Page, born: real)
    | Writing(slot: Slot, page: Page, born: real, wrote: Option<real>)

  datatype State = State(cache: map<Slot, CacheEntry>, disk: map<string, Disk.Entry>, fetches: map<nat, Pc>)

  const EMPTY: State := State(map[], map[], map[])

  /** Kill ends a fetch and Forget loses a memory entry at any moment; a crash of a process is both, for all it
      has. GiveUp is a Put that fails. */
  datatype Op =
    | Look(id: nat, slot: Slot)
    | Load(id: nat, clock: real, page: Option<Page>)
    | Warm(id: nat)
    | Extract(id: nat, origin: Origin)
    | Stream(id: nat, slot: Slot, doc: Dom.Node)
    | Remember(id: nat)
    | Begin(id: nat)
    | Wrote(id: nat)
    | Renamed(id: nat)
    | GiveUp(id: nat)
    | Kill(id: nat)
    | Forget(slot: Slot)

  datatype Timed = Timed(at: real, op: Op)

  /** What the disk can answer: the map's page for some clock reading, or nothing. */
  predicate DiskAnswers(l: Limits, s: State, url: string, clock: real, page: Option<Page>) {
    page.Some? ==>
      l.disk.Some? && l.disk.value >= 0.0
      && Disk.RefGet(Disk.Reference(s.disk, map[]), l.disk.value, url, clock) == page
  }

  predicate BeingWritten(s: State, url: string) {
    exists id :: id in s.fetches && s.fetches[id].Writing? && s.fetches[id].slot.url == url
  }

  predicate Enabled(l: Limits, s: State, t: Timed) {
    match t.op
    case Look(id, _) => id !in s.fetches
    case Load(id, clock, page) =>
      && id in s.fetches && s.fetches[id].Reading? && s.fetches[id].since <= clock <= t.at
      && DiskAnswers(l, s, s.fetches[id].slot.url, clock, page)
    case Warm(id) => id in s.fetches && s.fetches[id].Loaded?
    case Extract(id, _) => id in s.fetches && s.fetches[id].Asking?
    case Stream(id, _, _) => id !in s.fetches
    case Remember(id) => id in s.fetches && s.fetches[id].Fresh?
    case Begin(id) => id in s.fetches && s.fetches[id].Putting? && !BeingWritten(s, s.fetches[id].slot.url)
    case Wrote(id) => id in s.fetches && s.fetches[id].Writing?
    case Renamed(id) => id in s.fetches && s.fetches[id].Writing? && s.fetches[id].wrote.Some?
    case GiveUp(id) => id in s.fetches && (s.fetches[id].Putting? || s.fetches[id].Writing?)
    case Kill(id) => id in s.fetches
    case Forget(_) => true
  }

  predicate Hit(s: State, slot: Slot, now: real) {
    slot in s.cache && now < s.cache[slot].expiresAt
  }

  function Do(l: Limits, s: State, t: Timed): State
    requires Enabled(l, s, t)
  {
    match t.op
    case Look(id, slot) =>
      if Hit(s, slot, t.at) then s
      else s.(fetches := s.fetches[id := if l.disk.Some? then Reading(slot, t.at) else Asking(slot)])
    case Load(id, clock, page) =>
      var slot := s.fetches[id].slot;
      s.(fetches := s.fetches[id := if page.Some? then Loaded(slot, page.value, clock) else Asking(slot)])
    case Warm(id) =>
      var f := s.fetches[id];
      s.(cache := s.cache[f.slot := CacheEntry(f.page, t.at + l.ttl)], fetches := s.fetches - {id})
    case Extract(id, origin) =>
      var slot := s.fetches[id].slot;
      var r := FromOrigin(slot.url, origin);
      s.(fetches := if r.Ok? then s.fetches[id := Fresh(slot, r.page, t.at)] else s.fetches - {id})
    case Stream(id, slot, doc) => s.(fetches := s.fetches[id := Fresh(slot, Extracted(slot.url, doc), t.at)])
    case Remember(id) =>
      var f := s.fetches[id];
      s.(cache := s.cache[f.slot := CacheEntry(f.page, t.at + l.ttl)],
         fetches := if l.disk.Some? then s.fetches[id := Putting(f.slot, f.page, f.born)] else s.fetches - {id})
    case Begin(id) =>
      var f := s.fetches[id];
      s.(fetches := s.fetches[id := Writing(f.slot, f.page, f.born, None)])
    case Wrote(id) => s.(fetches := s.fetches[id := s.fetches[id].(wrote := Some(t.at))])
    case Renamed(id) =>
      var f := s.fetches[id];
      s.(disk := s.disk[f.slot.url := Disk.Entry(f.page, f.wrote.value)], fetches := s.fetches - {id})
    case GiveUp(id) => s.(fetches := s.fetches - {id})
    case Kill(id) => s.(fetches := s.fetches - {id})
    case Forget(slot) => s.(cache := s.cache - {slot})
  }

  /** What a fetch returns, if the step is its last. */
  datatype Returned = Returned(url: string, result: Result)

  function ReturnOf(l: Limits, s: State, t: Timed): Option<Returned>
    requires Enabled(l, s, t)
  {
    match t.op
    case Look(_, slot) => if Hit(s, slot, t.at) then Some(Returned(slot.url, Ok(s.cache[slot].page))) else None
    case Warm(id) => Some(Returned(s.fetches[id].slot.url, Ok(s.fetches[id].page)))
    case Extract(id, origin) =>
      var url := s.fetches[id].slot.url;
      if FromOrigin(url, origin).Err? then Some(Returned(url, FromOrigin(url, origin))) else None
    case Remember(id) =>
      if l.disk.Some? then None else Some(Returned(s.fetches[id].slot.url, Ok(s.fetches[id].page)))
    case Renamed(id) => Some(Returned(s.fetches[id].slot.url, Ok(s.fetches[id].page)))
    case GiveUp(id) => Some(Returned(s.fetches[id].slot.url, Ok(s.fetches[id].page)))
    case _ => None
  }

  /** The state after a run, None if some step of it was not possible. */
  function Run(l: Limits, run: seq<Timed>): Option<State> {
    if run == [] then Some(EMPTY)
    else
      var before, t := run[..|run| - 1], run[|run| - 1];
      var s := Run(l, before);
      if s.None? || !Enabled(l, s.value, t) || (before != [] && t.at < before[|before| - 1].at) then None
      else Some(Do(l, s.value, t))
  }

  lemma RunSnoc(l: Limits, run: seq<Timed>, t: Timed)
    requires Run(l, run + [t]).Some?
    ensures Run(l, run).Some? && Enabled(l, Run(l, run).value, t)
    ensures Run(l, run + [t]).value == Do(l, Run(l, run).value, t)
    ensures run != [] ==> run[|run| - 1].at <= t.at
  {
    assert (run + [t])[..|run|] == run;
  }

  /** The page of url that a step extracts from the origin. */
  function PageBorn(s: State, op: Op): Option<Page> {
    match op
    case Extract(id, origin) =>
      if id in s.fetches && FromOrigin(s.fetches[id].slot.url, origin).Ok? then
        Some(FromOrigin(s.fetches[id].slot.url, origin).page)
      else None
    case Stream(_, slot, doc) => Some(Extracted(slot.url, doc))
    case _ => None
  }

  /** Some step of the run extracted the page from the origin at time at. */
  ghost predicate Born(l: Limits, run: seq<Timed>, page: Page, at: real) {
    exists j: nat :: j < |run| && run[j].at == at && Run(l, run[..j]).Some?
      && PageBorn(Run(l, run[..j]).value, run[j].op) == Some(page)
  }

  // ---- How old a page can be ------------------------------------------------------------

  /** A step keeps to the times: a page loaded from disk reaches memory within lag of the clock reading that
      found it fresh, and an extracted page has reached both tiers, and is returned, within delay. */
  predicate Keeps(s: State, t: Timed, lag: real, delay: real) {
    match t.op
    case Warm(id) => id in s.fetches && s.fetches[id].Loaded? ==> t.at - s.fetches[id].clock <= lag
    case Remember(id) => id in s.fetches && s.fetches[id].Fresh? ==> t.at - s.fetches[id].born <= delay
    case Wrote(id) => id in s.fetches && s.fetches[id].Writing? ==> t.at - s.fetches[id].born <= delay
    case Renamed(id) => id in s.fetches && s.fetches[id].Writing? ==> t.at - s.fetches[id].born <= delay
    case GiveUp(id) =>
      id in s.fetches && (s.fetches[id].Putting? || s.fetches[id].Writing?) ==> t.at - s.fetches[id].born <= delay
    case _ => true
  }

  /** Every step of the run does. */
  predicate Prompt(l: Limits, run: seq<Timed>, lag: real, delay: real) {
    run != [] ==>
      var before := run[..|run| - 1];
      && Prompt(l, before, lag, delay)
      && (Run(l, before).Some? ==> Keeps(Run(l, before).value, run[|run| - 1], lag, delay))
  }

  /** The most that the disk cache adds to a page's age. */
  function DiskSpan(l: Limits, lag: real): real {
    if l.disk.Some? && l.disk.value >= 0.0 then l.disk.value + lag else 0.0
  }

  ghost predicate EntryTraced(l: Limits, run: seq<Timed>, lag: real, delay: real, url: string, e: CacheEntry) {
    exists at :: Born(l, run, e.page, at) && e.page.url == url && e.expiresAt <= at + l.ttl + DiskSpan(l, lag) + delay
  }

  ghost predicate FileTraced(l: Limits, run: seq<Timed>, delay: real, url: string, e: Disk.Entry) {
    exists at :: Born(l, run, e.page, at) && e.page.url == url && e.at <= at + delay
  }

  /** A loaded page was fresh, so it was born no longer before the clock reading than TTL and delay. */
  ghost predicate LoadTraced(l: Limits, run: seq<Timed>, delay: real, f: Pc)
    requires f.Loaded?
  {
    && l.disk.Some? && l.disk.value >= 0.0
    && exists at :: Born(l, run, f.page, at) && f.page.url == f.slot.url && f.clock <= at + l.disk.value + delay
  }

  ghost predicate FetchTraced(l: Limits, run: seq<Timed>, delay: real, f: Pc) {
    match f
    case Reading(_, _) => true
    case Loaded(_, _, _) => LoadTraced(l, run, delay, f)
    case Asking(_) => true
    case Fresh(slot, page, born) => page.url == slot.url && Born(l, run, page, born)
    case Putting(slot, page, born) => page.url == slot.url && Born(l, run, page, born)
    case Writing(slot, page, born, wrote) =>
      page.url == slot.url && Born(l, run, page, born) && (wrote.Some? ==> wrote.value <= born + delay)
  }

  ghost predicate CacheTraced(l: Limits, run: seq<Timed>, lag: real, delay: real, cache: map<Slot, CacheEntry>) {
    forall slot :: slot in cache ==> EntryTraced(l, run, lag, delay, slot.url, cache[slot])
  }

  ghost predicate DiskTraced(l: Limits, run: seq<Timed>, delay: real, disk: map<string, Disk.Entry>) {
    forall u :: u in disk ==> FileTraced(l, run, delay, u, disk[u])
  }

  ghost predicate FetchesTraced(l: Limits, run: seq<Timed>, delay: real, fetches: map<nat, Pc>) {
    forall id :: id in fetches ==> FetchTraced(l, run, delay, fetches[id])
  }

  /** What is cached anywhere was extracted for its URL; a memory entry expires within both TTLs, lag and delay
      of that, however often it was loaded from disk again; a file was written within delay of it. */
  ghost predicate Traced(l: Limits, run: seq<Timed>, lag: real, delay: real, s: State) {
    && CacheTraced(l, run, lag, delay, s.cache) && DiskTraced(l, run, delay, s.disk)
    && FetchesTraced(l, run, delay, s.fetches)
  }

  lemma BornStays(l: Limits, run: seq<Timed>, t: Timed, page: Page, at: real)
    requires Born(l, run, page, at)
    ensures Born(l, run + [t], page, at)
  {
    var j: nat :| j < |run| && run[j].at == at && Run(l, run[..j]).Some?
      && PageBorn(Run(l, run[..j]).value, run[j].op) == Some(page);
    var longer := run + [t];
    assert longer[..j] == run[..j] && longer[j] == run[j];
  }

  lemma BornNow(l: Limits, run: seq<Timed>, t: Timed, page: Page)
    requires Run(l, run).Some? && PageBorn(Run(l, run).value, t.op) == Some(page)
    ensures Born(l, run + [t], page, t.at)
  {
    var longer := run + [t];
    assert longer[..|run|] == run && longer[|run|] == t;
  }

  lemma TracedStays(l: Limits, run: seq<Timed>, t: Timed, lag: real, delay: real, s: State)
    requires Traced(l, run, lag, delay, s)
    ensures Traced(l, run + [t], lag, delay, s)
  {
    forall slot | slot in s.cache ensures EntryTraced(l, run + [t], lag, delay, slot.url, s.cache[slot]) {
      var e := s.cache[slot];
      var at :| Born(l, run, e.page, at) && e.expiresAt <= at + l.ttl + DiskSpan(l, lag) + delay;
      BornStays(l, run, t, e.page, at);
    }
    forall u | u in s.disk ensures FileTraced(l, run + [t], delay, u, s.disk[u]) {
      var at :| Born(l, run, s.disk[u].page, at) && s.disk[u].at <= at + delay;
      BornStays(l, run, t, s.disk[u].page, at);
    }
    forall id | id in s.fetches ensures FetchTraced(l, run + [t], delay, s.fetches[id]) {
      FetchStays(l, run, t, delay, s.fetches[id]);
    }
  }

  lemma FetchStays(l: Limits, run: seq<Timed>, t: Timed, delay: real, f: Pc)
    requires FetchTraced(l, run, delay, f)
    ensures FetchTraced(l, run + [t], delay, f)
  {
    match f {
      case Reading(_, _) =>
      case Asking(_) =>
      case Loaded(_, page, clock) =>
        var at :| Born(l, run, page, at) && clock <= at + l.disk.value + delay;
        BornStays(l, run, t, page, at);
      case Fresh(_, page, born) => BornStays(l, run, t, page, born);
      case Putting(_, page, born) => BornStays(l, run, t, page, born);
      case Writing(_, page, born, _) => BornStays(l, run, t, page, born);
    }
  }

  lemma WarmTraced(l: Limits, run: seq<Timed>, lag: real, delay: real, f: Pc, now: real)
    requires f.Loaded? && LoadTraced(l, run, delay, f) && now - f.clock <= lag
    ensures EntryTraced(l, run, lag, delay, f.slot.url, CacheEntry(f.page, now + l.ttl))
  {
    var at :| Born(l, run, f.page, at) && f.page.url == f.slot.url && f.clock <= at + l.disk.value + delay;
    assert Born(l, run, f.page, at) && now + l.ttl <= at + l.ttl + DiskSpan(l, lag) + delay;
  }

  lemma FreshTraced(l: Limits, run: seq<Timed>, lag: real, delay: real, f: Pc, now: real)
    requires f.Fresh? && FetchTraced(l, run, delay, f) && now - f.born <= delay && lag >= 0.0
    ensures EntryTraced(l, run, lag, delay, f.slot.url, CacheEntry(f.page, now + l.ttl))
  {
    assert Born(l, run, f.page, f.born) && now + l.ttl <= f.born + l.ttl + DiskSpan(l, lag) + delay;
  }

  lemma AnswerTraced(l: Limits, run: seq<Timed>, lag: real, delay: real, s: State, slot: Slot, clock: real, page: Page)
    requires Traced(l, run, lag, delay, s) && DiskAnswers(l, s, slot.url, clock, Some(page))
    ensures LoadTraced(l, run, delay, Loaded(slot, page, clock))
  {
    var e := s.disk[slot.url];
    assert FileTraced(l, run, delay, slot.url, e);
    var at :| Born(l, run, e.page, at) && e.page.url == slot.url && e.at <= at + delay;
    assert Born(l, run, page, at) && clock <= at + l.disk.value + delay;
  }

  lemma RenamedTraced(l: Limits, run: seq<Timed>, delay: real, f: Pc)
    requires f.Writing? && f.wrote.Some? && FetchTraced(l, run, delay, f)
    ensures FileTraced(l, run, delay, f.slot.url, Disk.Entry(f.page, f.wrote.value))
  {
    assert Born(l, run, f.page, f.born) && f.wrote.value <= f.born + delay;
  }

  /** The new memory entry, in a state whose contents are traced in the run. */
  lemma StepCacheTraced(l: Limits, run: seq<Timed>, s: State, t: Timed, lag: real, delay: real)
    requires lag >= 0.0 && Enabled(l, s, t) && Keeps(s, t, lag, delay) && Traced(l, run, lag, delay, s)
    ensures CacheTraced(l, run, lag, delay, Do(l, s, t).cache)
  {
    if t.op.Warm? || t.op.Remember? {
      var f := s.fetches[t.op.id];
      assert FetchTraced(l, run, delay, f);
      if t.op.Warm? {
        WarmTraced(l, run, lag, delay, f, t.at);
      } else {
        FreshTraced(l, run, lag, delay, f, t.at);
      }
    }
  }

  lemma StepDiskTraced(l: Limits, run: seq<Timed>, s: State, t: Timed, lag: real, delay: real)
    requires Enabled(l, s, t) && Traced(l, run, lag, delay, s)
    ensures DiskTraced(l, run, delay, Do(l, s, t).disk)
  {
    if t.op.Renamed? {
      assert FetchTraced(l, run, delay, s.fetches[t.op.id]);
      RenamedTraced(l, run, delay, s.fetches[t.op.id]);
    }
  }

  /** A step moves the fetch it belongs to and no other. */
  lemma OthersStay(l: Limits, s: State, t: Timed, id: nat)
    requires Enabled(l, s, t) && id in Do(l, s, t).fetches && (t.op.Forget? || t.op.id != id)
    ensures id in s.fetches && Do(l, s, t).fetches[id] == s.fetches[id]
  {
  }

  lemma ExtractedTraced(l: Limits, run: seq<Timed>, s: State, t: Timed, delay: real)
    requires Enabled(l, s, t) && (t.op.Extract? || t.op.Stream?) && PageBorn(s, t.op).Some?
    requires Born(l, run, PageBorn(s, t.op).value, t.at)
    ensures FetchTraced(l, run, delay, Do(l, s, t).fetches[t.op.id])
  {
  }

  lemma StoringTraced(l: Limits, run: seq<Timed>, s: State, t: Timed, lag: real, delay: real)
    requires Enabled(l, s, t) && Keeps(s, t, lag, delay) && (t.op.Remember? || t.op.Begin? || t.op.Wrote?)
    requires FetchTraced(l, run, delay, s.fetches[t.op.id])
    ensures t.op.id in Do(l, s, t).fetches ==> FetchTraced(l, run, delay, Do(l, s, t).fetches[t.op.id])
  {
  }

  lemma MovedTraced(l: Limits, run: seq<Timed>, s: State, t: Timed, lag: real, delay: real)
    requires Enabled(l, s, t) && Keeps(s, t, lag, delay) && Traced(l, run, lag, delay, s)
    requires PageBorn(s, t.op).Some? ==> Born(l, run, PageBorn(s, t.op).value, t.at)
    requires !t.op.Forget? && t.op.id in Do(l, s, t).fetches
    ensures FetchTraced(l, run, delay, Do(l, s, t).fetches[t.op.id])
  {
    if t.op.Load? {
      if t.op.page.Some? {
        AnswerTraced(l, run, lag, delay, s, s.fetches[t.op.id].slot, t.op.clock, t.op.page.value);
      }
    } else if t.op.Remember? || t.op.Begin? || t.op.Wrote? {
      StoringTraced(l, run, s, t, lag, delay);
    } else if t.op.Extract? || t.op.Stream? {
      ExtractedTraced(l, run, s, t, delay);
    }
  }

  lemma StepFetchesTraced(l: Limits, run: seq<Timed>, s: State, t: Timed, lag: real, delay: real)
    requires Enabled(l, s, t) && Keeps(s, t, lag, delay) && Traced(l, run, lag, delay, s)
    requires PageBorn(s, t.op).Some? ==> Born(l, run, PageBorn(s, t.op).value, t.at)
    ensures FetchesTraced(l, run, delay, Do(l, s, t).fetches)
  {
    forall id | id in Do(l, s, t).fetches ensures FetchTraced(l, run, delay, Do(l, s, t).fetches[id]) {
      if !t.op.Forget? && t.op.id == id {
        MovedTraced(l, run, s, t, lag, delay);
      } else {
        OthersStay(l, s, t, id);
      }
    }
  }

  lemma StepTraced(l: Limits, run: seq<Timed>, t: Timed, lag: real, delay: real)
    requires lag >= 0.0 && Run(l, run).Some? && Enabled(l, Run(l, run).value, t)
    requires Keeps(Run(l, run).value, t, lag, delay) && Traced(l, run, lag, delay, Run(l, run).value)
    ensures Traced(l, run + [t], lag, delay, Do(l, Run(l, run).value, t))
  {
    var s := Run(l, run).value;
    TracedStays(l, run, t, lag, delay, s);
    if PageBorn(s, t.op).Some? {
      BornNow(l, run, t, PageBorn(s, t.op).value);
    }
    StepCacheTraced(l, run + [t], s, t, lag, delay);
    StepDiskTraced(l, run + [t], s, t, lag, delay);
    StepFetchesTraced(l, run + [t], s, t, lag, delay);
  }

  lemma PromptPrefix(l: Limits, run: seq<Timed>, t: Timed, lag: real, delay: real)
    requires Prompt(l, run + [t], lag, delay)
    ensures Prompt(l, run, lag, delay)
    ensures Run(l, run).Some? ==> Keeps(Run(l, run).value, t, lag, delay)
  {
    assert (run + [t])[..|run|] == run;
  }

  lemma {:induction false} RunTraced(l: Limits, run: seq<Timed>, lag: real, delay: real)
    requires lag >= 0.0 && Run(l, run).Some? && Prompt(l, run, lag, delay)
    ensures Traced(l, run, lag, delay, Run(l, run).value)
  {
    if run != [] {
      var before, t := run[..|run| - 1], run[|run| - 1];
      assert before + [t] == run;
      RunSnoc(l, before, t);
      PromptPrefix(l, before, t, lag, delay);
      RunTraced(l, before, lag, delay);
      StepTraced(l, before, t, lag, delay);
    }
  }

  /** The last step of the run returns a page. */
  predicate Returns(l: Limits, run: seq<Timed>) {
    && run != [] && Run(l, run).Some? && Run(l, run[..|run| - 1]).Some?
    && Enabled(l, Run(l, run[..|run| - 1]).value, run[|run| - 1])
    && var r := ReturnOf(l, Run(l, run[..|run| - 1]).value, run[|run| - 1]);
       r.Some? && r.value.result.Ok?
  }

  function ReturnedPage(l: Limits, run: seq<Timed>): Page
    requires Returns(l, run)
  {
    ReturnOf(l, Run(l, run[..|run| - 1]).value, run[|run| - 1]).value.result.page
  }

  function ReturnedUrl(l: Limits, run: seq<Timed>): string
    requires Returns(l, run)
  {
    ReturnOf(l, Run(l, run[..|run| - 1]).value, run[|run| - 1]).value.url
  }

  /** Born at some time such that its age now is less than both TTLs, the lag and the delay together, or at most
      that without the memory TTL. */
  ghost predicate Young(l: Limits, run: seq<Timed>, lag: real, delay: real, page: Page, now: real) {
    exists at :: Born(l, run, page, at)
      && (now - at < l.ttl + DiskSpan(l, lag) + delay || now - at <= DiskSpan(l, lag) + delay)
  }

  lemma HitYoung(l: Limits, run: seq<Timed>, lag: real, delay: real, url: string, e: CacheEntry, now: real)
    requires EntryTraced(l, run, lag, delay, url, e) && now < e.expiresAt
    ensures e.page.url == url && Young(l, run, lag, delay, e.page, now)
  {
    var at :| Born(l, run, e.page, at) && e.page.url == url && e.expiresAt <= at + l.ttl + DiskSpan(l, lag) + delay;
    assert now - at < l.ttl + DiskSpan(l, lag) + delay;
  }

  lemma WarmYoung(l: Limits, run: seq<Timed>, lag: real, delay: real, f: Pc, now: real)
    requires f.Loaded? && LoadTraced(l, run, delay, f) && now - f.clock <= lag
    ensures f.page.url == f.slot.url && Young(l, run, lag, delay, f.page, now)
  {
    var at :| Born(l, run, f.page, at) && f.page.url == f.slot.url && f.clock <= at + l.disk.value + delay;
    assert now - at <= DiskSpan(l, lag) + delay;
  }

  lemma FreshYoung(l: Limits, run: seq<Timed>, lag: real, delay: real, f: Pc, now: real)
    requires lag >= 0.0 && (f.Fresh? || f.Putting? || f.Writing?)
    requires FetchTraced(l, run, delay, f) && now - f.born <= delay
    ensures f.page.url == f.slot.url && Young(l, run, lag, delay, f.page, now)
  {
    assert Born(l, run, f.page, f.born) && now - f.born <= DiskSpan(l, lag) + delay;
  }

  /** Staleness, over every interleaving: a page returned for a URL was extracted from the origin for that URL
      and is young. */
  lemma Staleness(l: Limits, run: seq<Timed>, lag: real, delay: real)
    requires lag >= 0.0 && Prompt(l, run, lag, delay) && Returns(l, run)
    ensures ReturnedPage(l, run).url == ReturnedUrl(l, run)
    ensures Young(l, run, lag, delay, ReturnedPage(l, run), run[|run| - 1].at)
  {
    var before, t := run[..|run| - 1], run[|run| - 1];
    var s := Run(l, before).value;
    assert before + [t] == run;
    PromptPrefix(l, before, t, lag, delay);
    RunTraced(l, before, lag, delay);
    TracedStays(l, before, t, lag, delay, s);
    if t.op.Look? {
      HitYoung(l, run, lag, delay, t.op.slot.url, s.cache[t.op.slot], t.at);
    } else {
      var f := s.fetches[t.op.id];
      assert FetchTraced(l, run, delay, f);
      if t.op.Warm? {
        WarmYoung(l, run, lag, delay, f, t.at);
      } else {
        FreshYoung(l, run, lag, delay, f, t.at);
      }
    }
  }

  // ---- The bound is exact ---------------------------------------------------------------

  /** Every page that a prompt run returns is younger than both TTLs, lag and delay together. */
  ghost predicate AlwaysBelow(l: Limits, lag: real, delay: real) {
    forall run: seq<Timed> :: Prompt(l, run, lag, delay) && Returns(l, run) ==>
      exists at :: Born(l, run, ReturnedPage(l, run), at)
        && run[|run| - 1].at - at < l.ttl + DiskSpan(l, lag) + delay
  }

  /** The run keeps to lag and delay and ends in state s, its last step not after now. */
  predicate Reaches(l: Limits, run: seq<Timed>, lag: real, delay: real, s: State, now: real) {
    Run(l, run) == Some(s) && Prompt(l, run, lag, delay) && (run != [] ==> run[|run| - 1].at <= now)
  }

  lemma Extends(l: Limits, run: seq<Timed>, lag: real, delay: real, s: State, t: Timed)
    requires Reaches(l, run, lag, delay, s, t.at) && Enabled(l, s, t) && Keeps(s, t, lag, delay)
    ensures Reaches(l, run + [t], lag, delay, Do(l, s, t), t.at)
    ensures ReturnOf(l, s, t).Some? && ReturnOf(l, s, t).value.result.Ok? ==> Returns(l, run + [t])
  {
    assert (run + [t])[..|run|] == run && (run + [t])[|run|] == t;
  }

  const SLOT: Slot := Slot(0, "u")

  /** A page extracted at time 0 that reaches memory after the delay. */
  function FirstSteps(doc: Dom.Node, delay: real): seq<Timed> {
    [Timed(0.0, Stream(1, SLOT, doc))] + [Timed(delay, Remember(1))]
  }

  function Memory(l: Limits, page: Page, delay: real): map<Slot, CacheEntry> {
    map[SLOT := CacheEntry(page, delay + l.ttl)]
  }

  lemma AfterStream(l: Limits, doc: Dom.Node, lag: real, delay: real)
    ensures Reaches(l, [Timed(0.0, Stream(1, SLOT, doc))], lag, delay,
                    State(map[], map[], map[1 := Fresh(SLOT, Extracted("u", doc), 0.0)]), 0.0)
  {
    var t := Timed(0.0, Stream(1, SLOT, doc));
    Extends(l, [], lag, delay, EMPTY, t);
    assert [] + [t] == [t];
  }

  lemma AfterRemember(l: Limits, run: seq<Timed>, page: Page, lag: real, delay: real)
    requires delay >= 0.0
    requires Reaches(l, run, lag, delay, State(map[], map[], map[1 := Fresh(SLOT, page, 0.0)]), 0.0)
    ensures Reaches(l, run + [Timed(delay, Remember(1))], lag, delay,
                    State(Memory(l, page, delay), map[],
                          if l.disk.Some? then map[1 := Putting(SLOT, page, 0.0)] else map[]), delay)
    ensures l.disk.None? ==> Returns(l, run + [Timed(delay, Remember(1))])
  {
    var s := State(map[], map[], map[1 := Fresh(SLOT, page, 0.0)]);
    var t := Timed(delay, Remember(1));
    Extends(l, run, lag, delay, s, t);
    assert s.fetches - {1} == map[];
    assert Do(l, s, t).cache == Memory(l, page, delay);
    assert Do(l, s, t).fetches == if l.disk.Some? then map[1 := Putting(SLOT, page, 0.0)] else map[];
  }

  lemma AfterFirstSteps(l: Limits, doc: Dom.Node, lag: real, delay: real)
    requires delay >= 0.0
    ensures var page := Extracted("u", doc);
      Reaches(l, FirstSteps(doc, delay), lag, delay,
              State(Memory(l, page, delay), map[], if l.disk.Some? then map[1 := Putting(SLOT, page, 0.0)] else map[]),
              delay)
    ensures l.disk.None? ==> Returns(l, FirstSteps(doc, delay))
  {
    AfterStream(l, doc, lag, delay);
    AfterRemember(l, [Timed(0.0, Stream(1, SLOT, doc))], Extracted("u", doc), lag, delay);
  }

  /** If the disk write fails, the page is returned then. */
  lemma AfterGiveUp(l: Limits, run: seq<Timed>, page: Page, lag: real, delay: real)
    requires Reaches(l, run, lag, delay,
                     State(Memory(l, page, delay), map[], map[1 := Putting(SLOT, page, 0.0)]), delay)
    ensures var t := Timed(delay, GiveUp(1)); Prompt(l, run + [t], lag, delay) && Returns(l, run + [t])
  {
    Extends(l, run, lag, delay, State(Memory(l, page, delay), map[], map[1 := Putting(SLOT, page, 0.0)]),
            Timed(delay, GiveUp(1)));
  }

  /** The page goes to disk with the same delay. */
  function WithPut(run: seq<Timed>, delay: real): seq<Timed> {
    run + [Timed(delay, Begin(1))] + [Timed(delay, Wrote(1))] + [Timed(delay, Renamed(1))]
  }

  lemma AfterPut(l: Limits, run: seq<Timed>, page: Page, lag: real, delay: real)
    requires Reaches(l, run, lag, delay,
                     State(Memory(l, page, delay), map[], map[1 := Putting(SLOT, page, 0.0)]), delay)
    ensures Reaches(l, WithPut(run, delay), lag, delay,
                    State(Memory(l, page, delay), map["u" := Disk.Entry(page, delay)], map[]), delay)
  {
    var memory := Memory(l, page, delay);
    var s := State(memory, map[], map[1 := Putting(SLOT, page, 0.0)]);
    var begin, wrote := Timed(delay, Begin(1)), Timed(delay, Wrote(1));
    Extends(l, run, lag, delay, s, begin);
    var s1 := State(memory, map[], map[1 := Writing(SLOT, page, 0.0, None)]);
    assert Do(l, s, begin) == s1;
    Extends(l, run + [begin], lag, delay, s1, wrote);
    var s2 := State(memory, map[], map[1 := Writing(SLOT, page, 0.0, Some(delay))]);
    assert Do(l, s1, wrote) == s2;
    Extends(l, run + [begin] + [wrote], lag, delay, s2, Timed(delay, Renamed(1)));
    assert s2.fetches - {1} == map[];
  }

  /** A second fetch finds the memory entry expired, loads the page just before it expires on disk, and takes
      the whole lag to warm memory with it. */
  function WithLoad(run: seq<Timed>, page: Page, delay: real, ttl: real, lag: real): seq<Timed> {
    run + [Timed(delay, Look(2, SLOT))] + [Timed(delay + ttl, Load(2, delay + ttl, Some(page)))]
    + [Timed(delay + ttl + lag, Warm(2))]
  }

  lemma ReachesLater(l: Limits, run: seq<Timed>, lag: real, delay: real, s: State, before: real, now: real)
    requires Reaches(l, run, lag, delay, s, before) && before <= now
    ensures Reaches(l, run, lag, delay, s, now)
  {
  }

  lemma AfterLook(l: Limits, run: seq<Timed>, page: Page, lag: real, delay: real, disk: map<string, Disk.Entry>)
    requires l.disk.Some? && l.disk.value >= 0.0 && l.ttl <= 0.0
    requires Reaches(l, run, lag, delay, State(Memory(l, page, delay), disk, map[]), delay)
    ensures Reaches(l, run + [Timed(delay, Look(2, SLOT))], lag, delay,
                    State(Memory(l, page, delay), disk, map[2 := Reading(SLOT, delay)]), delay + l.disk.value)
  {
    var s, look := State(Memory(l, page, delay), disk, map[]), Timed(delay, Look(2, SLOT));
    Extends(l, run, lag, delay, s, look);
    ReachesLater(l, run + [look], lag, delay, Do(l, s, look), delay, delay + l.disk.value);
  }

  lemma AfterHit(l: Limits, run: seq<Timed>, page: Page, lag: real, delay: real, cache: map<Slot, CacheEntry>)
    requires l.disk.Some? && l.disk.value >= 0.0
    requires Reaches(l, run, lag, delay,
                     State(cache, map["u" := Disk.Entry(page, delay)], map[2 := Reading(SLOT, delay)]),
                     delay + l.disk.value)
    ensures var clock := delay + l.disk.value;
      Reaches(l, run + [Timed(clock, Load(2, clock, Some(page)))], lag, delay,
              State(cache, map["u" := Disk.Entry(page, delay)], map[2 := Loaded(SLOT, page, clock)]), clock)
  {
    var s := State(cache, map["u" := Disk.Entry(page, delay)], map[2 := Reading(SLOT, delay)]);
    var clock := delay + l.disk.value;
    var load := Timed(clock, Load(2, clock, Some(page)));
    Extends(l, run, lag, delay, s, load);
    assert Do(l, s, load).fetches == map[2 := Loaded(SLOT, page, clock)];
  }

  lemma WarmReturns(l: Limits, run: seq<Timed>, page: Page, lag: real, delay: real, cache: map<Slot, CacheEntry>,
                    disk: map<string, Disk.Entry>, clock: real)
    requires lag >= 0.0
    requires Reaches(l, run, lag, delay, State(cache, disk, map[2 := Loaded(SLOT, page, clock)]), clock)
    ensures var warm := Timed(clock + lag, Warm(2)); Prompt(l, run + [warm], lag, delay) && Returns(l, run + [warm])
  {
    var s := State(cache, disk, map[2 := Loaded(SLOT, page, clock)]);
    ReachesLater(l, run, lag, delay, s, clock, clock + lag);
    Extends(l, run, lag, delay, s, Timed(clock + lag, Warm(2)));
  }

  lemma AfterLoad(l: Limits, run: seq<Timed>, page: Page, lag: real, delay: real)
    requires lag >= 0.0 && l.disk.Some? && l.disk.value >= 0.0 && l.ttl <= 0.0
    requires Reaches(l, run, lag, delay,
                     State(Memory(l, page, delay), map["u" := Disk.Entry(page, delay)], map[]), delay)
    ensures var loaded := WithLoad(run, page, delay, l.disk.value, lag);
      Prompt(l, loaded, lag, delay) && Returns(l, loaded)
  {
    var memory, disk, clock := Memory(l, page, delay), map["u" := Disk.Entry(page, delay)], delay + l.disk.value;
    var look, load := Timed(delay, Look(2, SLOT)), Timed(clock, Load(2, clock, Some(page)));
    AfterLook(l, run, page, lag, delay, disk);
    AfterHit(l, run + [look], page, lag, delay, memory);
    WarmReturns(l, run + [look] + [load], page, lag, delay, memory, disk, clock);
  }

  predicate BirthsFirst(run: seq<Timed>) {
    && run != [] && run[0].at == 0.0
    && forall j :: 1 <= j < |run| ==> !run[j].op.Extract? && !run[j].op.Stream?
  }

  lemma BirthsFirstSnoc(run: seq<Timed>, t: Timed)
    requires BirthsFirst(run) && !t.op.Extract? && !t.op.Stream?
    ensures BirthsFirst(run + [t])
  {
  }

  lemma BirthsFirstPut(run: seq<Timed>, delay: real)
    requires BirthsFirst(run)
    ensures BirthsFirst(WithPut(run, delay))
  {
    var begin, wrote := Timed(delay, Begin(1)), Timed(delay, Wrote(1));
    BirthsFirstSnoc(run, begin);
    BirthsFirstSnoc(run + [begin], wrote);
    BirthsFirstSnoc(run + [begin] + [wrote], Timed(delay, Renamed(1)));
  }

  lemma BirthsFirstLoad(run: seq<Timed>, page: Page, delay: real, ttl: real, lag: real)
    requires BirthsFirst(run)
    ensures BirthsFirst(WithLoad(run, page, delay, ttl, lag))
  {
    var look, load := Timed(delay, Look(2, SLOT)), Timed(delay + ttl, Load(2, delay + ttl, Some(page)));
    BirthsFirstSnoc(run, look);
    BirthsFirstSnoc(run + [look], load);
    BirthsFirstSnoc(run + [look] + [load], Timed(delay + ttl + lag, Warm(2)));
  }

  lemma BornAtZero(l: Limits, run: seq<Timed>, page: Page, at: real)
    requires BirthsFirst(run) && Born(l, run, page, at)
    ensures at == 0.0
  {
    var j: nat :| j < |run| && run[j].at == at && Run(l, run[..j]).Some?
      && PageBorn(Run(l, run[..j]).value, run[j].op) == Some(page);
  }

  const BLANK_DOC: Dom.Node := Dom.Node(Dom.Other, "", [])

  /** A run in which a page is returned at an age of disk TTL, lag and delay together. */
  function BoundaryRun(l: Limits, lag: real, delay: real): seq<Timed> {
    var first := FirstSteps(BLANK_DOC, delay);
    if l.disk.None? then first
    else if l.disk.value < 0.0 then first + [Timed(delay, GiveUp(1))]
    else WithLoad(WithPut(first, delay), Extracted("u", BLANK_DOC), delay, l.disk.value, lag)
  }

  lemma BoundaryRuns(l: Limits, lag: real, delay: real)
    requires lag >= 0.0 && delay >= 0.0 && l.ttl <= 0.0
    ensures var run := BoundaryRun(l, lag, delay); Prompt(l, run, lag, delay) && Returns(l, run)
  {
    var first, page := FirstSteps(BLANK_DOC, delay), Extracted("u", BLANK_DOC);
    AfterFirstSteps(l, BLANK_DOC, lag, delay);
    if l.disk.Some? && l.disk.value < 0.0 {
      AfterGiveUp(l, first, page, lag, delay);
    } else if l.disk.Some? {
      AfterPut(l, first, page, lag, delay);
      AfterLoad(l, WithPut(first, delay), page, lag, delay);
    }
  }

  lemma BoundaryShape(l: Limits, lag: real, delay: real)
    ensures var run := BoundaryRun(l, lag, delay);
      BirthsFirst(run) && run[|run| - 1].at == DiskSpan(l, lag) + delay
  {
    var first := FirstSteps(BLANK_DOC, delay);
    assert BirthsFirst(first);
    if l.disk.Some? && l.disk.value < 0.0 {
      BirthsFirstSnoc(first, Timed(delay, GiveUp(1)));
    } else if l.disk.Some? {
      BirthsFirstPut(first, delay);
      BirthsFirstLoad(WithPut(first, delay), Extracted("u", BLANK_DOC), delay, l.disk.value, lag);
    }
  }

  /** With a memory TTL that is not positive a page can be returned at the full age. */
  lemma BoundaryReached(l: Limits, lag: real, delay: real)
    requires lag >= 0.0 && delay >= 0.0 && l.ttl <= 0.0
    ensures !AlwaysBelow(l, lag, delay)
  {
    var run := BoundaryRun(l, lag, delay);
    BoundaryRuns(l, lag, delay);
    BoundaryShape(l, lag, delay);
    var page := ReturnedPage(l, run);
    forall at | Born(l, run, page, at) ensures at == 0.0 {
      BornAtZero(l, run, page, at);
    }
  }

  /** For all lags and delays: the age stays below both TTLs, lag and delay together, over every run that keeps
      to them, exactly if the memory TTL is positive. With neither lag nor delay these are the TTLs alone. */
  lemma AlwaysBelowIff(l: Limits, lag: real, delay: real)
    requires lag >= 0.0 && delay >= 0.0
    ensures AlwaysBelow(l, lag, delay) <==> l.ttl > 0.0
  {
    if l.ttl > 0.0 {
      forall run: seq<Timed> | Prompt(l, run, lag, delay) && Returns(l, run)
        ensures exists at :: Born(l, run, ReturnedPage(l, run), at)
                  && run[|run| - 1].at - at < l.ttl + DiskSpan(l, lag) + delay
      {
        Staleness(l, run, lag, delay);
      }
    } else {
      BoundaryReached(l, lag, delay);
    }
  }
}
