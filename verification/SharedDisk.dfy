/** The fetches of module FetchRuns on the files of module DiskRuns: what FetchRuns lets the disk answer is what
    the steps of Put, Get and GC on the files do. */
module SharedDisk {
  import opened FetchRuns
  import opened Fetcher
  import opened Options
  import opened Readability
  import Disk = DiskRuns

  /** The step on the files, if any, that a step of a fetch takes. */
  function DiskOp(s: State, op: Op): Option<Disk.Op> {
    if op.Forget? || op.id !in s.fetches then None
    else
      var f := s.fetches[op.id];
      match op
      case Begin(_) => if f.Putting? then Some(Disk.Begin(f.slot.url, f.page)) else None
      case Wrote(_) => Some(Disk.Wrote(f.slot.url))
      case Renamed(_) => Some(Disk.Renamed(f.slot.url))
      case GiveUp(_) => if f.Writing? then Some(Disk.GaveUp(f.slot.url)) else None
      case Kill(_) => if f.Writing? then Some(Disk.GaveUp(f.slot.url)) else None
      case _ => None
  }

  /** The steps on the files that a run of fetches takes. */
  function DiskSteps(l: Limits, run: seq<Timed>): seq<Disk.Timed>
    requires Run(l, run).Some?
  {
    if run == [] then []
    else
      var before, t := run[..|run| - 1], run[|run| - 1];
      var op := DiskOp(Run(l, before).value, t.op);
      DiskSteps(l, before) + if op.Some? then [Disk.Timed(t.at, op.value)] else []
  }

  predicate Writes(s: State, id: nat) {
    id in s.fetches && s.fetches[id].Writing?
  }

  /** Whoever writes has the put that is pending for its URL. */
  ghost predicate PutsPending(s: State, r: Disk.Reference) {
    forall id :: Writes(s, id) ==>
      && s.fetches[id].slot.url in r.pending
      && r.pending[s.fetches[id].slot.url] == Disk.Pending(s.fetches[id].page, s.fetches[id].wrote)
  }

  /** One fetch at most writes a URL. */
  ghost predicate WritersDiffer(s: State) {
    forall id, other ::
      (Writes(s, id) && Writes(s, other) && s.fetches[id].slot.url == s.fetches[other].slot.url) ==> id == other
  }

  ghost predicate PendingWritten(s: State, r: Disk.Reference) {
    forall u :: u in r.pending ==> BeingWritten(s, u)
  }

  ghost predicate Joined(s: State, r: Disk.Reference) {
    s.disk == r.latest && PutsPending(s, r) && WritersDiffer(s) && PendingWritten(s, r)
  }

  function RefNext(s: State, r: Disk.Reference, t: Timed): Disk.Reference {
    if DiskOp(s, t.op).Some? then Disk.RefDo(r, Disk.Timed(t.at, DiskOp(s, t.op).value)) else r
  }

  /** If the writers of all URLs but one stay, so do their pending puts. */
  lemma OthersWritten(s: State, r: Disk.Reference, s': State, r': Disk.Reference, url: string)
    requires PendingWritten(s, r) && (url in r'.pending ==> BeingWritten(s', url))
    requires forall u :: u in r'.pending && u != url ==> u in r.pending
    requires forall id :: Writes(s, id) && s.fetches[id].slot.url != url ==>
      Writes(s', id) && s'.fetches[id].slot.url == s.fetches[id].slot.url
    ensures PendingWritten(s', r')
  {
    forall u | u in r'.pending ensures BeingWritten(s', u) {
      if u != url {
        var id :| Writes(s, id) && s.fetches[id].slot.url == u;
        assert Writes(s', id);
      }
    }
  }

  /** Steps that write no file. */
  lemma OtherJoined(l: Limits, s: State, r: Disk.Reference, t: Timed)
    requires Enabled(l, s, t) && Joined(s, r) && DiskOp(s, t.op).None?
    ensures Joined(Do(l, s, t), r)
  {
    var s' := Do(l, s, t);
    forall id ensures Writes(s', id) <==> Writes(s, id)
      ensures Writes(s, id) ==> s'.fetches[id] == s.fetches[id]
    {
    }
    forall u | u in r.pending ensures BeingWritten(s', u) {
      var id :| Writes(s, id) && s.fetches[id].slot.url == u;
      assert Writes(s', id);
    }
  }

  lemma BeginDiffers(l: Limits, s: State, r: Disk.Reference, t: Timed)
    requires Enabled(l, s, t) && Joined(s, r) && t.op.Begin?
    ensures PutsPending(Do(l, s, t), RefNext(s, r, t)) && WritersDiffer(Do(l, s, t))
  {
    assert s.fetches[t.op.id].slot.url !in r.pending;
  }

  lemma BeginJoined(l: Limits, s: State, r: Disk.Reference, t: Timed)
    requires Enabled(l, s, t) && Joined(s, r) && t.op.Begin?
    ensures Joined(Do(l, s, t), RefNext(s, r, t))
  {
    BeginDiffers(l, s, r, t);
    assert Writes(Do(l, s, t), t.op.id);
    OthersWritten(s, r, Do(l, s, t), RefNext(s, r, t), s.fetches[t.op.id].slot.url);
  }

  lemma WroteDiffers(l: Limits, s: State, r: Disk.Reference, t: Timed)
    requires Enabled(l, s, t) && Joined(s, r) && t.op.Wrote?
    ensures PutsPending(Do(l, s, t), RefNext(s, r, t)) && WritersDiffer(Do(l, s, t))
  {
    assert Writes(s, t.op.id);
  }

  lemma WroteJoined(l: Limits, s: State, r: Disk.Reference, t: Timed)
    requires Enabled(l, s, t) && Joined(s, r) && t.op.Wrote?
    ensures Joined(Do(l, s, t), RefNext(s, r, t))
  {
    WroteDiffers(l, s, r, t);
    assert Writes(Do(l, s, t), t.op.id);
    OthersWritten(s, r, Do(l, s, t), RefNext(s, r, t), s.fetches[t.op.id].slot.url);
  }

  /** The end of a put, by its rename or without. */
  predicate Ends(s: State, op: Op) {
    (op.Renamed? || op.GiveUp? || op.Kill?) && Writes(s, op.id)
  }

  lemma EndDiffers(l: Limits, s: State, r: Disk.Reference, t: Timed)
    requires Enabled(l, s, t) && Joined(s, r) && Ends(s, t.op)
    ensures Do(l, s, t).disk == RefNext(s, r, t).latest
    ensures RefNext(s, r, t).pending == r.pending - {s.fetches[t.op.id].slot.url}
    ensures PutsPending(Do(l, s, t), RefNext(s, r, t)) && WritersDiffer(Do(l, s, t))
  {
    assert forall id :: Writes(Do(l, s, t), id) ==> Writes(s, id) && id != t.op.id;
  }

  lemma EndJoined(l: Limits, s: State, r: Disk.Reference, t: Timed)
    requires Enabled(l, s, t) && Joined(s, r) && Ends(s, t.op)
    ensures Joined(Do(l, s, t), RefNext(s, r, t))
  {
    EndDiffers(l, s, r, t);
    OthersWritten(s, r, Do(l, s, t), RefNext(s, r, t), s.fetches[t.op.id].slot.url);
  }

  lemma StepJoined(l: Limits, s: State, r: Disk.Reference, t: Timed)
    requires Enabled(l, s, t) && Joined(s, r)
    ensures Joined(Do(l, s, t), RefNext(s, r, t))
  {
    if DiskOp(s, t.op).None? {
      OtherJoined(l, s, r, t);
    } else if t.op.Begin? {
      BeginJoined(l, s, r, t);
    } else if t.op.Wrote? {
      WroteJoined(l, s, r, t);
    } else {
      EndJoined(l, s, r, t);
    }
  }

  /** Over every run, the disk as the fetches see it is the map that their puts make. */
  lemma {:induction false} RunJoined(l: Limits, run: seq<Timed>)
    requires Run(l, run).Some?
    ensures Joined(Run(l, run).value, Disk.RefAfter(DiskSteps(l, run)))
  {
    if run != [] {
      var before, t := run[..|run| - 1], run[|run| - 1];
      RunJoined(l, before);
      StepJoined(l, Run(l, before).value, Disk.RefAfter(DiskSteps(l, before)), t);
      var steps, op := DiskSteps(l, before), DiskOp(Run(l, before).value, t.op);
      if op.Some? {
        Disk.RefSnoc(steps, Disk.Timed(t.at, op.value));
      } else {
        assert steps + [] == steps;
      }
    }
  }

  /** What a Get on the files answers the fetch may load: for any run of fetches, any run of the files that takes
      the fetches' steps, with any readers and collectors in between, races included, and any answer of it. */
  lemma ReadAllowed(l: Limits, ttl: real, run: seq<Timed>, files: seq<Disk.Timed>, k: nat, id: nat)
    requires l.disk == Some(ttl) && Run(l, run).Some?
    requires Disk.ClockOrdered(files) && k < |files| && Disk.Unvisited(files[..k]) == DiskSteps(l, run)
    requires Disk.AnswerAt(ttl, files, k).Some?
    requires var f := Run(l, run).value.fetches;
      && id in f && f[id].Reading? && f[id].slot.url == Disk.AnswerAt(ttl, files, k).value.url
      && f[id].since <= files[Disk.AskedFrom(ttl, files, k)].at
    ensures exists clock ::
      Enabled(l, Run(l, run).value, Timed(files[k].at, Load(id, clock, Disk.AnswerAt(ttl, files, k).value.page)))
  {
    var s, a, i := Run(l, run).value, Disk.AnswerAt(ttl, files, k).value, Disk.AskedFrom(ttl, files, k);
    RunJoined(l, run);
    Disk.UnvisitedKeepsMap(files[..k]);
    if a.page.Some? {
      Disk.ReadReturnsLatest(ttl, files, k);
      var clock :| Disk.Asked(ttl, files, i, k, a.url, a.page, k, clock);
      assert Enabled(l, s, Timed(files[k].at, Load(id, clock, a.page)));
    } else {
      assert Enabled(l, s, Timed(files[k].at, Load(id, files[k].at, None)));
    }
  }
}
