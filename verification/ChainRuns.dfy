/** chain/chain.go under concurrency: any number of searches share the breakers and limiters of a
    chain's entries. Each locked section is one atomic move; between moves any other search may act. */
module ChainRuns {
  import opened Options
  import opened CircuitBreaker
  import opened Fallback
  import opened TokenBucket
  import opened RateLimit

  datatype Config = Config(retries: int, rps: real)

  /** What searches share about an entry. */
  datatype Shared = Shared(breaker: Breaker, bucket: Bucket)

  datatype System = System(entries: seq<Shared>, searches: map<nat, Pc>, now: real)

  /** A search begins, is refused a token by a limiter (and goes to sleep), or does its next event. */
  datatype Move = Start(id: nat) | Refuse(id: nat, entry: nat) | Act(id: nat, ev: Event)

  datatype Stamped = Stamped(at: real, move: Move)

  function Retries(cfg: seq<Config>): (rs: seq<int>)
    ensures |rs| == |cfg| && forall i :: 0 <= i < |cfg| ==> rs[i] == cfg[i].retries
  {
    if cfg == [] then [] else Retries(cfg[..|cfg| - 1]) + [cfg[|cfg| - 1].retries]
  }

  function FullBucket(c: Config, t0: real): Bucket {
    Bucket(EffectiveRate(c.rps), t0)
  }

  function Initial(cfg: seq<Config>, t0: real): System {
    System(seq(|cfg|, i requires 0 <= i < |cfg| => Shared(NEW_BREAKER, FullBucket(cfg[i], t0))), map[], t0)
  }

  /** An event's effect on its entry at time t; None if the entry's state does not allow it then. */
  function Touch(c: Config, s: Shared, ev: Event, t: real): Option<Shared> {
    match ev
    case Skipped(_) => if IsOpen(s.breaker, t) then Some(s) else None
    case Passed(_) => if IsOpen(s.breaker, t) then None else Some(s)
    case Granted(_) =>
      var v := TokenBucket.Visit(s.bucket, ParamsFor(c.rps), t);
      if v.granted then Some(s.(bucket := v.bucket)) else None
    case Recorded(_) => Some(s.(breaker := OnFailure(s.breaker, t)))
    case Won(_) => Some(s.(breaker := OnSuccess(s.breaker)))
    case _ => Some(s)
  }

  /** A refusal refills the bucket, too. */
  function Refused(c: Config, s: Shared, t: real): Option<Shared> {
    var v := TokenBucket.Visit(s.bucket, ParamsFor(c.rps), t);
    if v.granted then None else Some(s.(bucket := v.bucket))
  }

  function Do(cfg: seq<Config>, s: System, m: Stamped): Option<System>
    requires |s.entries| == |cfg|
  {
    if m.at < s.now then None
    else
      match m.move
      case Start(id) =>
        if id in s.searches then None
        else Some(System(s.entries, s.searches[id := Enter(Retries(cfg), 0)], m.at))
      case Refuse(id, e) =>
        if id in s.searches && s.searches[id].Waiting? && s.searches[id].i == e < |cfg| then
          var r := Refused(cfg[e], s.entries[e], m.at);
          if r.None? then None else Some(System(s.entries[e := r.value], s.searches, m.at))
        else None
      case Act(id, ev) =>
        if id in s.searches && ev.entry < |cfg| && Next(Retries(cfg), s.searches[id], ev).Some? then
          var r := Touch(cfg[ev.entry], s.entries[ev.entry], ev, m.at);
          if r.None? then None
          else Some(System(s.entries[ev.entry := r.value],
                           s.searches[id := Next(Retries(cfg), s.searches[id], ev).value], m.at))
        else None
  }

  /** The system after a run, None if some move of it was not possible. */
  function Run(cfg: seq<Config>, t0: real, run: seq<Stamped>): (r: Option<System>)
    ensures r.Some? ==> |r.value.entries| == |cfg|
  {
    if run == [] then Some(Initial(cfg, t0))
    else
      var s := Run(cfg, t0, run[..|run| - 1]);
      if s.None? then None else Do(cfg, s.value, run[|run| - 1])
  }

  // ---- What a run did to one entry, and to one search -----------------------------------

  function RecordOf(m: Stamped, e: nat): seq<Record> {
    if m.move.Act? && m.move.ev == Recorded(e) then [Record(true, m.at)]
    else if m.move.Act? && m.move.ev == Won(e) then [Record(false, m.at)]
    else []
  }

  function RecordsOf(run: seq<Stamped>, e: nat): seq<Record> {
    if run == [] then [] else RecordsOf(run[..|run| - 1], e) + RecordOf(run[|run| - 1], e)
  }

  function PollOf(m: Stamped, e: nat): seq<real> {
    if (m.move.Act? && m.move.ev == Granted(e)) || (m.move.Refuse? && m.move.entry == e) then [m.at] else []
  }

  function PollsOf(run: seq<Stamped>, e: nat): seq<real> {
    if run == [] then [] else PollsOf(run[..|run| - 1], e) + PollOf(run[|run| - 1], e)
  }

  function LogOf(run: seq<Stamped>, id: nat): seq<Event> {
    if run == [] then []
    else
      var m := run[|run| - 1].move;
      LogOf(run[..|run| - 1], id) + if m.Act? && m.id == id then [m.ev] else []
  }

  lemma {:induction false} ActInLog(run: seq<Stamped>, id: nat, k: nat)
    requires k < |run| && run[k].move.Act? && run[k].move.id == id
    ensures run[k].move.ev in LogOf(run, id)
  {
    if k < |run| - 1 {
      ActInLog(run[..|run| - 1], id, k);
    }
  }

  function GrantsOf(run: seq<Stamped>, e: nat): nat {
    if run == [] then 0
    else
      var m := run[|run| - 1].move;
      GrantsOf(run[..|run| - 1], e) + if m.Act? && m.ev == Granted(e) then 1 else 0
  }

  function CallsOf(run: seq<Stamped>, e: nat): nat {
    if run == [] then 0
    else
      var m := run[|run| - 1].move;
      CallsOf(run[..|run| - 1], e) + if m.Act? && m.ev.Called? && m.ev.entry == e then 1 else 0
  }

  // ---- Every search follows the contract, whatever the others do ------------------------

  /** In every reachable state each search stands where its own log puts it; so all that module
      Fallback proves about logs holds of every search in every interleaving. */
  lemma {:induction false} SearchesFollowLogs(cfg: seq<Config>, t0: real, run: seq<Stamped>, id: nat)
    requires Run(cfg, t0, run).Some?
    ensures var s := Run(cfg, t0, run).value;
      if id in s.searches then PcAfter(Retries(cfg), LogOf(run, id)) == Some(s.searches[id])
      else LogOf(run, id) == []
  {
    if run != [] {
      var k := |run| - 1;
      SearchesFollowLogs(cfg, t0, run[..k], id);
      var m, log := run[k].move, LogOf(run[..k], id);
      if m.Act? && m.id == id {
        RunsSnoc(Retries(cfg), Enter(Retries(cfg), 0), log, m.ev);
      } else {
        assert log + [] == log;
      }
    }
  }

  // ---- The breaker of an entry ----------------------------------------------------------

  lemma TouchBreaker(c: Config, s: Shared, ev: Event, t: real)
    requires Touch(c, s, ev, t).Some?
    ensures Touch(c, s, ev, t).value.breaker
         == if ev.Recorded? then OnFailure(s.breaker, t) else if ev.Won? then OnSuccess(s.breaker) else s.breaker
  {
  }

  /** A move changes the breaker of an entry only by recording on it. */
  lemma BreakerMove(cfg: seq<Config>, s: System, m: Stamped, e: nat)
    requires |s.entries| == |cfg| && e < |cfg| && Do(cfg, s, m).Some?
    ensures var b := s.entries[e].breaker;
      Do(cfg, s, m).value.entries[e].breaker
      == if m.move.Act? && m.move.ev == Recorded(e) then OnFailure(b, m.at)
         else if m.move.Act? && m.move.ev == Won(e) then OnSuccess(b)
         else b
  {
    if m.move.Act? {
      TouchBreaker(cfg[m.move.ev.entry], s.entries[m.move.ev.entry], m.move.ev, m.at);
    }
  }

  lemma BreakerStep(cfg: seq<Config>, s: System, m: Stamped, e: nat, rs: seq<Record>)
    requires |s.entries| == |cfg| && e < |cfg| && Do(cfg, s, m).Some?
    requires s.entries[e].breaker == BreakerAfter(rs)
    ensures Do(cfg, s, m).value.entries[e].breaker == BreakerAfter(rs + RecordOf(m, e))
  {
    BreakerMove(cfg, s, m, e);
    var r := RecordOf(m, e);
    if r == [] {
      assert rs + r == rs;
    } else {
      assert (rs + r)[..|rs + r| - 1] == rs;
    }
  }

  /** The breaker of an entry is a function of the successes and failures recorded on it. */
  lemma {:induction false} BreakerFollowsRecords(cfg: seq<Config>, t0: real, run: seq<Stamped>, e: nat)
    requires Run(cfg, t0, run).Some? && e < |cfg|
    ensures Run(cfg, t0, run).value.entries[e].breaker == BreakerAfter(RecordsOf(run, e))
  {
    if run != [] {
      var k := |run| - 1;
      BreakerFollowsRecords(cfg, t0, run[..k], e);
      BreakerStep(cfg, Run(cfg, t0, run[..k]).value, run[k], e, RecordsOf(run[..k], e));
    }
  }

  lemma DoAdvances(cfg: seq<Config>, s: System, m: Stamped)
    requires |s.entries| == |cfg| && Do(cfg, s, m).Some?
    ensures s.now <= m.at == Do(cfg, s, m).value.now
  {
  }

  lemma {:induction false} RunPrefix(cfg: seq<Config>, t0: real, run: seq<Stamped>, k: nat)
    requires Run(cfg, t0, run).Some? && k <= |run|
    ensures Run(cfg, t0, run[..k]).Some?
  {
    if k < |run| {
      RunPrefix(cfg, t0, run[..|run| - 1], k);
      assert run[..|run| - 1][..k] == run[..k];
    } else {
      assert run[..k] == run;
    }
  }

  lemma InOrderAdded(rs: seq<Record>, now: real, m: Stamped, e: nat)
    requires InOrder(rs) && (forall i :: 0 <= i < |rs| ==> rs[i].at <= now) && ZERO_TIME <= now <= m.at
    ensures var rs' := rs + RecordOf(m, e);
      InOrder(rs') && forall i :: 0 <= i < |rs'| ==> rs'[i].at <= m.at
  {
  }

  lemma {:induction false} RecordsOrdered(cfg: seq<Config>, t0: real, run: seq<Stamped>, e: nat)
    requires Run(cfg, t0, run).Some? && t0 >= ZERO_TIME
    ensures InOrder(RecordsOf(run, e)) && Run(cfg, t0, run).value.now >= t0
    ensures forall i :: 0 <= i < |RecordsOf(run, e)| ==> RecordsOf(run, e)[i].at <= Run(cfg, t0, run).value.now
  {
    if run != [] {
      var k := |run| - 1;
      RecordsOrdered(cfg, t0, run[..k], e);
      DoAdvances(cfg, Run(cfg, t0, run[..k]).value, run[k]);
      InOrderAdded(RecordsOf(run[..k], e), Run(cfg, t0, run[..k]).value.now, run[k], e);
    }
  }

  lemma {:induction false} RecordsPrefix(run: seq<Stamped>, e: nat, k: nat)
    requires k <= |run|
    ensures RecordsOf(run[..k], e) <= RecordsOf(run, e)
  {
    if k < |run| {
      RecordsPrefix(run[..|run| - 1], e, k);
      assert run[..|run| - 1][..k] == run[..k];
    } else {
      assert run[..k] == run;
    }
  }

  /** The ledger of an entry under any interleaving: fewer than three failures pending; recorded
      failures are three per opening, plus the pending ones, plus those wiped by successes. */
  lemma EntryLedger(cfg: seq<Config>, t0: real, run: seq<Stamped>, e: nat)
    requires Run(cfg, t0, run).Some? && e < |cfg|
    ensures var b, rs := Run(cfg, t0, run).value.entries[e].breaker, RecordsOf(run, e);
      && b.fails < 3 && b.fails == Streak(rs) % 3
      && Failures(rs) == 3 * Openings(rs) + b.fails + Wiped(rs)
  {
    BreakerFollowsRecords(cfg, t0, run, e);
    Ledger(RecordsOf(run, e));
    BreakerMeaning(RecordsOf(run, e));
  }

  /** Move k of the run records the failure that opens entry e's breaker. */
  predicate OpensAt(run: seq<Stamped>, e: nat, k: nat)
    requires k < |run|
  {
    && run[k].move.Act? && run[k].move.ev == Recorded(e)
    && Streak(RecordsOf(run[..k + 1], e)) % 3 == 0
  }

  /** The records made before move l hold the opening that move k made. */
  lemma OpeningIsRecorded(run: seq<Stamped>, e: nat, k: nat, l: nat)
    requires k < l <= |run| && OpensAt(run, e, k)
    ensures var rs, i := RecordsOf(run[..l], e), |RecordsOf(run[..k], e)|;
      i < |rs| && rs[i].at == run[k].at && Opens(rs, i)
  {
    var before := run[..l];
    assert run[..k + 1][..k] == run[..k] && before[..k + 1] == run[..k + 1];
    RecordsPrefix(before, e, k + 1);
    var rs, upTo := RecordsOf(before, e), RecordsOf(run[..k + 1], e);
    assert upTo == RecordsOf(run[..k], e) + [Record(true, run[k].at)];
    assert rs[..|upTo|] == upTo;
  }

  /** Move l of a run as a step from the state before it. */
  lemma MoveAt(cfg: seq<Config>, t0: real, run: seq<Stamped>, l: nat)
    requires Run(cfg, t0, run).Some? && l < |run|
    ensures Run(cfg, t0, run[..l]).Some? && Do(cfg, Run(cfg, t0, run[..l]).value, run[l]).Some?
    ensures Run(cfg, t0, run[..l + 1]) == Do(cfg, Run(cfg, t0, run[..l]).value, run[l])
  {
    RunPrefix(cfg, t0, run, l);
    RunPrefix(cfg, t0, run, l + 1);
    assert run[..l + 1][..l] == run[..l];
  }

  lemma PassNeedsClosed(cfg: seq<Config>, s: System, m: Stamped, e: nat)
    requires |s.entries| == |cfg| && e < |cfg| && Do(cfg, s, m).Some? && m.move.Act? && m.move.ev == Passed(e)
    ensures !IsOpen(s.entries[e].breaker, m.at)
  {
  }

  /** A search that passes the check finds the breaker closed. */
  lemma PassFindsClosed(cfg: seq<Config>, t0: real, run: seq<Stamped>, e: nat, l: nat)
    requires Run(cfg, t0, run).Some? && e < |cfg| && l < |run|
    requires run[l].move.Act? && run[l].move.ev == Passed(e)
    ensures Run(cfg, t0, run[..l]).Some?
    ensures !IsOpen(BreakerAfter(RecordsOf(run[..l], e)), run[l].at)
  {
    MoveAt(cfg, t0, run, l);
    PassNeedsClosed(cfg, Run(cfg, t0, run[..l]).value, run[l], e);
    BreakerFollowsRecords(cfg, t0, run[..l], e);
  }

  /** After a failure opens an entry's breaker, no search passes the entry's check for the whole cooldown. */
  lemma NoPassDuringCooldown(cfg: seq<Config>, t0: real, run: seq<Stamped>, e: nat, k: nat, l: nat)
    requires Run(cfg, t0, run).Some? && t0 >= ZERO_TIME && e < |cfg| && k < l < |run|
    requires OpensAt(run, e, k) && run[l].move.Act? && run[l].move.ev == Passed(e)
    ensures run[l].at >= run[k].at + 30.0
  {
    PassFindsClosed(cfg, t0, run, e, l);
    RecordsOrdered(cfg, t0, run[..l], e);
    OpeningIsRecorded(run, e, k, l);
    if run[l].at < run[k].at + 30.0 {
      OpenDuringCooldown(RecordsOf(run[..l], e), |RecordsOf(run[..k], e)|, run[l].at);
      assert false;
    }
  }

  /** Move k makes record i of an entry. */
  predicate Behind(run: seq<Stamped>, e: nat, i: nat, k: nat)
    requires i < |RecordsOf(run, e)|
  {
    && k < |run| && RecordOf(run[k], e) == [RecordsOf(run, e)[i]]
    && RecordsOf(run[..k + 1], e) == RecordsOf(run, e)[..i + 1]
  }

  lemma BehindStays(before: seq<Stamped>, run: seq<Stamped>, e: nat, i: nat, k: nat)
    requires run != [] && before == run[..|run| - 1] && i < |RecordsOf(before, e)| && Behind(before, e, i, k)
    ensures i < |RecordsOf(run, e)| && Behind(run, e, i, k)
  {
    assert before[..k + 1] == run[..k + 1];
  }

  lemma BehindLast(run: seq<Stamped>, e: nat, i: nat)
    requires run != [] && |RecordsOf(run[..|run| - 1], e)| <= i < |RecordsOf(run, e)|
    ensures Behind(run, e, i, |run| - 1)
  {
    assert run[..|run| - 1 + 1] == run;
  }

  lemma {:induction false} RecordBehind(run: seq<Stamped>, e: nat, i: nat) returns (k: nat)
    requires i < |RecordsOf(run, e)|
    ensures Behind(run, e, i, k)
  {
    var before := run[..|run| - 1];
    if i < |RecordsOf(before, e)| {
      k := RecordBehind(before, e, i);
      BehindStays(before, run, e, i, k);
    } else {
      k := |before|;
      BehindLast(run, e, i);
    }
  }

  lemma CheckReads(cfg: seq<Config>, s: System, m: Stamped, e: nat)
    requires |s.entries| == |cfg| && e < |cfg| && Do(cfg, s, m).Some? && m.move.Act?
    requires m.move.ev == Skipped(e) || m.move.ev == Passed(e)
    ensures m.move.ev == Skipped(e) <==> IsOpen(s.entries[e].breaker, m.at)
  {
  }

  /** Move k records a third failure in a row on entry e, less than 30 seconds before now. */
  predicate RecentOpening(run: seq<Stamped>, e: nat, k: nat, now: real)
    requires k < |run|
  {
    && run[k].move.Act? && run[k].move.ev == Recorded(e)
    && Streak(RecordsOf(run[..k + 1], e)) % 3 == 0 && now < run[k].at + 30.0
  }

  lemma OpenInRecords(run: seq<Stamped>, e: nat, k: nat, now: real)
    requires k < |run| && RecentOpening(run, e, k, now) && InOrder(RecordsOf(run, e)) && now >= 0.0
    ensures IsOpen(BreakerAfter(RecordsOf(run, e)), now)
  {
    assert run[..|run|] == run;
    OpeningIsRecorded(run, e, k, |run|);
    OpenDuringCooldown(RecordsOf(run, e), |RecordsOf(run[..k], e)|, now);
  }

  lemma OpeningBehind(run: seq<Stamped>, e: nat, i: nat, now: real) returns (k: nat)
    requires i < |RecordsOf(run, e)| && RecordsOf(run, e)[i].failure && now < RecordsOf(run, e)[i].at + 30.0
    requires Streak(RecordsOf(run, e)[..i + 1]) % 3 == 0
    ensures k < |run| && RecentOpening(run, e, k, now)
  {
    k := RecordBehind(run, e, i);
  }

  lemma OpenHasOpening(run: seq<Stamped>, e: nat, now: real) returns (k: nat)
    requires InOrder(RecordsOf(run, e)) && now >= 0.0 && IsOpen(BreakerAfter(RecordsOf(run, e)), now)
    ensures k < |run| && RecentOpening(run, e, k, now)
  {
    OpenIff(RecordsOf(run, e), now);
    var i: nat :| i < |RecordsOf(run, e)| && RecordsOf(run, e)[i].failure && now < RecordsOf(run, e)[i].at + 30.0
      && Streak(RecordsOf(run, e)[..i + 1]) % 3 == 0;
    k := OpeningBehind(run, e, i, now);
  }

  lemma CheckAnswer(cfg: seq<Config>, t0: real, run: seq<Stamped>, e: nat, l: nat)
    requires Run(cfg, t0, run).Some? && t0 >= ZERO_TIME && e < |cfg| && l < |run| && run[l].move.Act?
    requires run[l].move.ev == Skipped(e) || run[l].move.ev == Passed(e)
    ensures InOrder(RecordsOf(run[..l], e)) && run[l].at >= t0
    ensures run[l].move.ev == Skipped(e) <==> IsOpen(BreakerAfter(RecordsOf(run[..l], e)), run[l].at)
  {
    MoveAt(cfg, t0, run, l);
    CheckReads(cfg, Run(cfg, t0, run[..l]).value, run[l], e);
    BreakerFollowsRecords(cfg, t0, run[..l], e);
    RecordsOrdered(cfg, t0, run[..l], e);
    DoAdvances(cfg, Run(cfg, t0, run[..l]).value, run[l]);
  }

  /** One of the first n moves does. */
  predicate SomeRecent(run: seq<Stamped>, e: nat, n: nat, now: real)
    requires n <= |run|
  {
    exists k :: 0 <= k < n && RecentOpening(run, e, k, now)
  }

  lemma OpenIffRecent(run: seq<Stamped>, e: nat, now: real)
    requires InOrder(RecordsOf(run, e)) && now >= 0.0
    ensures IsOpen(BreakerAfter(RecordsOf(run, e)), now) <==> SomeRecent(run, e, |run|, now)
  {
    if IsOpen(BreakerAfter(RecordsOf(run, e)), now) {
      var k := OpenHasOpening(run, e, now);
    }
    if k :| 0 <= k < |run| && RecentOpening(run, e, k, now) {
      OpenInRecords(run, e, k, now);
    }
  }

  lemma RecentInPrefix(run: seq<Stamped>, before: seq<Stamped>, e: nat, now: real)
    requires |before| <= |run| && before == run[..|before|]
    ensures SomeRecent(before, e, |before|, now) <==> SomeRecent(run, e, |before|, now)
  {
    forall k | 0 <= k < |before| ensures RecentOpening(before, e, k, now) <==> RecentOpening(run, e, k, now) {
      assert before[..k + 1] == run[..k + 1];
    }
  }

  /** A search skips an entry at its check exactly if, in the last 30 seconds, a third failure in a row has been
      recorded on it. */
  lemma SkippedIff(cfg: seq<Config>, t0: real, run: seq<Stamped>, e: nat, l: nat)
    requires Run(cfg, t0, run).Some? && t0 >= ZERO_TIME && e < |cfg| && l < |run| && run[l].move.Act?
    requires run[l].move.ev == Skipped(e) || run[l].move.ev == Passed(e)
    ensures run[l].move.ev == Skipped(e) <==> SomeRecent(run, e, l, run[l].at)
  {
    CheckAnswer(cfg, t0, run, e, l);
    OpenIffRecent(run[..l], e, run[l].at);
    RecentInPrefix(run, run[..l], e, run[l].at);
  }

  /** openUntil never moves back. */
  lemma OpenUntilNeverDecreases(cfg: seq<Config>, t0: real, run: seq<Stamped>, e: nat, k: nat)
    requires Run(cfg, t0, run).Some? && t0 >= ZERO_TIME && e < |cfg| && k <= |run|
    ensures Run(cfg, t0, run[..k]).Some?
    ensures Run(cfg, t0, run[..k]).value.entries[e].breaker.openUntil
         <= Run(cfg, t0, run).value.entries[e].breaker.openUntil
  {
    RunPrefix(cfg, t0, run, k);
    BreakerFollowsRecords(cfg, t0, run, e);
    BreakerFollowsRecords(cfg, t0, run[..k], e);
    RecordsOrdered(cfg, t0, run, e);
    RecordsPrefix(run, e, k);
    var rs := RecordsOf(run, e);
    assert rs[..|RecordsOf(run[..k], e)|] == RecordsOf(run[..k], e);
    OpenUntilGrows(rs, |RecordsOf(run[..k], e)|);
  }

  // ---- Politeness -----------------------------------------------------------------------

  /** The entry's bucket is its full bucket after the polls of all searches, and its grants are theirs. */
  ghost predicate BucketFollows(c: Config, t0: real, s: Shared, polls: seq<real>, grants: nat) {
    && s.bucket == After(FullBucket(c, t0), ParamsFor(c.rps), polls)
    && grants == Grants(FullBucket(c, t0), ParamsFor(c.rps), polls, 0, |polls|)
  }

  lemma PollAdded(c: Config, t0: real, s: Shared, polls: seq<real>, grants: nat, t: real)
    requires BucketFollows(c, t0, s, polls, grants)
    ensures var v := TokenBucket.Visit(s.bucket, ParamsFor(c.rps), t);
      BucketFollows(c, t0, s.(bucket := v.bucket), polls + [t], grants + if v.granted then 1 else 0)
  {
    var b, p := FullBucket(c, t0), ParamsFor(c.rps);
    var n := |polls|;
    assert (polls + [t])[..n] == polls && (polls + [t])[n] == t;
    GrantsPrefix(b, p, polls + [t], n, n);
    assert TokenBucket.Granted(b, p, polls + [t], n) == TokenBucket.Visit(s.bucket, p, t).granted;
  }

  lemma BucketStep(cfg: seq<Config>, t0: real, s: System, m: Stamped, e: nat, polls: seq<real>, grants: nat)
    requires |s.entries| == |cfg| && e < |cfg| && Do(cfg, s, m).Some?
    requires BucketFollows(cfg[e], t0, s.entries[e], polls, grants)
    ensures BucketFollows(cfg[e], t0, Do(cfg, s, m).value.entries[e], polls + PollOf(m, e),
                          grants + if m.move.Act? && m.move.ev == Granted(e) then 1 else 0)
  {
    if PollOf(m, e) == [] {
      assert polls + [] == polls;
    } else {
      PollAdded(cfg[e], t0, s.entries[e], polls, grants, m.at);
    }
  }

  lemma {:induction false} BucketFollowsPolls(cfg: seq<Config>, t0: real, run: seq<Stamped>, e: nat)
    requires Run(cfg, t0, run).Some? && e < |cfg|
    ensures BucketFollows(cfg[e], t0, Run(cfg, t0, run).value.entries[e], PollsOf(run, e), GrantsOf(run, e))
  {
    if run != [] {
      var k := |run| - 1;
      BucketFollowsPolls(cfg, t0, run[..k], e);
      BucketStep(cfg, t0, Run(cfg, t0, run[..k]).value, run[k], e, PollsOf(run[..k], e), GrantsOf(run[..k], e));
    }
  }

  lemma {:induction false} PollsOrdered(cfg: seq<Config>, t0: real, run: seq<Stamped>, e: nat)
    requires Run(cfg, t0, run).Some?
    ensures Run(cfg, t0, run).value.now >= t0
    ensures forall i :: 0 <= i < |PollsOf(run, e)| ==> t0 <= PollsOf(run, e)[i] <= Run(cfg, t0, run).value.now
    ensures forall i, j :: 0 <= i <= j < |PollsOf(run, e)| ==> PollsOf(run, e)[i] <= PollsOf(run, e)[j]
  {
    if run != [] {
      var k := |run| - 1;
      PollsOrdered(cfg, t0, run[..k], e);
      DoAdvances(cfg, Run(cfg, t0, run[..k]).value, run[k]);
    }
  }

  /** Searches that hold a grant of entry e and have not made its call yet. */
  function InFlight(searches: map<nat, Pc>, e: nat): set<nat> {
    set id | id in searches && searches[id].Calling? && searches[id].i == e
  }

  lemma InFlightStep(searches: map<nat, Pc>, id: nat, pc: Pc, e: nat)
    ensures var before, after := InFlight(searches, e), InFlight(searches[id := pc], e);
      after == if pc.Calling? && pc.i == e then before + {id} else before - {id}
  {
  }

  /** Searches take up a call with the grant and give it up by making it, and in no other way. */
  lemma CallingSteps(retries: seq<int>, pc: Pc, ev: Event, e: nat)
    requires Next(retries, pc, ev).Some?
    ensures var pc' := Next(retries, pc, ev).value;
      && ((pc'.Calling? && pc'.i == e) <==> ev == Granted(e))
      && ((pc.Calling? && pc.i == e) <==> ev.Called? && ev.entry == e)
  {
  }

  lemma ActCallStep(retries: seq<int>, searches: map<nat, Pc>, id: nat, ev: Event, e: nat)
    requires id in searches && Next(retries, searches[id], ev).Some?
    ensures |InFlight(searches[id := Next(retries, searches[id], ev).value], e)| == |InFlight(searches, e)|
      + (if ev == Granted(e) then 1 else 0) - (if ev.Called? && ev.entry == e then 1 else 0)
  {
    var before := InFlight(searches, e);
    InFlightStep(searches, id, Next(retries, searches[id], ev).value, e);
    CallingSteps(retries, searches[id], ev, e);
    assert id in before <==> ev.Called? && ev.entry == e;
    if id !in before {
      assert before - {id} == before;
    }
  }

  lemma CallStep(cfg: seq<Config>, s: System, m: Stamped, e: nat)
    requires |s.entries| == |cfg| && Do(cfg, s, m).Some?
    ensures |InFlight(Do(cfg, s, m).value.searches, e)| == |InFlight(s.searches, e)|
      + (if m.move.Act? && m.move.ev == Granted(e) then 1 else 0)
      - (if m.move.Act? && m.move.ev.Called? && m.move.ev.entry == e then 1 else 0)
  {
    match m.move {
      case Start(id) =>
        InFlightStep(s.searches, id, Enter(Retries(cfg), 0), e);
        assert InFlight(s.searches, e) - {id} == InFlight(s.searches, e);
      case Refuse(_, _) =>
      case Act(id, ev) => ActCallStep(Retries(cfg), s.searches, id, ev, e);
    }
  }

  /** Every call has consumed a grant of its own: grants are the calls made and the calls about to be. */
  lemma {:induction false} CallsConsumeGrants(cfg: seq<Config>, t0: real, run: seq<Stamped>, e: nat)
    requires Run(cfg, t0, run).Some?
    ensures CallsOf(run, e) + |InFlight(Run(cfg, t0, run).value.searches, e)| == GrantsOf(run, e)
  {
    if run == [] {
      assert InFlight(map[], e) == {};
    } else {
      var k := |run| - 1;
      CallsConsumeGrants(cfg, t0, run[..k], e);
      CallStep(cfg, Run(cfg, t0, run[..k]).value, run[k], e);
    }
  }

  /** The polls of a run from move k on come after those before it, and not before its time. */
  lemma {:induction false} PollsFrom(cfg: seq<Config>, t0: real, run: seq<Stamped>, e: nat, k: nat)
    requires Run(cfg, t0, run).Some? && k <= |run|
    ensures Run(cfg, t0, run[..k]).Some? && Run(cfg, t0, run[..k]).value.now <= Run(cfg, t0, run).value.now
    ensures PollsOf(run[..k], e) <= PollsOf(run, e)
    ensures forall n :: |PollsOf(run[..k], e)| <= n < |PollsOf(run, e)| ==>
      Run(cfg, t0, run[..k]).value.now <= PollsOf(run, e)[n] <= Run(cfg, t0, run).value.now
  {
    if k == |run| {
      assert run[..k] == run;
    } else {
      var before, m := run[..|run| - 1], run[|run| - 1];
      PollsFrom(cfg, t0, before, e, k);
      assert before[..k] == run[..k];
      DoAdvances(cfg, Run(cfg, t0, before).value, m);
    }
  }

  lemma GrantsArePolls(cfg: seq<Config>, t0: real, run: seq<Stamped>, e: nat)
    requires Run(cfg, t0, run).Some? && e < |cfg|
    ensures GrantsOf(run, e)
         == Grants(FullBucket(cfg[e], t0), ParamsFor(cfg[e].rps), PollsOf(run, e), 0, |PollsOf(run, e)|)
  {
    BucketFollowsPolls(cfg, t0, run, e);
  }

  /** The grants of a window are those of its own polls. */
  lemma WindowGrants(cfg: seq<Config>, t0: real, run: seq<Stamped>, e: nat, k: nat)
    requires Run(cfg, t0, run).Some? && e < |cfg| && k <= |run|
    ensures PollsOf(run[..k], e) <= PollsOf(run, e)
    ensures var polls, i := PollsOf(run, e), |PollsOf(run[..k], e)|;
      GrantsOf(run, e) == GrantsOf(run[..k], e)
        + Grants(FullBucket(cfg[e], t0), ParamsFor(cfg[e].rps), polls, i, |polls|)
  {
    PollsFrom(cfg, t0, run, e, k);
    GrantsArePolls(cfg, t0, run, e);
    GrantsArePolls(cfg, t0, run[..k], e);
    GrantsFrom(FullBucket(cfg[e], t0), ParamsFor(cfg[e].rps), PollsOf(run[..k], e), PollsOf(run, e));
  }

  lemma WindowInflow(cfg: seq<Config>, t0: real, run: seq<Stamped>, e: nat, k: nat)
    requires Run(cfg, t0, run).Some? && e < |cfg| && k <= |run|
    ensures Run(cfg, t0, run[..k]).Some?
    ensures (GrantsOf(run, e) - GrantsOf(run[..k], e)) as real
         <= EffectiveRate(cfg[e].rps)
            + Inflow(ParamsFor(cfg[e].rps), Run(cfg, t0, run[..k]).value.now, Run(cfg, t0, run).value.now)
  {
    var p, polls, i := ParamsFor(cfg[e].rps), PollsOf(run, e), |PollsOf(run[..k], e)|;
    PollsFrom(cfg, t0, run, e, k);
    WindowGrants(cfg, t0, run, e, k);
    var from, now := Run(cfg, t0, run[..k]).value.now, Run(cfg, t0, run).value.now;
    InflowNotNegative(p, from, now);
    if i < |polls| {
      PollsOrdered(cfg, t0, run, e);
      WindowBound(FullBucket(cfg[e], t0), p, polls, i, |polls|);
      InflowAdds(p, from, polls[i], polls[|polls| - 1]);
      InflowAdds(p, from, polls[|polls| - 1], now);
    }
  }

  /** The calls that a rate admits in a window: one second's worth, and its inflow. A rate that is not positive
      counts as 1. */
  function Allowance(rps: real, length: real): real {
    (if rps > 0.0 then rps else 1.0) * (1.0 + length)
  }

  lemma AllowanceIsInflow(rps: real, from: real, now: real)
    ensures Allowance(rps, now - from) == EffectiveRate(rps) + Inflow(ParamsFor(rps), from, now)
  {
    var r, d := EffectiveRate(rps), now - from;
    assert r * (1.0 + d) == r + d * r;
  }

  /** Calls of a window had their token in it, or were in flight when it began. */
  lemma WindowCalls(cfg: seq<Config>, t0: real, run: seq<Stamped>, e: nat, k: nat)
    requires Run(cfg, t0, run).Some? && k <= |run|
    ensures Run(cfg, t0, run[..k]).Some?
    ensures CallsOf(run, e) - CallsOf(run[..k], e)
         <= GrantsOf(run, e) - GrantsOf(run[..k], e) + |InFlight(Run(cfg, t0, run[..k]).value.searches, e)|
  {
    RunPrefix(cfg, t0, run, k);
    CallsConsumeGrants(cfg, t0, run, e);
    CallsConsumeGrants(cfg, t0, run[..k], e);
  }

  /** End-to-end politeness, in any window of any run: over all concurrent searches and their retries, the calls
      made to an entry from move k on are at most rps * (1 + length of the window), rps being its effective
      rate, and those that had their token before. */
  lemma PolitenessInWindow(cfg: seq<Config>, t0: real, run: seq<Stamped>, e: nat, k: nat)
    requires Run(cfg, t0, run).Some? && e < |cfg| && k <= |run|
    ensures Run(cfg, t0, run[..k]).Some?
    ensures var from := Run(cfg, t0, run[..k]).value;
      (CallsOf(run, e) - CallsOf(run[..k], e)) as real
      <= Allowance(cfg[e].rps, Run(cfg, t0, run).value.now - from.now) + |InFlight(from.searches, e)| as real
  {
    WindowInflow(cfg, t0, run, e, k);
    WindowCalls(cfg, t0, run, e, k);
    AllowanceIsInflow(cfg[e].rps, Run(cfg, t0, run[..k]).value.now, Run(cfg, t0, run).value.now);
  }

  /** From the start: the calls made to an entry by the time t are at most rps * (1 + t - t0). */
  lemma Politeness(cfg: seq<Config>, t0: real, run: seq<Stamped>, e: nat)
    requires Run(cfg, t0, run).Some? && e < |cfg|
    ensures CallsOf(run, e) as real <= Allowance(cfg[e].rps, Run(cfg, t0, run).value.now - t0)
  {
    PolitenessInWindow(cfg, t0, run, e, 0);
    assert run[..0] == [];
    assert InFlight(map[], e) == {};
  }

  /** An entry with a rate between 0 and 1 per second is never called, in any run. */
  lemma SlowEntryNeverCalled(cfg: seq<Config>, t0: real, run: seq<Stamped>, e: nat)
    requires Run(cfg, t0, run).Some? && e < |cfg| && 0.0 < cfg[e].rps < 1.0
    ensures CallsOf(run, e) == 0
  {
    CallsConsumeGrants(cfg, t0, run, e);
    BucketFollowsPolls(cfg, t0, run, e);
    SmallBucketStarves(FullBucket(cfg[e], t0), ParamsFor(cfg[e].rps), PollsOf(run, e), 0, |PollsOf(run, e)|);
  }
}
