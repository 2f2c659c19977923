/** chain/chain.go: the circuit breaker of an entry. Times are in seconds. */
module CircuitBreaker {
  const THRESHOLD := 3
  const COOLDOWN := 30.0

  /** time.Time{}: earlier than any clock reading. */
  const ZERO_TIME := 0.0

  datatype Breaker = Breaker(fails: nat, openUntil: real)

  const NEW_BREAKER: Breaker := Breaker(0, ZERO_TIME)

  predicate IsOpen(b: Breaker, now: real) {
    now < b.openUntil
  }

  function OnSuccess(b: Breaker): Breaker {
    b.(fails := 0)
  }

  function OnFailure(b: Breaker, now: real): Breaker {
    if b.fails + 1 >= THRESHOLD then Breaker(0, now + COOLDOWN) else b.(fails := b.fails + 1)
  }

  /** A success or a failure recorded on one entry, with its time. */
  datatype Record = Record(failure: bool, at: real)

  function BreakerAfter(rs: seq<Record>): Breaker {
    if rs == [] then NEW_BREAKER
    else
      var b, r := BreakerAfter(rs[..|rs| - 1]), rs[|rs| - 1];
      if r.failure then OnFailure(b, r.at) else OnSuccess(b)
  }

  /** Failures since the last success. */
  function Streak(rs: seq<Record>): nat {
    if rs == [] || !rs[|rs| - 1].failure then 0 else Streak(rs[..|rs| - 1]) + 1
  }

  /** Record k opens the breaker: every third failure of a streak does. */
  predicate Opens(rs: seq<Record>, k: nat)
    requires k < |rs|
  {
    rs[k].failure && Streak(rs[..k + 1]) % 3 == 0
  }

  function LastOpening(rs: seq<Record>): (t: real) {
    if rs == [] then ZERO_TIME - 30.0
    else if Opens(rs, |rs| - 1) then rs[|rs| - 1].at
    else LastOpening(rs[..|rs| - 1])
  }

  /** The breaker counts failures modulo three within a streak and stays open for the cooldown after
      the last opening. A success ends the streak but does not close the breaker. */
  lemma {:induction false} BreakerMeaning(rs: seq<Record>)
    ensures BreakerAfter(rs) == Breaker(Streak(rs) % 3, LastOpening(rs) + 30.0)
  {
    if rs != [] {
      var k := |rs| - 1;
      BreakerMeaning(rs[..k]);
      assert rs[..k + 1] == rs;
    }
  }

  function Failures(rs: seq<Record>): nat {
    if rs == [] then 0 else Failures(rs[..|rs| - 1]) + if rs[|rs| - 1].failure then 1 else 0
  }

  function Openings(rs: seq<Record>): nat {
    if rs == [] then 0 else Openings(rs[..|rs| - 1]) + if Opens(rs, |rs| - 1) then 1 else 0
  }

  /** Failures counted towards the threshold that a success wiped out. */
  function Wiped(rs: seq<Record>): nat {
    if rs == [] then 0
    else
      var k := |rs| - 1;
      Wiped(rs[..k]) + if rs[k].failure then 0 else BreakerAfter(rs[..k]).fails
  }

  /** The ledger: every failure recorded went into an opening, is still pending, or was wiped. */
  lemma {:induction false} Ledger(rs: seq<Record>)
    ensures Failures(rs) == 3 * Openings(rs) + BreakerAfter(rs).fails + Wiped(rs)
    ensures BreakerAfter(rs).fails < 3
  {
    if rs != [] {
      var k := |rs| - 1;
      Ledger(rs[..k]);
      BreakerMeaning(rs[..k]);
      assert rs[..k + 1] == rs;
    }
  }

  predicate InOrder(rs: seq<Record>) {
    && (forall i :: 0 <= i < |rs| ==> rs[i].at >= ZERO_TIME)
    && (forall i, j :: 0 <= i <= j < |rs| ==> rs[i].at <= rs[j].at)
  }

  /** More records never move openUntil back. */
  lemma {:induction false} OpenUntilGrows(rs: seq<Record>, k: nat)
    requires InOrder(rs) && k <= |rs|
    ensures BreakerAfter(rs[..k]).openUntil <= BreakerAfter(rs).openUntil
    ensures BreakerAfter(rs).openUntil <= (if rs == [] then ZERO_TIME else rs[|rs| - 1].at + 30.0)
    decreases |rs|
  {
    assert rs[..|rs|] == rs;
    if rs != [] {
      var m := |rs| - 1;
      OpenUntilGrows(rs[..m], if k < |rs| then k else 0);
      if k < |rs| {
        assert rs[..m][..k] == rs[..k];
      }
      if m > 0 {
        assert rs[..m][m - 1] == rs[m - 1] && rs[m - 1].at <= rs[m].at;
      }
    }
  }

  /** For the cooldown after an opening the breaker reads open, whatever is recorded meanwhile. */
  lemma OpenDuringCooldown(rs: seq<Record>, k: nat, now: real)
    requires InOrder(rs) && k < |rs| && Opens(rs, k) && now < rs[k].at + 30.0
    ensures IsOpen(BreakerAfter(rs), now)
  {
    BreakerMeaning(rs[..k + 1]);
    assert rs[..k + 1][..k] == rs[..k] && rs[..k + 1][..k + 1] == rs[..k + 1];
    assert Opens(rs[..k + 1], k);
    OpenUntilGrows(rs, k + 1);
  }

  lemma OpensInPrefix(rs: seq<Record>, n: nat, k: nat)
    requires k < n <= |rs|
    ensures Opens(rs[..n], k) <==> Opens(rs, k)
  {
    assert rs[..n][..k + 1] == rs[..k + 1];
  }

  /** The last opening is an opening, and none is later. */
  lemma {:induction false} LastOpeningIsLast(rs: seq<Record>)
    requires InOrder(rs)
    ensures forall k :: 0 <= k < |rs| && Opens(rs, k) ==> rs[k].at <= LastOpening(rs)
    ensures LastOpening(rs) == ZERO_TIME - 30.0
         || exists k :: 0 <= k < |rs| && Opens(rs, k) && rs[k].at == LastOpening(rs)
  {
    if rs != [] {
      var m := |rs| - 1;
      LastOpeningIsLast(rs[..m]);
      forall k | 0 <= k < m ensures Opens(rs[..m], k) <==> Opens(rs, k) {
        OpensInPrefix(rs, m, k);
      }
    }
  }

  /** A breaker reads open exactly in the 30 seconds after a third failure in a row, counted again from every
      opening and every success. So it closes again, whatever is recorded. */
  lemma OpenIff(rs: seq<Record>, now: real)
    requires InOrder(rs) && now >= 0.0
    ensures IsOpen(BreakerAfter(rs), now)
       <==> exists k :: 0 <= k < |rs| && rs[k].failure && Streak(rs[..k + 1]) % 3 == 0 && now < rs[k].at + 30.0
  {
    BreakerMeaning(rs);
    LastOpeningIsLast(rs);
    if IsOpen(BreakerAfter(rs), now) {
      var k :| 0 <= k < |rs| && Opens(rs, k) && rs[k].at == LastOpening(rs);
    }
    forall k | 0 <= k < |rs| && rs[k].failure && Streak(rs[..k + 1]) % 3 == 0 && now < rs[k].at + 30.0
      ensures IsOpen(BreakerAfter(rs), now)
    {
      assert Opens(rs, k);
    }
  }
}
