/** saka.go and chain/chain.go, New: checking a configuration and dividing its providers among verticals. */
module Engine {
  import opened Options
  import opened Providers
  import opened Fallback
  import ChainRuns
  import CircuitBreaker
  import Disk = DiskCache
  import Fetch = Fetcher
  import ProviderChain

  /** The disk cache's directory ("" for none) and TTL (0 for a day). */
  datatype DiskConfig = DiskConfig(dir: string, ttlSeconds: int)

  datatype FetchConfig = FetchConfig(rps: real, cacheTTLSeconds: int, disk: DiskConfig)

  datatype Config = Config(providers: seq<ProviderConfig>, fetch: FetchConfig)

  /** The errors of Validate; index is the offending provider's position. */
  datatype Invalid =
    | NoProviders
    | NameMissing(index: nat)
    | Duplicate(index: nat)
    | OtherVertical(index: nat, first: string, second: string)
    | NotRegistered(index: nat)
    | UrlMissing(index: nat)
    | UrlScheme(index: nat)
    | RpsRange(index: nat)
    | RetriesRange(index: nat)
    | FetchRps
    | FetchTTL

  // ---- Validate -------------------------------------------------------------------------

  /** The position of the first of the first n providers with the given name; n if there is none. */
  function FirstNamed(ps: seq<ProviderConfig>, name: string, n: nat): (i: nat)
    requires n <= |ps|
    ensures i <= n && (i < n ==> ps[i].name == name)
    ensures forall j :: 0 <= j < i ==> ps[j].name != name
  {
    if n == 0 then 0
    else
      var i := FirstNamed(ps, name, n - 1);
      if i < n - 1 || ps[n - 1].name == name then i else n
  }

  /** What is wrong with a provider by itself. */
  function OwnFault(p: ProviderConfig, registered: set<string>, i: nat): Option<Invalid> {
    if p.name !in registered then Some(NotRegistered(i))
    else if p.name == "searxng" && p.url == "" then Some(UrlMissing(i))
    else if p.name == "searxng" && !("http" <= p.url) then Some(UrlScheme(i))
    else if p.rps < 0.0 || p.rps > 10.0 then Some(RpsRange(i))
    else if p.retries < 0 || p.retries > 5 then Some(RetriesRange(i))
    else None
  }

  /** What is wrong with provider i, given the ones before it. */
  function Fault(ps: seq<ProviderConfig>, registered: set<string>, i: nat): Option<Invalid>
    requires i < |ps|
  {
    var p, j := ps[i], FirstNamed(ps, ps[i].name, i);
    if p.name == "" then Some(NameMissing(i))
    else if j < i then
      Some(if ps[j].vertical == p.vertical then Duplicate(i) else OtherVertical(i, ps[j].vertical, p.vertical))
    else OwnFault(p, registered, i)
  }

  predicate GoodProvider(p: ProviderConfig, registered: set<string>) {
    && p.name != "" && p.name in registered
    && (p.name == "searxng" ==> "http" <= p.url)
    && 0.0 <= p.rps <= 10.0 && 0 <= p.retries <= 5
  }

  predicate DistinctUpTo(ps: seq<ProviderConfig>, n: nat)
    requires n <= |ps|
  {
    forall i, j :: 0 <= i < j < n ==> ps[i].name != ps[j].name
  }

  predicate DistinctNames(ps: seq<ProviderConfig>) {
    DistinctUpTo(ps, |ps|)
  }

  /** What a configuration must be: some providers, each good, no name twice in any verticals, and a
      fetch section in range. */
  predicate ValidConfig(cfg: Config, registered: set<string>) {
    && cfg.providers != []
    && (forall p :: p in cfg.providers ==> GoodProvider(p, registered))
    && DistinctNames(cfg.providers)
    && 0.0 <= cfg.fetch.rps <= 10.0 && cfg.fetch.cacheTTLSeconds >= 0
  }

  lemma FaultMeaning(ps: seq<ProviderConfig>, registered: set<string>, i: nat)
    requires i < |ps|
    ensures Fault(ps, registered, i).None?
       <==> GoodProvider(ps[i], registered) && forall j :: 0 <= j < i ==> ps[j].name != ps[i].name
  {
    var j := FirstNamed(ps, ps[i].name, i);
    assert j == i <==> forall j :: 0 <= j < i ==> ps[j].name != ps[i].name;
  }

  /** The first fault among the first n providers. */
  function FirstFault(ps: seq<ProviderConfig>, registered: set<string>, n: nat): Option<Invalid>
    requires n <= |ps|
  {
    if n == 0 then None
    else
      var before := FirstFault(ps, registered, n - 1);
      if before.Some? then before else Fault(ps, registered, n - 1)
  }

  /** Validate's answer. */
  function Validation(cfg: Config, registered: set<string>): Option<Invalid> {
    if cfg.providers == [] then Some(NoProviders)
    else
      var fault := FirstFault(cfg.providers, registered, |cfg.providers|);
      if fault.Some? then fault
      else if cfg.fetch.rps < 0.0 || cfg.fetch.rps > 10.0 then Some(FetchRps)
      else if cfg.fetch.cacheTTLSeconds < 0 then Some(FetchTTL)
      else None
  }

  predicate GoodUpTo(ps: seq<ProviderConfig>, registered: set<string>, n: nat)
    requires n <= |ps|
  {
    forall i :: 0 <= i < n ==> GoodProvider(ps[i], registered)
  }

  lemma FineNext(ps: seq<ProviderConfig>, registered: set<string>, n: nat)
    requires n < |ps|
    ensures GoodUpTo(ps, registered, n + 1) && DistinctUpTo(ps, n + 1)
       <==> GoodUpTo(ps, registered, n) && DistinctUpTo(ps, n) && Fault(ps, registered, n).None?
  {
    FaultMeaning(ps, registered, n);
  }

  lemma {:induction false} NoFaultMeaning(ps: seq<ProviderConfig>, registered: set<string>, n: nat)
    requires n <= |ps|
    ensures FirstFault(ps, registered, n).None? <==> GoodUpTo(ps, registered, n) && DistinctUpTo(ps, n)
  {
    if n > 0 {
      NoFaultMeaning(ps, registered, n - 1);
      FineNext(ps, registered, n - 1);
    }
  }

  /** Validate accepts exactly the valid configurations. */
  lemma ValidationMeaning(cfg: Config, registered: set<string>)
    ensures Validation(cfg, registered).None? <==> ValidConfig(cfg, registered)
  {
    var ps := cfg.providers;
    NoFaultMeaning(ps, registered, |ps|);
    assert (forall p :: p in ps ==> GoodProvider(p, registered))
      <==> (forall i :: 0 <= i < |ps| ==> GoodProvider(ps[i], registered));
  }

  lemma {:induction false} FirstFaultAt(ps: seq<ProviderConfig>, registered: set<string>, n: nat) returns (i: nat)
    requires n <= |ps| && FirstFault(ps, registered, n).Some?
    ensures i < n && FirstFault(ps, registered, i).None? && Fault(ps, registered, i) == FirstFault(ps, registered, n)
  {
    if FirstFault(ps, registered, n - 1).Some? {
      i := FirstFaultAt(ps, registered, n - 1);
    } else {
      i := n - 1;
    }
  }

  /** Provider i is what the error says; all before it, and what is checked of it first, are in order. */
  ghost predicate IsWrong(ps: seq<ProviderConfig>, registered: set<string>, err: Invalid) {
    match err
    case NameMissing(i) => FineBefore(ps, registered, i) && ps[i].name == ""
    case Duplicate(i) =>
      && FineBefore(ps, registered, i) && ps[i].name != ""
      && exists j :: 0 <= j < i && ps[j].name == ps[i].name && ps[j].vertical == ps[i].vertical
    case OtherVertical(i, first, second) =>
      && FineBefore(ps, registered, i) && ps[i].name != "" && first != second == ps[i].vertical
      && exists j :: 0 <= j < i && ps[j].name == ps[i].name && ps[j].vertical == first
    case NotRegistered(i) => NewName(ps, registered, i) && ps[i].name !in registered
    case UrlMissing(i) =>
      NewName(ps, registered, i) && ps[i].name in registered && ps[i].name == "searxng" && ps[i].url == ""
    case UrlScheme(i) =>
      && NewName(ps, registered, i) && ps[i].name in registered
      && ps[i].name == "searxng" && ps[i].url != "" && !("http" <= ps[i].url)
    case RpsRange(i) =>
      && NewName(ps, registered, i) && ps[i].name in registered && (ps[i].name == "searxng" ==> "http" <= ps[i].url)
      && !(0.0 <= ps[i].rps <= 10.0)
    case RetriesRange(i) =>
      && NewName(ps, registered, i) && ps[i].name in registered && (ps[i].name == "searxng" ==> "http" <= ps[i].url)
      && 0.0 <= ps[i].rps <= 10.0 && !(0 <= ps[i].retries <= 5)
    case _ => false
  }

  /** Provider i has a name, one that no provider before it has. */
  ghost predicate NewName(ps: seq<ProviderConfig>, registered: set<string>, i: nat) {
    FineBefore(ps, registered, i) && ps[i].name != "" && forall j :: 0 <= j < i ==> ps[j].name != ps[i].name
  }

  ghost predicate FineBefore(ps: seq<ProviderConfig>, registered: set<string>, i: nat) {
    i < |ps| && DistinctUpTo(ps, i) && forall j :: 0 <= j < i ==> GoodProvider(ps[j], registered)
  }

  lemma FaultIsWrong(ps: seq<ProviderConfig>, registered: set<string>, i: nat)
    requires FineBefore(ps, registered, i) && Fault(ps, registered, i).Some?
    ensures IsWrong(ps, registered, Fault(ps, registered, i).value)
  {
    var j := FirstNamed(ps, ps[i].name, i);
  }

  /** What Validate complains of is wrong, and is the first thing that is. */
  lemma ErrorMeaning(cfg: Config, registered: set<string>)
    requires Validation(cfg, registered).Some?
    ensures match Validation(cfg, registered).value
      case NoProviders => cfg.providers == []
      case FetchRps => !(0.0 <= cfg.fetch.rps <= 10.0)
      case FetchTTL => cfg.fetch.cacheTTLSeconds < 0
      case err => IsWrong(cfg.providers, registered, err)
    ensures Validation(cfg, registered).value.FetchRps? || Validation(cfg, registered).value.FetchTTL? ==>
      DistinctNames(cfg.providers) && forall p :: p in cfg.providers ==> GoodProvider(p, registered)
  {
    var ps := cfg.providers;
    if ps != [] && FirstFault(ps, registered, |ps|).Some? {
      var i := FirstFaultAt(ps, registered, |ps|);
      NoFaultMeaning(ps, registered, i);
      FaultIsWrong(ps, registered, i);
    } else {
      NoFaultMeaning(ps, registered, |ps|);
    }
  }

  /** The first vertical each name was seen with. */
  ghost predicate SeenAre(seen: map<string, string>, ps: seq<ProviderConfig>, n: nat)
    requires n <= |ps|
  {
    forall name :: (name in seen <==> FirstNamed(ps, name, n) < n)
      && (name in seen ==> seen[name] == ps[FirstNamed(ps, name, n)].vertical)
  }

  lemma SeenNext(ps: seq<ProviderConfig>, registered: set<string>, i: nat, seen: map<string, string>)
    requires i < |ps| && SeenAre(seen, ps, i) && Fault(ps, registered, i).None?
    ensures SeenAre(seen[ps[i].name := ps[i].vertical], ps, i + 1)
  {
    FaultMeaning(ps, registered, i);
    assert FirstNamed(ps, ps[i].name, i) == i;
  }

  /** The body of the loop over the providers. */
  method CheckProvider(ps: seq<ProviderConfig>, registered: set<string>, i: nat, seenVertical: map<string, string>)
    returns (err: Option<Invalid>)
    requires i < |ps| && SeenAre(seenVertical, ps, i)
    ensures err == Fault(ps, registered, i)
  {
    var p := ps[i];
    if p.name == "" {
      return Some(NameMissing(i));
    }
    if p.name in seenVertical {
      if seenVertical[p.name] == p.vertical {
        return Some(Duplicate(i));
      }
      return Some(OtherVertical(i, seenVertical[p.name], p.vertical));
    }
    if p.name !in registered {
      return Some(NotRegistered(i));
    }
    if p.name == "searxng" {
      if p.url == "" {
        return Some(UrlMissing(i));
      }
      if !("http" <= p.url) {
        return Some(UrlScheme(i));
      }
    }
    if p.rps < 0.0 || p.rps > 10.0 {
      return Some(RpsRange(i));
    }
    if p.retries < 0 || p.retries > 5 {
      return Some(RetriesRange(i));
    }
    return None;
  }

  lemma {:induction false} FirstFaultStays(ps: seq<ProviderConfig>, registered: set<string>, n: nat, m: nat)
    requires n <= m <= |ps| && FirstFault(ps, registered, n).Some?
    ensures FirstFault(ps, registered, m) == FirstFault(ps, registered, n)
  {
    if n < m {
      FirstFaultStays(ps, registered, n, m - 1);
    }
  }

  /** The loop over the providers. */
  method CheckProviders(ps: seq<ProviderConfig>, registered: set<string>) returns (err: Option<Invalid>)
    ensures err == FirstFault(ps, registered, |ps|)
  {
    var seenVertical: map<string, string> := map[];
    for i := 0 to |ps|
      invariant FirstFault(ps, registered, i).None? && SeenAre(seenVertical, ps, i)
    {
      err := CheckProvider(ps, registered, i, seenVertical);
      if err.Some? {
        FirstFaultStays(ps, registered, i + 1, |ps|);
        return err;
      }
      SeenNext(ps, registered, i, seenVertical);
      seenVertical := seenVertical[ps[i].name := ps[i].vertical];
    }
    err := None;
  }

  method Validate(cfg: Config, registered: set<string>) returns (err: Option<Invalid>)
    ensures err == Validation(cfg, registered)
    ensures err.None? <==> ValidConfig(cfg, registered)
  {
    ValidationMeaning(cfg, registered);
    if |cfg.providers| == 0 {
      return Some(NoProviders);
    }
    err := CheckProviders(cfg.providers, registered);
    if err.Some? {
      return err;
    }
    if cfg.fetch.rps < 0.0 || cfg.fetch.rps > 10.0 {
      return Some(FetchRps);
    }
    if cfg.fetch.cacheTTLSeconds < 0 {
      return Some(FetchTTL);
    }
    return None;
  }

  // ---- New ------------------------------------------------------------------------------

  function EntryFor(p: Provider, c: ProviderConfig): EntrySpec {
    EntrySpec(p, c.rps, c.retries)
  }

  /** The entries chain.New makes for one configuration entry: one per provider of that name. */
  function Matching(c: ProviderConfig, ps: seq<Provider>): seq<EntrySpec> {
    if ps == [] then []
    else
      var p := ps[|ps| - 1];
      Matching(c, ps[..|ps| - 1]) + if p.name == c.name then [EntryFor(p, c)] else []
  }

  function Entries(cfgs: seq<ProviderConfig>, ps: seq<Provider>): seq<EntrySpec> {
    if cfgs == [] then [] else Entries(cfgs[..|cfgs| - 1], ps) + Matching(cfgs[|cfgs| - 1], ps)
  }

  /** Entries as just made: objects of their own, breakers closed. */
  ghost predicate JustMade(entries: seq<ProviderChain.Entry>, specs: seq<EntrySpec>)
    reads entries
  {
    && |entries| == |specs|
    && (forall i :: 0 <= i < |entries| ==> entries[i].spec == specs[i])
    && (forall e :: e in entries ==> e.State() == CircuitBreaker.NEW_BREAKER)
    && (forall i, j :: 0 <= i < j < |entries| ==> entries[i] != entries[j])
  }

  ghost predicate AllClosed(entries: seq<ProviderChain.Entry>)
    reads entries
  {
    forall e :: e in entries ==> e.State() == CircuitBreaker.Breaker(0, 0.0)
  }

  /** chain.New. */
  method NewChain(cfgs: seq<ProviderConfig>, ps: seq<Provider>) returns (chain: ProviderChain.Chain)
    ensures fresh(chain) && fresh(chain.entries) && JustMade(chain.entries, Entries(cfgs, ps))
    ensures chain.Valid() && chain.Specs() == Entries(cfgs, ps)
  {
    var entries: seq<ProviderChain.Entry> := [];
    for i := 0 to |cfgs|
      invariant fresh(entries) && JustMade(entries, Entries(cfgs[..i], ps))
    {
      ghost var before := Entries(cfgs[..i], ps);
      for j := 0 to |ps|
        invariant fresh(entries) && JustMade(entries, before + Matching(cfgs[i], ps[..j]))
      {
        assert ps[..j + 1][..j] == ps[..j];
        if ps[j].name == cfgs[i].name {
          var e := new ProviderChain.Entry(EntryFor(ps[j], cfgs[i]));
          entries := entries + [e];
        }
      }
      assert ps[..|ps|] == ps;
      assert cfgs[..i + 1][..i] == cfgs[..i];
    }
    assert cfgs[..|cfgs|] == cfgs;
    chain := new ProviderChain.Chain(entries);
  }

  /** The configuration entries of a vertical, in configuration order. */
  function ForVertical(cfgs: seq<ProviderConfig>, v: string): seq<ProviderConfig> {
    if cfgs == [] then []
    else
      var c := cfgs[|cfgs| - 1];
      ForVertical(cfgs[..|cfgs| - 1], v) + if c.vertical == v then [c] else []
  }

  function Verticals(cfgs: seq<ProviderConfig>): set<string> {
    set i | 0 <= i < |cfgs| :: cfgs[i].vertical
  }

  /** The loop over the providers that groups them by vertical. */
  method GroupByVertical(cfgs: seq<ProviderConfig>) returns (byVertical: map<string, seq<ProviderConfig>>)
    ensures byVertical.Keys == Verticals(cfgs)
    ensures forall v :: v in byVertical ==> byVertical[v] == ForVertical(cfgs, v)
  {
    byVertical := map[];
    for i := 0 to |cfgs|
      invariant byVertical.Keys == Verticals(cfgs[..i])
      invariant forall v :: v in byVertical ==> byVertical[v] == ForVertical(cfgs[..i], v)
    {
      var c := cfgs[i];
      if c.vertical !in byVertical {
        NotAVertical(cfgs[..i], c.vertical);
      }
      assert cfgs[..i + 1][..i] == cfgs[..i] && cfgs[..i + 1] == cfgs[..i] + [c];
      VerticalsSnoc(cfgs[..i], c);
      var group := if c.vertical in byVertical then byVertical[c.vertical] else [];
      byVertical := byVertical[c.vertical := group + [c]];
    }
    assert cfgs[..|cfgs|] == cfgs;
  }

  lemma VerticalsSnoc(cfgs: seq<ProviderConfig>, c: ProviderConfig)
    ensures Verticals(cfgs + [c]) == Verticals(cfgs) + {c.vertical}
  {
    var all := cfgs + [c];
    assert all[|cfgs|] == c;
    forall v | v in Verticals(cfgs) ensures v in Verticals(all) {
      var i :| 0 <= i < |cfgs| && cfgs[i].vertical == v;
      assert all[i] == cfgs[i];
    }
  }

  lemma {:induction false} NotAVertical(cfgs: seq<ProviderConfig>, v: string)
    requires v !in Verticals(cfgs)
    ensures ForVertical(cfgs, v) == []
  {
    if cfgs != [] {
      var k := |cfgs| - 1;
      assert cfgs == cfgs[..k] + [cfgs[k]];
      VerticalsSnoc(cfgs[..k], cfgs[k]);
      NotAVertical(cfgs[..k], v);
    }
  }

  datatype Problem = BadConfig(err: Invalid) | FactoryFailed(name: string) | DiskFailed

  datatype Built = Built(engine: Engine) | Refused(problem: Problem)

  /** The fetcher has the configured TTLs: a disk cache exactly if there is a directory, for a day if its TTL
      is 0. */
  ghost predicate FetcherFits(f: Fetch.Fetcher, c: FetchConfig) {
    && f.ttl == c.cacheTTLSeconds as real
    && (f.disk == null <==> c.disk.dir == "")
    && (f.disk != null ==> f.disk.ttl == if c.disk.ttlSeconds == 0 then 86400.0 else c.disk.ttlSeconds as real)
  }

  method NewFetcher(c: FetchConfig, mkdir: bool) returns (fetcher: Option<Fetch.Fetcher>)
    ensures fetcher.None? <==> c.disk.dir != "" && !mkdir
    ensures fetcher.Some? ==> FetcherFits(fetcher.value, c)
  {
    var disk: Disk.Disk? := null;
    if c.disk.dir != "" {
      if !mkdir {
        return None;
      }
      var ttl := c.disk.ttlSeconds;
      if ttl == 0 {
        ttl := 24 * 3600;
      }
      disk := new Disk.Disk(ttl as real);
    }
    var f := new Fetch.Fetcher(c.cacheTTLSeconds as real, disk);
    return Some(f);
  }

  datatype Reply = NoProvider(vertical: string) | Answer(result: Result)

  class Engine {
    const chains: map<string, ProviderChain.Chain>
    const fetcher: Fetch.Fetcher

    constructor (chains: map<string, ProviderChain.Chain>, fetcher: Fetch.Fetcher)
      ensures this.chains == chains && this.fetcher == fetcher
    {
      this.chains, this.fetcher := chains, fetcher;
    }

    ghost predicate Valid() {
      forall v :: v in chains ==> chains[v].Valid()
    }

    /** No entry has had a failure, and all breakers are closed. */
    ghost predicate Unused()
      reads set v, e | v in chains && e in chains[v].entries :: e
    {
      forall v, e :: v in chains && e in chains[v].entries ==> e.State() == CircuitBreaker.Breaker(0, 0.0)
    }

    /** There is a chain for exactly the verticals in use, and it was made of the vertical's entries. */
    ghost predicate Routes(cfgs: seq<ProviderConfig>, ps: seq<Provider>) {
      && chains.Keys == Verticals(cfgs)
      && forall v :: v in chains ==> chains[v].Specs() == Entries(ForVertical(cfgs, v), ps)
    }

    ghost function Touched(vertical: string): set<object> {
      if vertical in chains then set e | e in chains[vertical].entries else {}
    }

    /** Search: the chain of the query's vertical, or an error if there is none. */
    method Search(vertical: string, w: ProviderChain.World, start: real)
      returns (reply: Reply, ghost vs: seq<Visit>, ghost checks: seq<real>, ghost times: seq<real>, ghost end: real)
      requires Valid()
      modifies Touched(vertical)
      ensures reply == NoProvider(vertical) <==> vertical !in chains
      ensures vertical in chains ==>
        && reply.Answer? && ResultOf(chains[vertical].Retries(), vs) == Some(reply.result)
        && PcAfter(chains[vertical].Retries(), Render(vs)) == Some(Finished(reply.result))
        && ProviderChain.Searched(w, chains[vertical].Retries(), old(chains[vertical].Breakers()),
                                  chains[vertical].Breakers(), vs, checks, times, start, end)
    {
      vs, checks, times, end := [], [], [], start;
      if vertical !in chains {
        return NoProvider(vertical), vs, checks, times, end;
      }
      var result;
      result, vs, checks, times, end := chains[vertical].Search(w, start);
      reply := Answer(result);
    }
  }

  /** The factory of the first provider whose factory fails. */
  predicate FailsAt(cfgs: seq<ProviderConfig>, factory: ProviderConfig -> Option<Provider>, i: nat, name: string) {
    && i < |cfgs| && cfgs[i].name == name && factory(cfgs[i]).None?
    && forall j :: 0 <= j < i ==> factory(cfgs[j]).Some?
  }

  ghost predicate FailsFirst(cfgs: seq<ProviderConfig>, factory: ProviderConfig -> Option<Provider>, name: string) {
    exists i: nat :: FailsAt(cfgs, factory, i, name)
  }

  method MakeProviders(cfgs: seq<ProviderConfig>, factory: ProviderConfig -> Option<Provider>)
    returns (ps: seq<Provider>, failed: Option<string>)
    ensures failed.None? <==> forall c :: c in cfgs ==> factory(c).Some?
    ensures failed.None? ==> Made(cfgs, factory, ps)
    ensures failed.Some? ==> FailsFirst(cfgs, factory, failed.value)
  {
    ps := [];
    for i := 0 to |cfgs|
      invariant |ps| == i
      invariant forall j :: 0 <= j < i ==> factory(cfgs[j]) == Some(ps[j])
    {
      var p := factory(cfgs[i]);
      if p.None? {
        assert cfgs[i] in cfgs && FailsAt(cfgs, factory, i, cfgs[i].name);
        return ps, Some(cfgs[i].name);
      }
      ps := ps + [p.value];
    }
    failed := None;
  }

  /** The loop over the map of verticals, whose iteration order is not determined. */
  method MakeChains(ghost cfgs: seq<ProviderConfig>, byVertical: map<string, seq<ProviderConfig>>, ps: seq<Provider>)
    returns (chains: map<string, ProviderChain.Chain>)
    requires forall v :: v in byVertical ==> byVertical[v] == ForVertical(cfgs, v)
    ensures chains.Keys == byVertical.Keys
    ensures forall v :: v in chains ==>
      && chains[v].Valid() && chains[v].Specs() == Entries(ForVertical(cfgs, v), ps)
      && AllClosed(chains[v].entries)
  {
    chains := map[];
    var todo := byVertical.Keys;
    while todo != {}
      invariant todo <= byVertical.Keys && chains.Keys == byVertical.Keys - todo
      invariant forall v :: v in chains ==>
        && chains[v].Valid() && chains[v].Specs() == Entries(ForVertical(cfgs, v), ps)
        && AllClosed(chains[v].entries)
      decreases todo
    {
      var v :| v in todo;
      todo := todo - {v};
      var chain := NewChain(byVertical[v], ps);
      chains := chains[v := chain];
    }
  }

  /** New: factory stands for the registered factories, mkdir for whether the cache directory can be
      made. */
  method New(cfg: Config, registered: set<string>, factory: ProviderConfig -> Option<Provider>, mkdir: bool)
    returns (built: Built)
    ensures built.Built? <==>
      && ValidConfig(cfg, registered) && (forall c :: c in cfg.providers ==> factory(c).Some?)
      && (cfg.fetch.disk.dir == "" || mkdir)
    ensures Validation(cfg, registered).Some? ==> built == Refused(BadConfig(Validation(cfg, registered).value))
    ensures built.Refused? && built.problem.FactoryFailed? ==>
      ValidConfig(cfg, registered) && FailsFirst(cfg.providers, factory, built.problem.name)
    ensures built == Refused(DiskFailed) ==>
      ValidConfig(cfg, registered) && forall c :: c in cfg.providers ==> factory(c).Some?
    ensures built.Built? ==>
      && fresh(built.engine) && built.engine.Valid() && built.engine.Unused()
      && FetcherFits(built.engine.fetcher, cfg.fetch)
      && exists ps: seq<Provider> :: Made(cfg.providers, factory, ps) && built.engine.Routes(cfg.providers, ps)
  {
    var err := Validate(cfg, registered);
    if err.Some? {
      return Refused(BadConfig(err.value));
    }
    var ps, failed := MakeProviders(cfg.providers, factory);
    if failed.Some? {
      return Refused(FactoryFailed(failed.value));
    }
    var fetcher := NewFetcher(cfg.fetch, mkdir);
    if fetcher.None? {
      return Refused(DiskFailed);
    }
    var byVertical := GroupByVertical(cfg.providers);
    var chains := MakeChains(cfg.providers, byVertical, ps);
    var engine := new Engine(chains, fetcher.value);
    assert engine.Routes(cfg.providers, ps);
    built := Built(engine);
  }

  /** The providers built from a configuration, in its order. */
  ghost predicate Made(cfgs: seq<ProviderConfig>, factory: ProviderConfig -> Option<Provider>, ps: seq<Provider>) {
    |ps| == |cfgs| && forall i :: 0 <= i < |cfgs| ==> factory(cfgs[i]) == Some(ps[i])
  }

  // ---- The partition --------------------------------------------------------------------

  /** Providers carry the names they were configured under. */
  predicate NamedAsConfigured(cfgs: seq<ProviderConfig>, ps: seq<Provider>) {
    |ps| == |cfgs| && forall i :: 0 <= i < |cfgs| ==> ps[i].name == cfgs[i].name
  }

  /** The entries of a vertical as one would want them: each of its providers once, with its own
      configuration, in configuration order. */
  function Wanted(cfgs: seq<ProviderConfig>, ps: seq<Provider>, v: string): seq<EntrySpec>
    requires |ps| == |cfgs|
  {
    if cfgs == [] then []
    else
      var k := |cfgs| - 1;
      Wanted(cfgs[..k], ps[..k], v)
      + if cfgs[k].vertical == v then [EntrySpec(ps[k], cfgs[k].rps, cfgs[k].retries)] else []
  }

  lemma {:induction false} MatchingIsOne(cfgs: seq<ProviderConfig>, ps: seq<Provider>, i: nat, n: nat)
    requires NamedAsConfigured(cfgs, ps) && DistinctNames(cfgs) && i < |cfgs| && n <= |ps|
    ensures Matching(cfgs[i], ps[..n]) == if i < n then [EntryFor(ps[i], cfgs[i])] else []
  {
    if n > 0 {
      MatchingIsOne(cfgs, ps, i, n - 1);
      assert ps[..n][..n - 1] == ps[..n - 1];
      assert i != n - 1 ==> cfgs[i].name != cfgs[n - 1].name;
    }
  }

  lemma EntriesSnoc(cfgs: seq<ProviderConfig>, c: ProviderConfig, ps: seq<Provider>)
    ensures Entries(cfgs + [c], ps) == Entries(cfgs, ps) + Matching(c, ps)
  {
    assert (cfgs + [c])[..|cfgs|] == cfgs;
  }

  lemma ForVerticalSnoc(cfgs: seq<ProviderConfig>, c: ProviderConfig, v: string)
    ensures ForVertical(cfgs + [c], v) == ForVertical(cfgs, v) + if c.vertical == v then [c] else []
  {
    assert (cfgs + [c])[..|cfgs|] == cfgs;
  }

  lemma WantedSnoc(cfgs: seq<ProviderConfig>, ps: seq<Provider>, c: ProviderConfig, p: Provider, v: string)
    requires |ps| == |cfgs|
    ensures Wanted(cfgs + [c], ps + [p], v)
         == Wanted(cfgs, ps, v) + if c.vertical == v then [EntrySpec(p, c.rps, c.retries)] else []
  {
    assert (cfgs + [c])[..|cfgs|] == cfgs && (ps + [p])[..|cfgs|] == ps;
  }

  /** One more configuration entry, with the one provider of its name. */
  lemma OneMoreEntry(group: seq<ProviderConfig>, entries: seq<EntrySpec>, c: ProviderConfig, p: Provider, mine: bool,
                     ps: seq<Provider>)
    requires Entries(group, ps) == entries && Matching(c, ps) == [EntryFor(p, c)]
    ensures Entries(group + if mine then [c] else [], ps)
         == entries + if mine then [EntrySpec(p, c.rps, c.retries)] else []
  {
    if mine {
      EntriesSnoc(group, c, ps);
    } else {
      assert group + [] == group && entries + [] == entries;
    }
  }

  lemma OneMoreWanted(cfgs: seq<ProviderConfig>, own: seq<Provider>, c: ProviderConfig, p: Provider, v: string,
                      ps: seq<Provider>, longer: seq<ProviderConfig>, owns: seq<Provider>)
    requires |own| == |cfgs| && Entries(ForVertical(cfgs, v), ps) == Wanted(cfgs, own, v)
    requires Matching(c, ps) == [EntryFor(p, c)] && longer == cfgs + [c] && owns == own + [p]
    ensures Entries(ForVertical(longer, v), ps) == Wanted(longer, owns, v)
  {
    ForVerticalSnoc(cfgs, c, v);
    WantedSnoc(cfgs, own, c, p, v);
    OneMoreEntry(ForVertical(cfgs, v), Wanted(cfgs, own, v), c, p, c.vertical == v, ps);
  }

  /** Each configuration entry has its own provider and no other of its name. */
  predicate OneEach(cfgs: seq<ProviderConfig>, own: seq<Provider>, ps: seq<Provider>) {
    |own| == |cfgs| && forall i :: 0 <= i < |cfgs| ==> Matching(cfgs[i], ps) == [EntryFor(own[i], cfgs[i])]
  }

  lemma {:induction false} EntriesWanted(cfgs: seq<ProviderConfig>, own: seq<Provider>, v: string, ps: seq<Provider>)
    requires OneEach(cfgs, own, ps)
    ensures Entries(ForVertical(cfgs, v), ps) == Wanted(cfgs, own, v)
  {
    if cfgs != [] {
      var k := |cfgs| - 1;
      assert cfgs == cfgs[..k] + [cfgs[k]] && own == own[..k] + [own[k]];
      EntriesWanted(cfgs[..k], own[..k], v, ps);
      OneMoreWanted(cfgs[..k], own[..k], cfgs[k], own[k], v, ps, cfgs, own);
    }
  }

  lemma {:induction false} CountWanted(cfgs: seq<ProviderConfig>, ps: seq<Provider>, v: string, i: nat)
    requires NamedAsConfigured(cfgs, ps) && DistinctNames(cfgs)
    requires i < |cfgs|
    ensures multiset(Wanted(cfgs, ps, v))[EntryFor(ps[i], cfgs[i])] == if cfgs[i].vertical == v then 1 else 0
  {
    var k := |cfgs| - 1;
    var e := EntryFor(ps[i], cfgs[i]);
    var before := Wanted(cfgs[..k], ps[..k], v);
    if i < k {
      CountWanted(cfgs[..k], ps[..k], v, i);
      assert cfgs[i].name != cfgs[k].name;
    } else {
      NotWanted(cfgs[..k], ps[..k], v, e);
    }
  }

  lemma {:induction false} NotWanted(cfgs: seq<ProviderConfig>, ps: seq<Provider>, v: string, e: EntrySpec)
    requires NamedAsConfigured(cfgs, ps) && forall i :: 0 <= i < |cfgs| ==> cfgs[i].name != e.provider.name
    ensures e !in Wanted(cfgs, ps, v)
  {
    if cfgs != [] {
      NotWanted(cfgs[..|cfgs| - 1], ps[..|cfgs| - 1], v, e);
    }
  }

  /** e is made of the i-th provider, for the vertical, with the rate and retries configured for it. */
  predicate IsEntryOf(cfgs: seq<ProviderConfig>, ps: seq<Provider>, v: string, e: EntrySpec, i: nat)
    requires i < |cfgs| == |ps|
  {
    cfgs[i].vertical == v && e.provider == ps[i] && e.rps == cfgs[i].rps && e.retries == cfgs[i].retries
  }

  /** Entry e of the chain of a vertical is one of the configuration entries for that vertical. */
  ghost predicate ConfiguredFor(cfgs: seq<ProviderConfig>, ps: seq<Provider>, v: string, e: EntrySpec)
    requires |ps| == |cfgs|
  {
    exists i :: 0 <= i < |cfgs| && IsEntryOf(cfgs, ps, v, e, i)
  }

  lemma {:induction false} WantedForVertical(cfgs: seq<ProviderConfig>, ps: seq<Provider>, v: string, e: EntrySpec)
    requires |ps| == |cfgs| && e in Wanted(cfgs, ps, v)
    ensures ConfiguredFor(cfgs, ps, v, e)
  {
    var k := |cfgs| - 1;
    if e in Wanted(cfgs[..k], ps[..k], v) {
      WantedForVertical(cfgs[..k], ps[..k], v, e);
      var i :| 0 <= i < k && IsEntryOf(cfgs[..k], ps[..k], v, e, i);
      assert IsEntryOf(cfgs, ps, v, e, i);
    } else {
      assert IsEntryOf(cfgs, ps, v, e, k);
    }
  }

  lemma ChainIsWanted(cfg: Config, registered: set<string>, ps: seq<Provider>, v: string)
    requires ValidConfig(cfg, registered) && NamedAsConfigured(cfg.providers, ps)
    ensures Entries(ForVertical(cfg.providers, v), ps) == Wanted(cfg.providers, ps, v)
  {
    var cfgs := cfg.providers;
    forall i | 0 <= i < |cfgs| ensures Matching(cfgs[i], ps) == [EntryFor(ps[i], cfgs[i])] {
      MatchingIsOne(cfgs, ps, i, |ps|);
      assert ps[..|ps|] == ps;
    }
    EntriesWanted(cfgs, ps, v, ps);
  }

  /** The vertical partition: for a configuration that Validate accepts, and providers named as configured,
      the chain of a vertical holds its providers in configuration order, and every configured provider is
      in the chain of its own vertical exactly once and in no other. */
  lemma VerticalPartition(cfg: Config, registered: set<string>, ps: seq<Provider>, v: string, i: nat)
    requires ValidConfig(cfg, registered) && NamedAsConfigured(cfg.providers, ps) && i < |ps|
    ensures var chain := Entries(ForVertical(cfg.providers, v), ps);
      && chain == Wanted(cfg.providers, ps, v)
      && multiset(chain)[EntrySpec(ps[i], cfg.providers[i].rps, cfg.providers[i].retries)]
         == if cfg.providers[i].vertical == v then 1 else 0
  {
    ChainIsWanted(cfg, registered, ps, v);
    CountWanted(cfg.providers, ps, v, i);
  }

  /** Search finds a chain exactly for the verticals with a provider, and that chain is not empty. */
  lemma {:induction false} ChainIffVertical(cfgs: seq<ProviderConfig>, ps: seq<Provider>, v: string)
    requires |ps| == |cfgs|
    ensures v in Verticals(cfgs) <==> Wanted(cfgs, ps, v) != []
  {
    if cfgs != [] {
      var k := |cfgs| - 1;
      assert cfgs == cfgs[..k] + [cfgs[k]];
      VerticalsSnoc(cfgs[..k], cfgs[k]);
      ChainIffVertical(cfgs[..k], ps[..k], v);
    }
  }

  /** Where an engine that New built sends a query: there is a chain exactly if a provider is configured for
      the vertical, and it is made of those providers, each once, in configuration order. */
  lemma RoutesMeaning(e: Engine, cfg: Config, registered: set<string>, ps: seq<Provider>, v: string)
    requires ValidConfig(cfg, registered) && NamedAsConfigured(cfg.providers, ps) && e.Routes(cfg.providers, ps)
    ensures v in e.chains <==> exists i :: 0 <= i < |ps| && cfg.providers[i].vertical == v
    ensures v in e.chains ==>
      && e.chains[v].Specs() == Wanted(cfg.providers, ps, v) != []
      && e.chains[v].Retries() == RetriesOf(Wanted(cfg.providers, ps, v))
  {
    ChainIffVertical(cfg.providers, ps, v);
    if v in e.chains {
      ChainIsWanted(cfg, registered, ps, v);
    }
  }

  lemma EntryIsConfigured(cfg: Config, registered: set<string>, ps: seq<Provider>, v: string, k: nat)
    requires ValidConfig(cfg, registered) && NamedAsConfigured(cfg.providers, ps) && k < |Wanted(cfg.providers, ps, v)|
    ensures ConfiguredFor(cfg.providers, ps, v, Wanted(cfg.providers, ps, v)[k])
    ensures 0 <= Wanted(cfg.providers, ps, v)[k].retries <= 5
  {
    var e := Wanted(cfg.providers, ps, v)[k];
    WantedForVertical(cfg.providers, ps, v, e);
    var i :| 0 <= i < |ps| && IsEntryOf(cfg.providers, ps, v, e, i);
    assert GoodProvider(cfg.providers[i], registered);
  }

  function RetriesOf(specs: seq<EntrySpec>): (rs: seq<int>)
    ensures |rs| == |specs| && forall i :: 0 <= i < |specs| ==> rs[i] == specs[i].retries
  {
    seq(|specs|, i requires 0 <= i < |specs| => specs[i].retries)
  }

  /** A search for a vertical, on its own: whatever it does it does to entries configured for the vertical,
      and it never crashes. */
  lemma SearchStaysInVertical(cfg: Config, registered: set<string>, ps: seq<Provider>, v: string, log: seq<Event>)
    requires ValidConfig(cfg, registered) && NamedAsConfigured(cfg.providers, ps)
    requires PcAfter(RetriesOf(Wanted(cfg.providers, ps, v)), log).Some?
    ensures var specs := Wanted(cfg.providers, ps, v);
      && (forall k :: 0 <= k < |log| ==>
            log[k].entry < |specs| && ConfiguredFor(cfg.providers, ps, v, specs[log[k].entry]))
      && PcAfter(RetriesOf(specs), log) != Some(Finished(Crashed))
  {
    var specs := Wanted(cfg.providers, ps, v);
    EventsInChain(RetriesOf(specs), log);
    forall i: nat | i < |specs| ensures ConfiguredFor(cfg.providers, ps, v, specs[i]) && specs[i].retries <= 5 {
      EntryIsConfigured(cfg, registered, ps, v, i);
    }
    if PcAfter(RetriesOf(specs), log) == Some(Finished(Crashed)) {
      CrashNeedsRetries(RetriesOf(specs), log);
      assert false;
    }
  }

  /** The chain of a vertical as the concurrent system of module ChainRuns sees it. */
  function Shares(specs: seq<EntrySpec>): (cs: seq<ChainRuns.Config>)
    ensures |cs| == |specs|
    ensures forall i :: 0 <= i < |specs| ==> cs[i] == ChainRuns.Config(specs[i].retries, specs[i].rps)
  {
    seq(|specs|, i requires 0 <= i < |specs| => ChainRuns.Config(specs[i].retries, specs[i].rps))
  }

  /** Concurrent searches for a vertical: over any interleaving every provider call goes to an entry
      configured for the vertical, and no search crashes. */
  lemma RunStaysInVertical(cfg: Config, registered: set<string>, ps: seq<Provider>, v: string,
                           t0: real, run: seq<ChainRuns.Stamped>, id: nat)
    requires ValidConfig(cfg, registered) && NamedAsConfigured(cfg.providers, ps)
    requires ChainRuns.Run(Shares(Wanted(cfg.providers, ps, v)), t0, run).Some?
    ensures var specs := Wanted(cfg.providers, ps, v);
      var s := ChainRuns.Run(Shares(specs), t0, run).value;
      && (forall k :: 0 <= k < |run| && run[k].move.Act? && run[k].move.id == id ==>
            run[k].move.ev.entry < |specs| && ConfiguredFor(cfg.providers, ps, v, specs[run[k].move.ev.entry]))
      && (id in s.searches ==> s.searches[id] != Finished(Crashed))
  {
    var specs := Wanted(cfg.providers, ps, v);
    ChainRuns.SearchesFollowLogs(Shares(specs), t0, run, id);
    assert ChainRuns.Retries(Shares(specs)) == RetriesOf(specs);
    var log := ChainRuns.LogOf(run, id);
    if id in ChainRuns.Run(Shares(specs), t0, run).value.searches {
      SearchStaysInVertical(cfg, registered, ps, v, log);
    }
    forall k | 0 <= k < |run| && run[k].move.Act? && run[k].move.id == id ensures run[k].move.ev in log {
      ChainRuns.ActInLog(run, id, k);
    }
  }
}
