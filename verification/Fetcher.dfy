/** fetch/fetch.go: the memory cache in front of the disk cache in front of the origin. Times are in seconds. */
module Fetcher {
  import opened Options
  import opened Readability
  import Disk = DiskCache
  import Dom

  datatype CacheEntry = CacheEntry(page: Page, expiresAt: real)

  /** The two tiers; files is not used when there is no disk cache. */
  datatype Tiers = Tiers(cache: map<string, CacheEntry>, files: Disk.Files)

  /** The memory TTL, and the disk TTL if a disk cache is attached. */
  datatype Limits = Limits(ttl: real, disk: Option<real>)

  datatype Failure =
    | BadUrl | LimiterError | Disallowed | RequestError | BadStatus(status: int) | RateLimited | ParseError

  /** What asking the origin gives: no response, or a status and a document unless the body does not parse. */
  datatype Origin = Fails(failure: Failure) | Responds(status: int, doc: Option<Dom.Node>)

  datatype Result = Ok(page: Page) | Err(failure: Failure)

  function Extracted(url: string, doc: Dom.Node): Page {
    Page(url, PageText(doc))
  }

  /** The two checks of the status, in their order. */
  function StatusFailure(status: int): Option<Failure> {
    if status != 200 then Some(BadStatus(status))
    else if status == 429 then Some(RateLimited)
    else None
  }

  function FromOrigin(url: string, origin: Origin): Result {
    match origin
    case Fails(f) => Err(f)
    case Responds(status, doc) =>
      if StatusFailure(status).Some? then Err(StatusFailure(status).value)
      else if doc.None? then Err(ParseError)
      else Ok(Extracted(url, doc.value))
  }

  /** No response is reported as rate limited; a 429 is a bad status like any other. */
  lemma NeverRateLimited(url: string, origin: Origin)
    requires origin.Responds?
    ensures FromOrigin(url, origin) != Err(RateLimited)
    ensures origin.status == 429 ==> FromOrigin(url, origin) == Err(BadStatus(429))
  {
  }

  /** The clock readings of a fetch: the look into memory, the disk read, the memory write, the disk write. */
  datatype Clocks = Clocks(look: real, read: real, keep: real, put: real)

  /** A fresh page goes to the memory cache and, if there is one, to the disk cache. */
  function Stored(l: Limits, t: Tiers, url: string, page: Page, c: Clocks, fate: Disk.PutFate): Tiers {
    Tiers(t.cache[url := CacheEntry(page, c.keep + l.ttl)],
          if l.disk.Some? then Disk.Put(t.files, url, page, c.put, fate) else t.files)
  }

  predicate InMemory(cache: map<string, CacheEntry>, url: string, now: real) {
    url in cache && now < cache[url].expiresAt
  }

  function DiskGet(l: Limits, t: Tiers, url: string, now: real, io: Disk.Io): Disk.Got {
    if l.disk.Some? then Disk.Get(t.files, l.disk.value, url, now, io) else Disk.Got(t.files, None)
  }

  datatype Fetched = Fetched(tiers: Tiers, result: Result)

  /** What the outside decides: whether the URL parses, the disk's I/O, the origin, how far the Put gets. */
  datatype World = World(parses: bool, io: Disk.Io, origin: Origin, fate: Disk.PutFate)

  function Fetch(l: Limits, t: Tiers, url: string, c: Clocks, w: World): Fetched {
    if !w.parses then Fetched(t, Err(BadUrl))
    else if InMemory(t.cache, url, c.look) then Fetched(t, Ok(t.cache[url].page))
    else
      var got := DiskGet(l, t, url, c.read, w.io);
      var t' := t.(files := got.files);
      if got.page.Some? then
        Fetched(t'.(cache := t.cache[url := CacheEntry(got.page.value, c.keep + l.ttl)]), Ok(got.page.value))
      else
        var result := FromOrigin(url, w.origin);
        Fetched(if result.Ok? then Stored(l, t', url, result.page, c, w.fate) else t', result)
  }

  class Fetcher {
    const ttl: real
    const disk: Disk.Disk?
    var cache: map<string, CacheEntry>

    ghost function Repr(): set<object> {
      if disk == null then {this} else {this, disk}
    }

    ghost function Bounds(): Limits {
      Limits(ttl, if disk == null then None else Some(disk.ttl))
    }

    ghost function State(): Tiers
      reads Repr()
    {
      Tiers(cache, if disk == null then map[] else disk.files)
    }

    constructor (ttl: real, disk: Disk.Disk?)
      ensures this.ttl == ttl && this.disk == disk && cache == map[]
    {
      this.ttl, this.disk, cache := ttl, disk, map[];
    }

    /** Writing a fresh page to both tiers, as Fetch and FetchStream do. */
    method StoreFresh(url: string, page: Page, c: Clocks, fate: Disk.PutFate)
      modifies Repr()
      ensures State() == Stored(Bounds(), old(State()), url, page, c, fate)
    {
      cache := cache[url := CacheEntry(page, c.keep + ttl)];
      if disk != null {
        disk.Store(url, page, c.put, fate);
      }
    }

    method FetchPage(url: string, c: Clocks, w: World) returns (result: Result)
      modifies Repr()
      ensures Fetched(State(), result) == Fetch(Bounds(), old(State()), url, c, w)
    {
      if !w.parses {
        return Err(BadUrl);
      }
      if url in cache && c.look < cache[url].expiresAt {
        return Ok(cache[url].page);
      }
      if disk != null {
        var page := disk.Lookup(url, c.read, w.io);
        if page.Some? {
          cache := cache[url := CacheEntry(page.value, c.keep + ttl)];
          return Ok(page.value);
        }
      }
      if w.origin.Fails? {
        return Err(w.origin.failure);
      }
      var failure := StatusFailure(w.origin.status);
      if failure.Some? {
        return Err(failure.value);
      }
      if w.origin.doc.None? {
        return Err(ParseError);
      }
      var page := Extract(url, w.origin.doc.value);
      StoreFresh(url, page, c, w.fate);
      return Ok(page);
    }
  }
}
