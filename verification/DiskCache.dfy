/** fetch/diskcache.go: pages in files, written through a temporary file and a rename, expired lazily
    and by a collector. Times are in seconds. */
module DiskCache {
  import opened Options
  import opened Readability

  /** The file of a URL and its temporary twin; the SHA-256 name is taken to be injective. */
  datatype Path = Final(url: string) | Tmp(url: string)

  /** A whole encoded page, or a file that does not decode. */
  datatype File = Full(page: Page, mtime: real) | Torn(mtime: real)

  type Files = map<Path, File>

  predicate Expired(f: File, ttl: real, now: real) {
    now - f.mtime > ttl
  }

  datatype Got = Got(files: Files, page: Option<Page>)

  /** Whether ReadFile and Remove work. */
  datatype Io = Io(readable: bool, removable: bool)

  const WORKING: Io := Io(true, true)

  function Dropped(files: Files, path: Path, io: Io): Files {
    if io.removable then files - {path} else files
  }

  /** Get: an expired or undecodable file is removed on the way. */
  function Get(files: Files, ttl: real, url: string, now: real, io: Io): Got {
    var path := Final(url);
    if path !in files then Got(files, None)
    else if Expired(files[path], ttl, now) then Got(Dropped(files, path, io), None)
    else if !io.readable then Got(files, None)
    else if files[path].Torn? then Got(Dropped(files, path, io), None)
    else Got(files, Some(files[path].page))
  }

  /** GC: the expired files whose name ends in .json, which temporary ones do not. */
  function ExpiredPaths(files: Files, ttl: real, now: real): set<Path> {
    set path | path in files && path.Final? && Expired(files[path], ttl, now)
  }

  /** How far Put gets: nothing written, a torn temporary file, a whole one, or the rename. */
  datatype PutFate = NotStarted | WriteFailed | RenameFailed | Written

  function Put(files: Files, url: string, page: Page, now: real, fate: PutFate): Files {
    match fate
    case NotStarted => files
    case WriteFailed => files[Tmp(url) := Torn(now)]
    case RenameFailed => files[Tmp(url) := Full(page, now)]
    case Written => files[Final(url) := Full(page, now)] - {Tmp(url)}
  }

  class Disk {
    const ttl: real
    var files: Files

    constructor (ttl: real)
      ensures this.ttl == ttl && files == map[]
    {
      this.ttl := ttl;
      files := map[];
    }

    method Lookup(url: string, now: real, io: Io) returns (page: Option<Page>)
      modifies this
      ensures Got(files, page) == Get(old(files), ttl, url, now, io)
    {
      var path := Final(url);
      if path !in files || now - files[path].mtime > ttl {
        if path in files {
          Drop(path, io);
        }
        return None;
      }
      if !io.readable {
        return None;
      }
      if files[path].Torn? {
        Drop(path, io);
        return None;
      }
      return Some(files[path].page);
    }

    /** os.Remove, whose error nobody looks at. */
    method Drop(path: Path, io: Io)
      modifies this
      ensures files == Dropped(old(files), path, io)
    {
      if io.removable {
        files := files - {path};
      }
    }

    method Store(url: string, page: Page, now: real, fate: PutFate)
      modifies this
      ensures files == Put(old(files), url, page, now, fate)
    {
      if fate.NotStarted? {
        return;
      }
      files := files[Tmp(url) := Torn(now)];
      if fate.WriteFailed? {
        return;
      }
      files := files[Tmp(url) := Full(page, now)];
      if fate.Written? {
        files := files[Final(url) := files[Tmp(url)]] - {Tmp(url)};
      }
    }

    /** The walk's function on one file: an expired one is counted whether or not its removal works. */
    method CollectFile(path: Path, now: real, works: bool) returns (tried: bool)
      requires path in files
      modifies this
      ensures tried == (path in ExpiredPaths(old(files), ttl, now))
      ensures files == if tried && works then old(files) - {path} else old(files)
    {
      tried := path.Final? && now - files[path].mtime > ttl;
      if tried {
        Drop(path, Io(true, works));
      }
    }

    /** Of the files before, those gone are missing now; they were counted, and those to do were not. */
    static ghost predicate Remaining(before: Files, now: Files, gone: set<Path>, counted: set<Path>, todo: set<Path>) {
      todo <= before.Keys && now == before - gone && gone <= counted && counted !! todo
    }

    static lemma OneLess(before: Files, now: Files, stuck: set<Path>, counted: set<Path>, todo: set<Path>, path: Path)
      requires Remaining(before, now, counted - stuck, counted, todo) && path in todo
      ensures path in now && now[path] == before[path]
      ensures Remaining(before, now, counted - stuck, counted, todo - {path})
      ensures Remaining(before, if path in stuck then now else now - {path}, (counted + {path}) - stuck,
                        counted + {path}, todo - {path})
      ensures |counted + {path}| == |counted| + 1
    {
      assert (counted + {path}) - stuck
          == if path in stuck then counted - stuck else (counted - stuck) + {path};
    }

    /** GC visits every file once, in the order the directory walk meets them, and counts the removals it
        tries; those of the stuck files do not work. */
    method Collect(now: real, stuck: set<Path>) returns (removed: nat)
      modifies this
      ensures files == old(files) - (ExpiredPaths(old(files), ttl, now) - stuck)
      ensures removed == |ExpiredPaths(old(files), ttl, now)|
    {
      removed := 0;
      var todo := files.Keys;
      ghost var before, expired, counted: set<Path> := files, ExpiredPaths(files, ttl, now), {};
      while todo != {}
        invariant Remaining(before, files, counted - stuck, counted, todo) && removed == |counted|
        invariant counted <= expired <= counted + todo
        decreases todo
      {
        var path :| path in todo;
        OneLess(before, files, stuck, counted, todo, path);
        todo := todo - {path};
        var tried := CollectFile(path, now, path !in stuck);
        if tried {
          removed, counted := removed + 1, counted + {path};
        }
      }
      assert counted == expired;
    }
  }

  // ---- What the collector changes -------------------------------------------------------

  /** Exactly the files that are temporary or no older than the TTL stay, and those whose removal does not work. */
  lemma StaysIff(files: Files, ttl: real, now: real, stuck: set<Path>, path: Path)
    requires path in files
    ensures path in files - (ExpiredPaths(files, ttl, now) - stuck)
            <==> path.Tmp? || now - files[path].mtime <= ttl || path in stuck
  {
  }

  ghost predicate AnswersAlike(files: Files, fewer: Files, ttl: real, now: real) {
    forall url, later, io | later >= now :: AnswerAlike(files, fewer, ttl, url, later, io)
  }

  predicate AnswerAlike(files: Files, fewer: Files, ttl: real, url: string, now: real, io: Io) {
    Get(files, ttl, url, now, io).page == Get(fewer, ttl, url, now, io).page
  }

  predicate AllGone(files: Files, ttl: real, now: real, gone: set<Path>) {
    forall path :: path in gone && path in files && path.Final? && files[path].Full? ==> now - files[path].mtime > ttl
  }

  /** Removing files changes no answer of a Get, of any URL at any later time, exactly if those with a page that
      are final have expired. */
  lemma RemovalInvisibleIff(files: Files, ttl: real, now: real, gone: set<Path>)
    ensures AnswersAlike(files, files - gone, ttl, now) <==> AllGone(files, ttl, now, gone)
  {
    var fewer := files - gone;
    if AnswersAlike(files, fewer, ttl, now) {
      forall path | path in gone && path in files && path.Final? && files[path].Full?
        ensures now - files[path].mtime > ttl
      {
        assert AnswerAlike(files, fewer, ttl, path.url, now, WORKING);
      }
    }
    if AllGone(files, ttl, now, gone) {
      forall url, later, io | later >= now ensures AnswerAlike(files, fewer, ttl, url, later, io) {
        assert Final(url) in gone && Final(url) in files && files[Final(url)].Full? ==>
          now - files[Final(url)].mtime > ttl;
      }
    }
  }

  /** So nobody notices the collector, whatever removals work. */
  lemma CollectorInvisible(files: Files, ttl: real, now: real, stuck: set<Path>)
    ensures AnswersAlike(files, files - (ExpiredPaths(files, ttl, now) - stuck), ttl, now)
  {
    RemovalInvisibleIff(files, ttl, now, ExpiredPaths(files, ttl, now) - stuck);
  }
}
