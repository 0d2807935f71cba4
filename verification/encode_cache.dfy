/**
  `EncodeCache` (`src/EncodeCache.ts`): a three-tier lookup of rendered diagrams (the
  in-memory map, then the cache file, then the remote server) and `writeCache`, which
  persists the entries that did not come from disk.
 */
module EncodeCache {
  import opened Common
  import opened Config
  import opened Io

  /** A map entry: the rendered bytes and whether they were read from the cache file. */
  datatype Entry = Entry(data: Bytes, stored: bool)

  /**
    An `EncodeCache` object: its normalised configuration and its `#cache` map. A JavaScript
    `Map` iterates in insertion order, so the keys are also kept in the order they were added.
   */
  datatype Cache = Cache(config: Settings, entries: map<Digest, Entry>, order: seq<Digest>)

  /** The key order lists each key of the map exactly once. */
  predicate Valid(c: Cache)
  {
    && Distinct(c.order)
    && (forall h | h in c.entries :: h in c.order)
    && (forall i | 0 <= i < |c.order| :: c.order[i] in c.entries)
  }

  /** `new EncodeCache(config)`: a normalised configuration and an empty map. */
  function New(server: string, format: Format, cacheDir: Option<string>): (c: Cache)
    ensures Valid(c) && c.entries == map[]
    ensures c.config == Normalise(server, format, cacheDir)
  {
    Cache(Normalise(server, format, cacheDir), map[], [])
  }

  /**
    `this.#cache.set(hash, entry)`: a `Map` keeps a key's first insertion position when its
    value is replaced, and appends a new key at the end.
   */
  function Insert(c: Cache, hash: Digest, e: Entry): (r: Cache)
    ensures r.config == c.config && r.entries == c.entries[hash := e]
    ensures hash !in c.entries ==> r.order == c.order + [hash]
    ensures hash in c.entries ==> r.order == c.order
    ensures Valid(c) ==> Valid(r)
  {
    Cache(c.config, c.entries[hash := e], if hash in c.entries then c.order else c.order + [hash])
  }

  /** `request(url)`: the body of whatever `fetch` answers, whatever its status; a rejection propagates. */
  datatype Fetched = Fetched(result: Result<Bytes>, world: World)

  function Request(url: string, response: Response, w: World): (f: Fetched)
    ensures f.world == Record(w, RequestCall(url))
    ensures response.Reply? ==> f.result == Success(response.body)
    ensures response.Rejected? ==> f.result == Failure(response.reason)
  {
    var w' := Record(w, RequestCall(url));
    match response
    case Reply(_, _, body) => Fetched(Success(body), w')
    case Rejected(reason) => Fetched(Failure(reason), w')
  }

  /** The state after `generate`, and what its promise settles with. */
  datatype Outcome = Outcome(cache: Cache, world: World, result: Result<Bytes>)

  /**
    `generate(uml)`: emits `process:start`, then answers from the map, else from the cache
    file (recording it as stored), else from the server (recording it as not stored).
    `response` is what the server would answer if it were asked.
   */
  function Generate(c: Cache, lib: Library, uml: string, response: Response, w: World): (o: Outcome)
    ensures |w.events| < |o.world.events| && o.world.events[..|w.events|] == w.events
    ensures o.world.events[|w.events|] == ProcessStart(lib.sha1(uml))
    ensures o.world.disk == w.disk
    ensures o.cache.config == c.config
    ensures forall h | h in c.entries :: h in o.cache.entries && o.cache.entries[h] == c.entries[h]
    ensures forall h | h in o.cache.entries :: h in c.entries || h == lib.sha1(uml)
    ensures Valid(c) ==> Valid(o.cache)
    ensures o.result.Success? <==> lib.sha1(uml) in o.cache.entries
    ensures |w.calls| <= |o.world.calls| && o.world.calls[..|w.calls|] == w.calls
    ensures forall i | |w.calls| <= i < |o.world.calls| :: o.world.calls[i].ReadFileCall? || o.world.calls[i].RequestCall?
    ensures o.result.Success? ==> o.result.value == o.cache.entries[lib.sha1(uml)].data
  {
    var hash := lib.sha1(uml);
    var url := Url(c.config, lib.encode(uml));
    var w1 := Emit(w, ProcessStart(hash));
    if hash in c.entries then
      Outcome(c, Emit(w1, ProcessMemory(hash)), Success(c.entries[hash].data))
    else
      var read := ReadFile(c.config, CachePath(c.config, hash), w1);
      if read.data.Some? then
        Outcome(Insert(c, hash, Entry(read.data.value, true)), Emit(read.world, ProcessCache(hash)), Success(read.data.value))
      else
        var fetched := Request(url, response, read.world);
        match fetched.result
        case Failure(e) => Outcome(c, fetched.world, Failure(e))
        case Success(body) =>
          Outcome(Insert(c, hash, Entry(body, false)), Emit(fetched.world, ProcessServer(hash)), Success(body))
  }

  /** Memory hit: the cached data, no helper called, the map untouched. */
  lemma GenerateFromMemory(c: Cache, lib: Library, uml: string, response: Response, w: World)
    requires lib.sha1(uml) in c.entries
    ensures var o := Generate(c, lib, uml, response, w);
      && o.result == Success(c.entries[lib.sha1(uml)].data)
      && o.cache == c
      && o.world.calls == w.calls
      && o.world.events == w.events + [ProcessStart(lib.sha1(uml)), ProcessMemory(lib.sha1(uml))]
  {
  }

  /** Disk hit: the file's bytes, recorded as stored; the server is not asked. */
  lemma GenerateFromDisk(c: Cache, lib: Library, uml: string, response: Response, w: World)
    requires lib.sha1(uml) !in c.entries && OnDisk(c.config, lib.sha1(uml), w.disk)
    ensures var hash := lib.sha1(uml);
      var data := w.disk.files[CachePath(c.config, hash).value];
      var o := Generate(c, lib, uml, response, w);
      && o.result == Success(data)
      && o.cache.entries == c.entries[hash := Entry(data, true)]
      && o.world.calls == w.calls + [ReadFileCall(CachePath(c.config, hash))]
      && o.world.events == w.events + [ProcessStart(hash), ProcessCache(hash)]
  {
  }

  /** Remote: after a missed read the server is asked, and its body is returned verbatim, recorded as not stored. */
  lemma GenerateFromServer(c: Cache, lib: Library, uml: string, response: Response, w: World)
    requires lib.sha1(uml) !in c.entries && !OnDisk(c.config, lib.sha1(uml), w.disk)
    ensures var hash := lib.sha1(uml);
      var o := Generate(c, lib, uml, response, w);
      && o.world.calls == w.calls + [ReadFileCall(CachePath(c.config, hash)), RequestCall(Url(c.config, lib.encode(uml)))]
      && (response.Reply? ==>
            && o.result == Success(response.body)
            && o.cache.entries == c.entries[hash := Entry(response.body, false)]
            && o.world.events == w.events + [ProcessStart(hash), ProcessServer(hash)])
      && (response.Rejected? ==>
            && o.result == Failure(response.reason)
            && o.cache == c
            && o.world.events == w.events + [ProcessStart(hash)])
  {
  }

  /** The server is asked exactly when neither the map nor the cache file has the diagram. */
  lemma RequestOnlyOnMiss(c: Cache, lib: Library, uml: string, response: Response, w: World)
    ensures var o := Generate(c, lib, uml, response, w);
      (RequestCall(Url(c.config, lib.encode(uml))) in o.world.calls[|w.calls|..])
        <==> (lib.sha1(uml) !in c.entries && !OnDisk(c.config, lib.sha1(uml), w.disk))
  {
    var hash := lib.sha1(uml);
    var o := Generate(c, lib, uml, response, w);
    if hash in c.entries {
      GenerateFromMemory(c, lib, uml, response, w);
      assert o.world.calls[|w.calls|..] == [];
    } else if OnDisk(c.config, hash, w.disk) {
      GenerateFromDisk(c, lib, uml, response, w);
      assert o.world.calls[|w.calls|..] == [ReadFileCall(CachePath(c.config, hash))];
    } else {
      GenerateFromServer(c, lib, uml, response, w);
      assert o.world.calls[|w.calls|..]
          == [ReadFileCall(CachePath(c.config, hash)), RequestCall(Url(c.config, lib.encode(uml)))];
    }
  }

  /** Every call emits `process:start`, then, when it settles with data, exactly one event naming the tier that answered. */
  lemma GenerateEvents(c: Cache, lib: Library, uml: string, response: Response, w: World)
    ensures var hash := lib.sha1(uml);
      var o := Generate(c, lib, uml, response, w);
      var tail := o.world.events[|w.events|..];
      && (o.result.Success? ==>
            && |tail| == 2 && tail[0] == ProcessStart(hash)
            && (tail[1] == ProcessMemory(hash) || tail[1] == ProcessCache(hash) || tail[1] == ProcessServer(hash)))
      && (o.result.Failure? ==> tail == [ProcessStart(hash)])
  {
    var hash := lib.sha1(uml);
    var o := Generate(c, lib, uml, response, w);
    if hash in c.entries {
      GenerateFromMemory(c, lib, uml, response, w);
    } else if OnDisk(c.config, hash, w.disk) {
      GenerateFromDisk(c, lib, uml, response, w);
    } else {
      GenerateFromServer(c, lib, uml, response, w);
    }
    assert o.world.events == w.events + o.world.events[|w.events|..];
  }

  /** Asking twice for the same diagram: the second answer is the first, from memory, with no helper called. */
  lemma GenerateTwice(c: Cache, lib: Library, uml: string, r1: Response, r2: Response, w: World)
    requires Generate(c, lib, uml, r1, w).result.Success?
    ensures var o1 := Generate(c, lib, uml, r1, w);
      var o2 := Generate(o1.cache, lib, uml, r2, o1.world);
      && o2.result == o1.result
      && o2.cache == o1.cache
      && o2.world.calls == o1.world.calls
  {
    var o1 := Generate(c, lib, uml, r1, w);
    GenerateFromMemory(o1.cache, lib, uml, r2, o1.world);
  }

  /** Two diagrams with distinct hashes and no cache directory: two requests, one per diagram. */
  lemma DistinctDiagramsRequestTwice(c: Cache, lib: Library, u1: string, u2: string, r1: Response, r2: Response, w: World)
    requires lib.sha1(u1) != lib.sha1(u2)
    requires c.config.cacheDir.None? && lib.sha1(u1) !in c.entries && lib.sha1(u2) !in c.entries
    ensures var o1 := Generate(c, lib, u1, r1, w);
      var o2 := Generate(o1.cache, lib, u2, r2, o1.world);
      o2.world.calls == w.calls + [ReadFileCall(None), RequestCall(Url(c.config, lib.encode(u1))),
                                   ReadFileCall(None), RequestCall(Url(c.config, lib.encode(u2)))]
  {
    var o1 := Generate(c, lib, u1, r1, w);
    GenerateFromServer(c, lib, u1, r1, w);
    GenerateFromServer(o1.cache, lib, u2, r2, o1.world);
    Assoc(w.calls, [ReadFileCall(None), RequestCall(Url(c.config, lib.encode(u1)))],
          [ReadFileCall(None), RequestCall(Url(c.config, lib.encode(u2)))]);
  }

  // ---------------------------------------------------------------------------
  // writeCache
  // ---------------------------------------------------------------------------

  /** The entry under `h` came from the server and has not been read from disk. */
  predicate Pending(entries: map<Digest, Entry>, h: Digest)
  {
    h in entries && !entries[h].stored
  }

  /** The keys in `keys`, in order, whose entries are pending. */
  function Unstored(entries: map<Digest, Entry>, keys: seq<Digest>): (u: seq<Digest>)
    ensures |u| <= |keys|
    ensures forall h :: h in u <==> h in keys && Pending(entries, h)
    decreases |keys|
  {
    if |keys| == 0 then []
    else if Pending(entries, keys[0]) then [keys[0]] + Unstored(entries, keys[1..])
    else Unstored(entries, keys[1..])
  }

  /** The `writeFile` call for each key, in order. */
  function WriteCalls(config: Settings, entries: map<Digest, Entry>, keys: seq<Digest>): (cs: seq<Call>)
    requires forall h | h in keys :: h in entries
    ensures |cs| == |keys|
    ensures forall i | 0 <= i < |keys| :: cs[i] == WriteFileCall(CachePath(config, keys[i]), entries[keys[i]].data)
    decreases |keys|
  {
    if |keys| == 0 then []
    else [WriteFileCall(CachePath(config, keys[0]), entries[keys[0]].data)] + WriteCalls(config, entries, keys[1..])
  }

  /** One iteration of the `for (const [hash, cache] of this.#cache)` loop: skip stored entries, write the others. */
  function Step(config: Settings, entries: map<Digest, Entry>, h: Digest, w: World): World
  {
    if Pending(entries, h) then WriteFile(config, CachePath(config, h), entries[h].data, w) else w
  }

  /** The loop over `keys`. */
  function WriteLoop(config: Settings, entries: map<Digest, Entry>, keys: seq<Digest>, w: World): (w': World)
    ensures |w.calls| <= |w'.calls| && w'.calls[..|w.calls|] == w.calls
    ensures |w.events| <= |w'.events| && w'.events[..|w.events|] == w.events
    ensures w'.disk.dirs == w.disk.dirs
    decreases |keys|
  {
    if |keys| == 0 then w
    else WriteLoop(config, entries, keys[1..], Step(config, entries, keys[0], w))
  }

  /** `writeCache()`: nothing without a cache directory; otherwise `makeCacheDirectory`, then one write per pending entry. */
  function WriteCache(c: Cache, w: World): (w': World)
    ensures |w.calls| <= |w'.calls| && w'.calls[..|w.calls|] == w.calls
    ensures |w.events| <= |w'.events| && w'.events[..|w.events|] == w.events
    ensures c.config.cacheDir.None? ==> w' == w
    ensures c.config.cacheDir.Some? ==> w'.disk.dirs == w.disk.dirs + {c.config.cacheDir.value}
  {
    if c.config.cacheDir.None? then w
    else WriteLoop(c.config, c.entries, c.order, MakeCacheDirectory(c.config, w))
  }

  /** The calls one `writeCache` makes with a cache directory: `makeCacheDirectory`, then a write per pending key. */
  function CacheWrites(c: Cache): seq<Call>
  {
    [MakeCacheDirectoryCall] + WriteCalls(c.config, c.entries, Unstored(c.entries, c.order))
  }

  /** The keys among `[h]` whose entries are pending. */
  function PendingOf(entries: map<Digest, Entry>, h: Digest): seq<Digest>
  {
    if Pending(entries, h) then [h] else []
  }

  /** One iteration appends the write call of `h` when its entry is pending, and nothing else. */
  lemma StepCalls(config: Settings, entries: map<Digest, Entry>, h: Digest, w: World)
    ensures Step(config, entries, h, w).calls == w.calls + WriteCalls(config, entries, PendingOf(entries, h))
  {
  }

  lemma UnstoredStep(entries: map<Digest, Entry>, keys: seq<Digest>)
    requires |keys| > 0
    ensures Unstored(entries, keys) == PendingOf(entries, keys[0]) + Unstored(entries, keys[1..])
  {
  }

  lemma {:induction false} WriteCallsAppend(config: Settings, entries: map<Digest, Entry>, a: seq<Digest>, b: seq<Digest>)
    requires forall h | h in a :: h in entries
    requires forall h | h in b :: h in entries
    ensures WriteCalls(config, entries, a + b) == WriteCalls(config, entries, a) + WriteCalls(config, entries, b)
  {
    var l := WriteCalls(config, entries, a + b);
    var r := WriteCalls(config, entries, a) + WriteCalls(config, entries, b);
    assert |l| == |r|;
    forall i | 0 <= i < |l|
      ensures l[i] == r[i]
    {
      if i < |a| {
        assert (a + b)[i] == a[i];
      } else {
        assert (a + b)[i] == b[i - |a|];
      }
    }
  }

  lemma Assoc<T>(a: seq<T>, b: seq<T>, c: seq<T>)
    ensures (a + b) + c == a + (b + c)
  {
  }

  /** The loop calls `writeFile` exactly for the pending keys, in order. */
  lemma {:induction false} WriteLoopCalls(config: Settings, entries: map<Digest, Entry>, keys: seq<Digest>, w: World)
    ensures WriteLoop(config, entries, keys, w).calls == w.calls + WriteCalls(config, entries, Unstored(entries, keys))
    decreases |keys|
  {
    if |keys| > 0 {
      var h := keys[0];
      var w1 := Step(config, entries, h, w);
      var first, rest := PendingOf(entries, h), Unstored(entries, keys[1..]);
      WriteLoopCalls(config, entries, keys[1..], w1);
      StepCalls(config, entries, h, w);
      UnstoredStep(entries, keys);
      WriteCallsAppend(config, entries, first, rest);
      Assoc(w.calls, WriteCalls(config, entries, first), WriteCalls(config, entries, rest));
    }
  }

  /** No key is listed twice, so no file is written twice. */
  lemma {:induction false} UnstoredDistinct(entries: map<Digest, Entry>, keys: seq<Digest>)
    requires Distinct(keys)
    ensures Distinct(Unstored(entries, keys))
    decreases |keys|
  {
    if |keys| > 0 {
      DistinctTail(keys);
      UnstoredDistinct(entries, keys[1..]);
      if Pending(entries, keys[0]) {
        var u := Unstored(entries, keys[1..]);
        assert keys[0] !in keys[1..];
        assert keys[0] !in u;
        assert Unstored(entries, keys) == [keys[0]] + u;
      }
    }
  }

  lemma DistinctTail(keys: seq<Digest>)
    requires |keys| > 0 && Distinct(keys)
    ensures Distinct(keys[1..]) && keys[0] !in keys[1..]
  {
    forall i, j | 0 <= i < j < |keys| - 1
      ensures keys[1..][i] != keys[1..][j]
    {
      assert keys[1..][i] == keys[i + 1] && keys[1..][j] == keys[j + 1];
    }
    forall j | 0 <= j < |keys| - 1
      ensures keys[1..][j] != keys[0]
    {
      assert keys[1..][j] == keys[j + 1];
    }
  }

  /**
    With a cache directory, `writeCache` creates it once, then calls `writeFile` exactly once
    for every entry that came from the server, in insertion order, at its cache path.
   */
  lemma WriteCacheCalls(c: Cache, w: World)
    requires Valid(c) && c.config.cacheDir.Some?
    ensures var u := Unstored(c.entries, c.order);
      && Distinct(u)
      && (forall h :: h in u <==> Pending(c.entries, h))
      && WriteCache(c, w).calls == w.calls + CacheWrites(c)
  {
    UnstoredDistinct(c.entries, c.order);
    WriteLoopCalls(c.config, c.entries, c.order, MakeCacheDirectory(c.config, w));
    Assoc(w.calls, [MakeCacheDirectoryCall], WriteCalls(c.config, c.entries, Unstored(c.entries, c.order)));
  }

  /** Without a cache directory `writeCache` does nothing at all. */
  lemma WriteCacheWithoutDir(c: Cache, w: World)
    requires c.config.cacheDir.None?
    ensures WriteCache(c, w) == w
  {
  }

  /** `writeCache` changes neither the map nor the `stored` flags, so calling it again writes the same files again. */
  lemma WriteCacheRepeats(c: Cache, w: World)
    requires Valid(c) && c.config.cacheDir.Some?
    ensures WriteCache(c, WriteCache(c, w)).calls == w.calls + CacheWrites(c) + CacheWrites(c)
  {
    WriteCacheCalls(c, w);
    WriteCacheCalls(c, WriteCache(c, w));
  }

  /** The paths the loop may write: the cache paths of the pending keys. */
  predicate WrittenPath(config: Settings, entries: map<Digest, Entry>, keys: seq<Digest>, p: string)
  {
    exists h | h in keys && Pending(entries, h) :: CachePath(config, h) == Some(p)
  }

  /** A path written by the rest of the loop is written by the whole loop. */
  lemma WrittenPathTail(config: Settings, entries: map<Digest, Entry>, keys: seq<Digest>, p: string)
    requires |keys| > 0
    ensures WrittenPath(config, entries, keys[1..], p) ==> WrittenPath(config, entries, keys, p)
  {
    if WrittenPath(config, entries, keys[1..], p) {
      var g :| g in keys[1..] && Pending(entries, g) && CachePath(config, g) == Some(p);
      assert g in keys;
    }
  }

  /**
    When the directory exists, every pending key's file ends up holding its entry's data;
    files at other paths keep their contents, no file appears anywhere else, and only
    `cache:write` events are emitted.
   */
  lemma {:induction false} WriteLoopPersists(config: Settings, entries: map<Digest, Entry>, keys: seq<Digest>, w: World)
    requires config.cacheDir.Some? && config.cacheDir.value in w.disk.dirs && Distinct(keys)
    ensures var w' := WriteLoop(config, entries, keys, w);
      && (forall h | h in keys && Pending(entries, h) ::
            CachePath(config, h).value in w'.disk.files && w'.disk.files[CachePath(config, h).value] == entries[h].data)
      && (forall p | p in w.disk.files && !WrittenPath(config, entries, keys, p) ::
            p in w'.disk.files && w'.disk.files[p] == w.disk.files[p])
      && (forall p | p in w'.disk.files :: p in w.disk.files || WrittenPath(config, entries, keys, p))
      && (forall i | |w.events| <= i < |w'.events| :: w'.events[i].CacheWrite?)
      && w'.events[..|w.events|] == w.events
      && w'.disk.dirs == w.disk.dirs
    decreases |keys|
  {
    if |keys| > 0 {
      var h := keys[0];
      var w1 := Step(config, entries, h, w);
      if Pending(entries, h) {
        CachePathInCacheDir(config, h);
      }
      DistinctTail(keys);
      WriteLoopPersists(config, entries, keys[1..], w1);
      var w' := WriteLoop(config, entries, keys[1..], w1);
      forall g | g in keys && Pending(entries, g)
        ensures CachePath(config, g).value in w'.disk.files && w'.disk.files[CachePath(config, g).value] == entries[g].data
      {
        if g == h {
          assert h !in keys[1..];
          forall g' | g' in keys[1..] && Pending(entries, g')
            ensures CachePath(config, g') != CachePath(config, h)
          {
            CachePathInjective(config, g', h);
          }
          assert !WrittenPath(config, entries, keys[1..], CachePath(config, h).value);
        } else {
          assert g in keys[1..];
        }
      }
      forall p | p in w.disk.files && !WrittenPath(config, entries, keys, p)
        ensures p in w'.disk.files && w'.disk.files[p] == w.disk.files[p]
      {
        WrittenPathTail(config, entries, keys, p);
        if Pending(entries, h) {
          assert CachePath(config, h) != Some(p);
        }
      }
      WriteLoopNewFiles(config, entries, keys, w);
    }
    WriteLoopEmitsWrites(config, entries, keys, w);
  }

  /** When the directory exists, every event the loop emits is a `cache:write`. */
  lemma {:induction false} WriteLoopEmitsWrites(config: Settings, entries: map<Digest, Entry>, keys: seq<Digest>, w: World)
    requires config.cacheDir.Some? && config.cacheDir.value in w.disk.dirs
    ensures forall i | |w.events| <= i < |WriteLoop(config, entries, keys, w).events| ::
              WriteLoop(config, entries, keys, w).events[i].CacheWrite?
    decreases |keys|
  {
    if |keys| > 0 {
      var h := keys[0];
      var w1 := Step(config, entries, h, w);
      if Pending(entries, h) {
        CachePathInCacheDir(config, h);
      }
      WriteLoopEmitsWrites(config, entries, keys[1..], w1);
      var w' := WriteLoop(config, entries, keys[1..], w1);
      forall i | |w.events| <= i < |w1.events|
        ensures w'.events[i].CacheWrite?
      {
        assert w'.events[i] == w'.events[..|w1.events|][i];
      }
    }
  }

  /** The loop creates no file except at the cache path of a pending key. */
  lemma {:induction false} WriteLoopNewFiles(config: Settings, entries: map<Digest, Entry>, keys: seq<Digest>, w: World)
    ensures var w' := WriteLoop(config, entries, keys, w);
      forall p | p in w'.disk.files :: p in w.disk.files || WrittenPath(config, entries, keys, p)
    decreases |keys|
  {
    if |keys| > 0 {
      var h := keys[0];
      var w1 := Step(config, entries, h, w);
      WriteLoopNewFiles(config, entries, keys[1..], w1);
      var w' := WriteLoop(config, entries, keys[1..], w1);
      forall p | p in w'.disk.files
        ensures p in w.disk.files || WrittenPath(config, entries, keys, p)
      {
        WrittenPathTail(config, entries, keys, p);
        if p !in w.disk.files && !WrittenPath(config, entries, keys[1..], p) {
          assert p in w1.disk.files;
          assert Pending(entries, h) && CachePath(config, h) == Some(p);
          assert h in keys;
        }
      }
    }
  }

  /** With a cache directory, after `writeCache` every entry that came from the server is in its cache file. */
  lemma WriteCachePersists(c: Cache, w: World)
    requires Valid(c) && c.config.cacheDir.Some?
    ensures var w' := WriteCache(c, w);
      && (forall h | Pending(c.entries, h) ::
            CachePath(c.config, h).value in w'.disk.files && w'.disk.files[CachePath(c.config, h).value] == c.entries[h].data)
      && (forall p | p in w.disk.files && !WrittenPath(c.config, c.entries, c.order, p) ::
            p in w'.disk.files && w'.disk.files[p] == w.disk.files[p])
      && (forall p | p in w'.disk.files :: p in w.disk.files || WrittenPath(c.config, c.entries, c.order, p))
      && (forall i | |w.events| <= i < |w'.events| :: w'.events[i].CacheWrite?)
  {
    var w1 := MakeCacheDirectory(c.config, w);
    WriteLoopPersists(c.config, c.entries, c.order, w1);
  }

  /** The jest scenario: one diagram rendered by the server, then `writeCache` with `/path/to/cache`. */
  lemma WriteCacheScenario(lib: Library, uml: string, body: Bytes, w: World)
    requires w.calls == []
    requires CachePath(Normalise("http://test.invalid", Svg, Some("/path/to/cache")), lib.sha1(uml)).value !in w.disk.files
    ensures var c := New("http://test.invalid", Svg, Some("/path/to/cache"));
      var o := Generate(c, lib, uml, Reply(true, "OK", body), w);
      var path := "/path/to/cache/" + CacheFilePrefix + lib.sha1(uml) + ".svg";
      WriteCache(o.cache, o.world).calls
        == [ReadFileCall(Some(path)), RequestCall("http://test.invalid/svg/" + lib.encode(uml)),
            MakeCacheDirectoryCall, WriteFileCall(Some(path), body)]
  {
    var c := New("http://test.invalid", Svg, Some("/path/to/cache"));
    ScenarioConfig(lib.encode(uml), lib.sha1(uml));
    FetchThenWrite(c, lib, uml, body, w);
  }

  /** A fresh cache that fetches one diagram and then writes the cache reads, requests, creates the directory and writes that one file. */
  lemma FetchThenWrite(c: Cache, lib: Library, uml: string, body: Bytes, w: World)
    requires c.entries == map[] && c.order == [] && c.config.cacheDir.Some?
    requires CachePath(c.config, lib.sha1(uml)).value !in w.disk.files
    ensures var o := Generate(c, lib, uml, Reply(true, "OK", body), w);
      var path := CachePath(c.config, lib.sha1(uml));
      WriteCache(o.cache, o.world).calls
        == w.calls + [ReadFileCall(path), RequestCall(Url(c.config, lib.encode(uml))),
                      MakeCacheDirectoryCall, WriteFileCall(path, body)]
  {
    var hash := lib.sha1(uml);
    var path := CachePath(c.config, hash);
    var o := Generate(c, lib, uml, Reply(true, "OK", body), w);
    FetchOne(c, lib, uml, body, w);
    WriteOne(c.config, hash, body, o.world);
    Assoc(w.calls, [ReadFileCall(path), RequestCall(Url(c.config, lib.encode(uml)))],
          [MakeCacheDirectoryCall, WriteFileCall(path, body)]);
  }

  /** A fresh object that fetches one diagram holds exactly that diagram, not yet stored. */
  lemma FetchOne(c: Cache, lib: Library, uml: string, body: Bytes, w: World)
    requires c.entries == map[] && c.order == [] && c.config.cacheDir.Some?
    requires CachePath(c.config, lib.sha1(uml)).value !in w.disk.files
    ensures var o := Generate(c, lib, uml, Reply(true, "OK", body), w);
      && o.cache == Cache(c.config, map[lib.sha1(uml) := Entry(body, false)], [lib.sha1(uml)])
      && o.world.calls == w.calls + [ReadFileCall(CachePath(c.config, lib.sha1(uml))), RequestCall(Url(c.config, lib.encode(uml)))]
  {
    var hash := lib.sha1(uml);
    var o := Generate(c, lib, uml, Reply(true, "OK", body), w);
    GenerateFromServer(c, lib, uml, Reply(true, "OK", body), w);
    assert o.cache.entries == map[hash := Entry(body, false)];
  }

  /** `writeCache` on an object holding one pending entry creates the directory and writes that entry. */
  lemma WriteOne(config: Settings, hash: Digest, body: Bytes, w: World)
    requires config.cacheDir.Some?
    ensures WriteCache(Cache(config, map[hash := Entry(body, false)], [hash]), w).calls
              == w.calls + [MakeCacheDirectoryCall, WriteFileCall(CachePath(config, hash), body)]
  {
    WriteCacheCalls(Cache(config, map[hash := Entry(body, false)], [hash]), w);
    SingleEntryWrites(config, hash, body);
  }

  /** The settings of the scenario above, with its request URL and cache path. */
  lemma ScenarioConfig(e: string, hash: Digest)
    ensures var config := Normalise("http://test.invalid", Svg, Some("/path/to/cache"));
      && config.cacheDir == Some("/path/to/cache")
      && Url(config, e) == "http://test.invalid/svg/" + e
      && CachePath(config, hash) == Some("/path/to/cache/" + CacheFilePrefix + hash + ".svg")
  {
    UrlExample(e);
    var d := "/path/to/cache";
    assert d[|d| - 1] == 'e';
    CachePathOfRawConfig("http://test.invalid", Svg, Some(d), hash);
    assert d + "/" == "/path/to/cache/";
    assert "." + FormatName(Svg) == ".svg";
    Assoc(d + "/" + CacheFilePrefix + hash, ".", "svg");
    Assoc(d, "/", CacheFilePrefix + hash);
    Assoc(d, "/", CacheFilePrefix);
  }

  /** A cache holding one entry from the server writes exactly that entry. */
  lemma SingleEntryWrites(config: Settings, hash: Digest, body: Bytes)
    ensures CacheWrites(Cache(config, map[hash := Entry(body, false)], [hash]))
              == [MakeCacheDirectoryCall, WriteFileCall(CachePath(config, hash), body)]
  {
    assert Unstored(map[hash := Entry(body, false)], [hash]) == [hash];
  }

  /** The state after several `generate` calls in sequence, and what each one settled with. */
  datatype Outcomes = Outcomes(cache: Cache, world: World, results: seq<Result<Bytes>>)

  /** `generate` called once per diagram, in order; the i-th call, if it asks the server, receives `responses[i]`. */
  function Run(c: Cache, lib: Library, umls: seq<string>, responses: seq<Response>, w: World): (r: Outcomes)
    requires |responses| == |umls|
    ensures |r.results| == |umls|
    ensures r.world.disk == w.disk && r.cache.config == c.config
    ensures |w.calls| <= |r.world.calls| && r.world.calls[..|w.calls|] == w.calls
    ensures forall i | |w.calls| <= i < |r.world.calls| :: r.world.calls[i].ReadFileCall? || r.world.calls[i].RequestCall?
    decreases |umls|
  {
    if |umls| == 0 then Outcomes(c, w, [])
    else
      var o := Generate(c, lib, umls[0], responses[0], w);
      var rest := Run(o.cache, lib, umls[1..], responses[1..], o.world);
      LookupCallsChain(w.calls, o.world.calls, rest.world.calls);
      Outcomes(rest.cache, rest.world, [o.result] + rest.results)
  }

  /** Two stretches of lookup calls, one after the other, make one stretch. */
  lemma LookupCallsChain(a: seq<Call>, b: seq<Call>, c: seq<Call>)
    requires |a| <= |b| <= |c| && b[..|a|] == a && c[..|b|] == b
    requires forall i | |a| <= i < |b| :: b[i].ReadFileCall? || b[i].RequestCall?
    requires forall i | |b| <= i < |c| :: c[i].ReadFileCall? || c[i].RequestCall?
    ensures c[..|a|] == a
    ensures forall i | |a| <= i < |c| :: c[i].ReadFileCall? || c[i].RequestCall?
  {
    forall i | 0 <= i < |b|
      ensures c[i] == b[i]
    {
      assert c[i] == c[..|b|][i];
    }
    assert c[..|a|] == b[..|a|];
  }

  /** Without a cache directory a run of `generate` calls followed by `writeCache` leaves the disk as it was and never writes or creates anything. */
  lemma NoCacheDirRun(c: Cache, lib: Library, umls: seq<string>, responses: seq<Response>, w: World)
    requires c.config.cacheDir.None? && |responses| == |umls|
    ensures var r := Run(c, lib, umls, responses, w);
      var w' := WriteCache(r.cache, r.world);
      && w'.disk == w.disk
      && forall i | |w.calls| <= i < |w'.calls| :: !w'.calls[i].WriteFileCall? && !w'.calls[i].MakeCacheDirectoryCall?
  {
  }
}
