/**
  The outside world both cache classes talk to: the file system behind `fs.promises` and
  `mkdirp`, the log of which helper methods were called, and the events emitted.
  `readFile`, `writeFile` and `makeCacheDirectory` are written identically in
  `EncodeCache` and `PlantUMLServer`, so they are modelled once here.
 */
module Io {
  import opened Common
  import opened Config

  /** The file system: file contents by path, and the directories that exist. */
  datatype Disk = Disk(files: map<string, Bytes>, dirs: set<string>)

  /** A call of one of the methods a test can spy on, with its arguments. */
  datatype Call =
    | ReadFileCall(path: Option<string>)
    | WriteFileCall(path: Option<string>, data: Bytes)
    | MakeCacheDirectoryCall
    | RequestCall(url: string)

  /** An emitted event with its arguments. */
  datatype Event =
    | ProcessStart(hash: Digest)
    | ProcessMemory(hash: Digest)
    | ProcessCache(hash: Digest)
    | ProcessServer(hash: Digest)
    | ProcessServerError(url: string, detail: string)
    | CacheWrite(fileName: string)
    | CacheError(fileName: string)

  /** Everything a call can observe or change outside the cache object itself. */
  datatype World = World(disk: Disk, calls: seq<Call>, events: seq<Event>)

  /** What `fetch` yields for one request: a response, or a rejection with its reason. */
  datatype Response =
    | Reply(ok: bool, statusText: string, body: Bytes)
    | Rejected(reason: string)

  function Emit(w: World, e: Event): World
  {
    w.(events := w.events + [e])
  }

  function Record(w: World, c: Call): World
  {
    w.(calls := w.calls + [c])
  }

  datatype Read = Read(data: Option<Bytes>, world: World)

  /**
    `readFile(fileName)`: null for a null path or a null cache directory; otherwise the
    file's contents, or null when reading fails (here: when the file does not exist).
   */
  function ReadFile(c: Settings, path: Option<string>, w: World): (r: Read)
    ensures r.world == Record(w, ReadFileCall(path))
    ensures r.data.Some? <==> path.Some? && c.cacheDir.Some? && path.value in w.disk.files
    ensures r.data.Some? ==> r.data.value == w.disk.files[path.value]
  {
    var w' := Record(w, ReadFileCall(path));
    if path.None? || c.cacheDir.None? then Read(None, w')
    else if path.value in w.disk.files then Read(Some(w.disk.files[path.value]), w')
    else Read(None, w')
  }

  /** The cache file of `hash` exists, so `readFile` of its path returns it. */
  predicate OnDisk(c: Settings, hash: Digest, d: Disk)
  {
    CachePath(c, hash).Some? && CachePath(c, hash).value in d.files
  }

  /** A write into an existing directory succeeds. */
  predicate CanWrite(d: Disk, path: string)
  {
    DirOf(path) in d.dirs
  }

  /**
    `writeFile(fileName, data)`: nothing for a null path or a null cache directory;
    otherwise the file is written and `cache:write` emitted, or the write fails and
    `cache:error` is emitted. The returned promise never rejects.
   */
  function WriteFile(c: Settings, path: Option<string>, data: Bytes, w: World): (w': World)
    ensures w'.calls == w.calls + [WriteFileCall(path, data)]
    ensures w'.events == w.events + WriteEvents(c, path, w.disk)
    ensures path.None? || c.cacheDir.None? ==> w'.disk == w.disk
    ensures w'.disk.dirs == w.disk.dirs
    ensures path.Some? && c.cacheDir.Some? ==>
              w'.disk.files == if CanWrite(w.disk, path.value) then w.disk.files[path.value := data] else w.disk.files
    ensures forall p | p in w.disk.files && (path.None? || p != path.value) ::
              p in w'.disk.files && w'.disk.files[p] == w.disk.files[p]
    ensures forall p | p in w'.disk.files :: p in w.disk.files || path == Some(p)
  {
    var w1 := Record(w, WriteFileCall(path, data));
    var written := path.Some? && c.cacheDir.Some? && CanWrite(w.disk, path.value);
    var files := if written then w.disk.files[path.value := data] else w.disk.files;
    w1.(disk := w1.disk.(files := files), events := w1.events + WriteEvents(c, path, w.disk))
  }

  /**
    The event `writeFile` emits: none for a null path or a null cache directory, otherwise
    `cache:write` when the write succeeds and `cache:error` when it fails.
   */
  function WriteEvents(c: Settings, path: Option<string>, d: Disk): (es: seq<Event>)
    ensures |es| <= 1
    ensures es == [] <==> path.None? || c.cacheDir.None?
    ensures es != [] ==> (es[0] == CacheWrite(path.value) <==> CanWrite(d, path.value))
    ensures es != [] ==> (es[0] == CacheError(path.value) <==> !CanWrite(d, path.value))
  {
    if path.None? || c.cacheDir.None? then []
    else if CanWrite(d, path.value) then [CacheWrite(path.value)]
    else [CacheError(path.value)]
  }

  /** `makeCacheDirectory()`: `mkdirp(cacheDir)` when a cache directory is configured. */
  function MakeCacheDirectory(c: Settings, w: World): (w': World)
    ensures w'.calls == w.calls + [MakeCacheDirectoryCall]
    ensures w'.events == w.events && w'.disk.files == w.disk.files
    ensures c.cacheDir.None? ==> w'.disk == w.disk
    ensures c.cacheDir.Some? ==> w'.disk.dirs == w.disk.dirs + {c.cacheDir.value}
  {
    var w1 := Record(w, MakeCacheDirectoryCall);
    if c.cacheDir.None? then w1
    else w1.(disk := w1.disk.(dirs := w1.disk.dirs + {c.cacheDir.value}))
  }

  /** What is written is what a later read returns. */
  lemma ReadAfterWrite(c: Settings, path: string, data: Bytes, w: World)
    requires c.cacheDir.Some? && CanWrite(w.disk, path)
    ensures ReadFile(c, Some(path), WriteFile(c, Some(path), data, w)).data == Some(data)
  {
  }

  /** Once the cache directory exists, every cache file can be written into it. */
  lemma CacheFileWritable(c: Settings, hash: Digest, w: World)
    requires c.cacheDir.Some?
    ensures CanWrite(MakeCacheDirectory(c, w).disk, CachePath(c, hash).value)
  {
    CachePathInCacheDir(c, hash);
  }

  /** A write emits exactly one event, `cache:write` or `cache:error`, naming the file. */
  lemma WriteFileEmitsOne(c: Settings, path: string, data: Bytes, w: World)
    requires c.cacheDir.Some?
    ensures var w' := WriteFile(c, Some(path), data, w);
      && |w'.events| == |w.events| + 1
      && (w'.events[|w.events|] == CacheWrite(path) <==> path in w'.disk.files && w'.disk.files[path] == data
                                                         && CanWrite(w.disk, path))
      && (w'.events[|w.events|] == CacheError(path) <==> !CanWrite(w.disk, path))
  {
  }

  /** Without a cache directory none of the three helpers touches the disk or emits anything. */
  lemma NoCacheDirNoDiskTraffic(c: Settings, path: Option<string>, data: Bytes, w: World)
    requires c.cacheDir.None?
    ensures ReadFile(c, path, w).data.None?
    ensures WriteFile(c, path, data, w).disk == w.disk && WriteFile(c, path, data, w).events == w.events
    ensures MakeCacheDirectory(c, w).disk == w.disk
  {
  }
}
