/**
  `PlantUMLServer` (`src/PlantUMLServer.ts`): the same three-tier lookup as `EncodeCache`,
  but a server answer is written to its cache file at once, a response that is not `ok`
  or a request that fails yields null instead of rejecting, and nothing is remembered
  for a diagram that could not be fetched.
 */
module PlantUmlServer {
  import opened Common
  import opened Config
  import opened Io

  /** A `PlantUMLServer` object: its normalised configuration, its CSS class and its `#cache` map. */
  datatype Server = Server(config: Settings, cssClass: Option<string>, cache: map<Digest, Bytes>)

  /** `new PlantUMLServer(config)`: the same normalisation as `EncodeCache`; the CSS class is kept as given. */
  function New(server: string, format: Format, cacheDir: Option<string>, cssClass: Option<string>): (s: Server)
    ensures s.cache == map[]
    ensures s.config == Normalise(server, format, cacheDir)
    ensures s.cssClass == cssClass
  {
    Server(Normalise(server, format, cacheDir), cssClass, map[])
  }

  /** `mime()`: the MIME type of the configured format. */
  function MimeType(s: Server): (m: string)
    ensures |m| >= 9 && m[..6] == "image/" && m[6..9] == FormatName(s.config.format)
  {
    Mime(s.config.format)
  }

  /** `request(url)`: the body of an `ok` response; otherwise `process:server:error` with the status text, and null. A rejection propagates. */
  datatype Fetched = Fetched(result: Result<Option<Bytes>>, world: World)

  function Request(url: string, response: Response, w: World): (f: Fetched)
    ensures f.world.calls == w.calls + [RequestCall(url)] && f.world.disk == w.disk
    ensures f.result == Success(None) <==>
              response.Reply? && !response.ok && f.world.events == w.events + [ProcessServerError(url, response.statusText)]
    ensures (f.result.Success? && f.result.value.Some?) <==> response.Reply? && response.ok
    ensures f.result.Success? && f.result.value.Some? ==> f.result.value.value == response.body && f.world.events == w.events
    ensures f.result.Failure? <==> response.Rejected?
    ensures f.result.Failure? ==> f.result.error == response.reason && f.world.events == w.events
  {
    var w' := Record(w, RequestCall(url));
    match response
    case Reply(ok, statusText, body) =>
      if ok then Fetched(Success(Some(body)), w')
      else Fetched(Success(None), Emit(w', ProcessServerError(url, statusText)))
    case Rejected(reason) => Fetched(Failure(reason), w')
  }

  /** The state after `generate`, and what its promise settles with: the bytes, or null. */
  datatype Outcome = Outcome(server: Server, world: World, result: Option<Bytes>)

  /**
    `generate(uml)`: emits `process:start`, then answers from the map, else from the cache
    file, else from the server. A server answer is remembered, announced with `process:server`
    and written to the cache file at once; a failed request is announced with
    `process:server:error` and yields null. `response` is what the server would answer.
   */
  function Generate(s: Server, lib: Library, uml: string, response: Response, w: World): (o: Outcome)
    ensures |w.events| < |o.world.events| && o.world.events[..|w.events|] == w.events
    ensures o.world.events[|w.events|] == ProcessStart(lib.sha1(uml))
    ensures o.server.config == s.config && o.server.cssClass == s.cssClass
    ensures forall h | h in s.cache :: h in o.server.cache && o.server.cache[h] == s.cache[h]
    ensures forall h | h in o.server.cache :: h in s.cache || h == lib.sha1(uml)
    ensures o.result.Some? <==> lib.sha1(uml) in o.server.cache
    ensures o.result.Some? ==> o.result.value == o.server.cache[lib.sha1(uml)]
    ensures |w.calls| <= |o.world.calls| && o.world.calls[..|w.calls|] == w.calls
    ensures o.world.disk.dirs == w.disk.dirs
    ensures forall p | p in w.disk.files && Some(p) != CachePath(s.config, lib.sha1(uml)) ::
              p in o.world.disk.files && o.world.disk.files[p] == w.disk.files[p]
    ensures forall p | p in o.world.disk.files :: p in w.disk.files || Some(p) == CachePath(s.config, lib.sha1(uml))
  {
    var hash := lib.sha1(uml);
    var url := Url(s.config, lib.encode(uml));
    var w1 := Emit(w, ProcessStart(hash));
    if hash in s.cache then
      Outcome(s, Emit(w1, ProcessMemory(hash)), Some(s.cache[hash]))
    else
      var read := ReadFile(s.config, CachePath(s.config, hash), w1);
      if read.data.Some? then
        Outcome(s.(cache := s.cache[hash := read.data.value]), Emit(read.world, ProcessCache(hash)), read.data)
      else
        var fetched := Request(url, response, read.world);
        match fetched.result
        case Failure(e) => Outcome(s, Emit(fetched.world, ProcessServerError(url, e)), None)
        case Success(None) => Outcome(s, fetched.world, None)
        case Success(Some(body)) =>
          var w2 := Emit(fetched.world, ProcessServer(hash));
          Outcome(s.(cache := s.cache[hash := body]), WriteFile(s.config, CachePath(s.config, hash), body, w2), Some(body))
  }

  /** Memory hit: the cached bytes, no helper called, nothing changed. */
  lemma GenerateFromMemory(s: Server, lib: Library, uml: string, response: Response, w: World)
    requires lib.sha1(uml) in s.cache
    ensures var o := Generate(s, lib, uml, response, w);
      && o.result == Some(s.cache[lib.sha1(uml)])
      && o.server == s
      && o.world.calls == w.calls && o.world.disk == w.disk
      && o.world.events == w.events + [ProcessStart(lib.sha1(uml)), ProcessMemory(lib.sha1(uml))]
  {
  }

  /** Disk hit: the file's bytes, remembered; the server is not asked and nothing is written. */
  lemma GenerateFromDisk(s: Server, lib: Library, uml: string, response: Response, w: World)
    requires lib.sha1(uml) !in s.cache && OnDisk(s.config, lib.sha1(uml), w.disk)
    ensures var hash := lib.sha1(uml);
      var data := w.disk.files[CachePath(s.config, hash).value];
      var o := Generate(s, lib, uml, response, w);
      && o.result == Some(data)
      && o.server.cache == s.cache[hash := data]
      && o.world.calls == w.calls + [ReadFileCall(CachePath(s.config, hash))]
      && o.world.disk == w.disk
      && o.world.events == w.events + [ProcessStart(hash), ProcessCache(hash)]
  {
  }

  /**
    Remote success: after a missed read the server is asked; its body is returned, remembered,
    announced and written through to the cache file in the same call.
   */
  lemma GenerateFromServer(s: Server, lib: Library, uml: string, body: Bytes, statusText: string, w: World)
    requires lib.sha1(uml) !in s.cache && !OnDisk(s.config, lib.sha1(uml), w.disk)
    ensures var hash := lib.sha1(uml);
      var path := CachePath(s.config, hash);
      var o := Generate(s, lib, uml, Reply(true, statusText, body), w);
      && o.result == Some(body)
      && o.server.cache == s.cache[hash := body]
      && o.world.calls == w.calls + [ReadFileCall(path), RequestCall(Url(s.config, lib.encode(uml))), WriteFileCall(path, body)]
      && o.world.events == w.events + [ProcessStart(hash), ProcessServer(hash)] + WriteEvents(s.config, path, w.disk)
  {
  }

  /**
    Remote failure, either a response that is not `ok` or a rejected request: null, one
    `process:server:error` naming the URL, nothing remembered and nothing written.
   */
  lemma GenerateServerError(s: Server, lib: Library, uml: string, response: Response, w: World)
    requires lib.sha1(uml) !in s.cache && !OnDisk(s.config, lib.sha1(uml), w.disk)
    requires response.Rejected? || !response.ok
    ensures var hash := lib.sha1(uml);
      var url := Url(s.config, lib.encode(uml));
      var o := Generate(s, lib, uml, response, w);
      && o.result == None
      && o.server == s
      && o.world.disk == w.disk
      && o.world.calls == w.calls + [ReadFileCall(CachePath(s.config, hash)), RequestCall(url)]
      && o.world.events == w.events + [ProcessStart(hash),
                                       ProcessServerError(url, if response.Rejected? then response.reason else response.statusText)]
  {
  }

  /** `generate` yields null exactly when the diagram is neither known nor cached and the server does not answer `ok`. */
  lemma NullIffServerFails(s: Server, lib: Library, uml: string, response: Response, w: World)
    ensures (Generate(s, lib, uml, response, w).result.None?)
              <==> (lib.sha1(uml) !in s.cache && !OnDisk(s.config, lib.sha1(uml), w.disk) && (response.Rejected? || !response.ok))
  {
    if lib.sha1(uml) !in s.cache && !OnDisk(s.config, lib.sha1(uml), w.disk) {
      if response.Rejected? || !response.ok {
        GenerateServerError(s, lib, uml, response, w);
      } else {
        GenerateFromServer(s, lib, uml, response.body, response.statusText, w);
      }
    }
  }

  /** Asking twice for a diagram that was found: the second answer is the first, from memory, with no helper called. */
  lemma GenerateTwice(s: Server, lib: Library, uml: string, r1: Response, r2: Response, w: World)
    requires Generate(s, lib, uml, r1, w).result.Some?
    ensures var o1 := Generate(s, lib, uml, r1, w);
      var o2 := Generate(o1.server, lib, uml, r2, o1.world);
      && o2.result == o1.result
      && o2.server == o1.server
      && o2.world.calls == o1.world.calls
  {
    var o1 := Generate(s, lib, uml, r1, w);
    GenerateFromMemory(o1.server, lib, uml, r2, o1.world);
  }

  /** A failure is not remembered: asking again for the same diagram asks the server again. */
  lemma FailureRetried(s: Server, lib: Library, uml: string, r1: Response, r2: Response, w: World)
    requires Generate(s, lib, uml, r1, w).result.None?
    ensures var o1 := Generate(s, lib, uml, r1, w);
      var o2 := Generate(o1.server, lib, uml, r2, o1.world);
      RequestCall(Url(s.config, lib.encode(uml))) in o2.world.calls[|o1.world.calls|..]
  {
    var o1 := Generate(s, lib, uml, r1, w);
    NullIffServerFails(s, lib, uml, r1, w);
    GenerateServerError(s, lib, uml, r1, w);
    var o2 := Generate(o1.server, lib, uml, r2, o1.world);
    var rest := o2.world.calls[|o1.world.calls|..];
    if r2.Reply? && r2.ok {
      GenerateFromServer(o1.server, lib, uml, r2.body, r2.statusText, o1.world);
      assert rest[1] == RequestCall(Url(s.config, lib.encode(uml)));
    } else {
      GenerateServerError(o1.server, lib, uml, r2, o1.world);
      assert rest[1] == RequestCall(Url(s.config, lib.encode(uml)));
    }
  }

  /**
    Write-through: once the cache directory exists, a diagram fetched by one server object is
    found on disk by a fresh one with the same configuration, which then does not ask the server.
   */
  lemma WriteThroughServesFreshServer(s: Server, lib: Library, uml: string, body: Bytes, statusText: string,
                                      response: Response, w: World)
    requires s.config.cacheDir.Some? && s.config.cacheDir.value in w.disk.dirs
    requires lib.sha1(uml) !in s.cache && !OnDisk(s.config, lib.sha1(uml), w.disk)
    ensures var hash := lib.sha1(uml);
      var o1 := Generate(s, lib, uml, Reply(true, statusText, body), w);
      var o2 := Generate(Server(s.config, s.cssClass, map[]), lib, uml, response, o1.world);
      && o2.result == Some(body)
      && o2.world.calls == o1.world.calls + [ReadFileCall(CachePath(s.config, hash))]
      && o1.world.events[|w.events| + 2] == CacheWrite(CachePath(s.config, hash).value)
  {
    var hash := lib.sha1(uml);
    var s2 := Server(s.config, s.cssClass, map[]);
    var o1 := Generate(s, lib, uml, Reply(true, statusText, body), w);
    CachePathInCacheDir(s.config, hash);
    GenerateFromServer(s, lib, uml, body, statusText, w);
    WriteThroughStored(s, lib, uml, body, statusText, w);
    GenerateFromDisk(s2, lib, uml, response, o1.world);
  }

  /** A successful fetch into an existing cache directory leaves the body in the cache file. */
  lemma WriteThroughStored(s: Server, lib: Library, uml: string, body: Bytes, statusText: string, w: World)
    requires s.config.cacheDir.Some? && s.config.cacheDir.value in w.disk.dirs
    requires lib.sha1(uml) !in s.cache && !OnDisk(s.config, lib.sha1(uml), w.disk)
    ensures var path := CachePath(s.config, lib.sha1(uml)).value;
      var o := Generate(s, lib, uml, Reply(true, statusText, body), w);
      path in o.world.disk.files && o.world.disk.files[path] == body
  {
    CachePathInCacheDir(s.config, lib.sha1(uml));
  }

  /** Without a cache directory `generate` never touches the disk and never emits a cache event. */
  lemma NoCacheDirNoDisk(s: Server, lib: Library, uml: string, response: Response, w: World)
    requires s.config.cacheDir.None?
    ensures var o := Generate(s, lib, uml, response, w);
      && o.world.disk == w.disk
      && forall i | |w.events| <= i < |o.world.events| :: !o.world.events[i].CacheWrite? && !o.world.events[i].CacheError?
  {
    var hash := lib.sha1(uml);
    if hash in s.cache {
      GenerateFromMemory(s, lib, uml, response, w);
    } else if response.Reply? && response.ok {
      GenerateFromServer(s, lib, uml, response.body, response.statusText, w);
    } else {
      GenerateServerError(s, lib, uml, response, w);
    }
  }
}
