# honkit-plugin-plantuml-server in Dafny

This project models the core of the HonKit PlantUML plugin:

- **Diagram lookup.** The plugin turns a PlantUML diagram into image bytes with a three-tier lookup:
  1. an in-memory map keyed by the SHA-1 of the diagram source;
  2. a cache file named after that hash;
  3. a remote PlantUML server.
- **Two versions of the lookup.**
  - `EncodeCache` fills its map during a build and persists it afterwards with `writeCache`.
  - `PlantUMLServer` writes every `ok` answer to its cache file at once when a cache directory is configured, and turns a failed request into `null`.
- **Two string transforms.**
  - `replaceCodeBlock` rewrites fenced `uml`/`puml`/`plantuml` code blocks into `{% uml %}` blocks.
  - `makeHtml` wraps image bytes in a `<figure>` whose `<img>` carries a base 64 data URL. The base 64 follows section 4 of RFC 4648.

The modules are:

- `Common`: `Option`, `Result`, bytes and distinctness.
- `Config`: the configuration both classes share.
  - Formats and their MIME types.
  - Constructor normalisation.
  - The request URL `#url` and the cache path `#cachePath`.
  - The SHA-1 digest type.
  - The two opaque library functions, passed in as a `Library` value.
- `Io`: the world outside the objects.
  - The disk: files, and directories that exist.
  - The log of helper calls that the jest tests spy on.
  - The emitted events.
  - `readFile`, `writeFile` and `makeCacheDirectory`. Both classes contain identical copies of these three, so they are modelled once.
- `Base64`: encoder and strict decoder, with both round trips.
- `Libs`: `replaceCodeBlock` as a left-to-right scanner whose match at each index is proved to be the one the expression makes there, and `makeHtml`.
- `EncodeCache` and `PlantUmlServer`: the two classes, each as a pure state transition over (object, world).
  - The server's answer is a parameter of type `Response`: a reply with `ok`, status text and body, or a rejection.
  - Whether the server was asked is visible in the call log.

## Model

| member | source | states |
|---|---|---|
| Config.Mime | src/EncodeCache.ts:8-11 | the MIME type of a format begins with `image/` followed by the format's name (`image/png`, `image/svg+xml`) |
| Config.MimeInjective | src/PlantUMLServer.ts:9-12 | two formats with the same MIME type are the same format |
| Config.StripTrailingSlash | src/EncodeCache.ts:35 | `replace(/\/$/, '')` removes exactly one `/`, and only when the string ends with one |
| Config.FormatName | src/EncodeCache.ts:127-129 | the format's key, used both in the URL and as the file extension, is three characters without a `/` |
| Config.Normalise | src/EncodeCache.ts:32-39 | the constructor keeps the format. It removes one trailing `/` from the server exactly when the server ends with one. It turns a null or empty cache directory into null, and otherwise removes one trailing `/` exactly when the directory ends with one |
| Config.Url | src/EncodeCache.ts:127-129 | the URL starts with the server and a `/`, ends with a `/` and the encoded diagram, and has the format's key in between |
| Config.UrlInjective | src/EncodeCache.ts:127-129 | two requests for the same settings go to the same URL only if the encoded diagrams are equal |
| Config.UrlIgnoresTrailingSlash | src/EncodeCache.ts:35 | a server given with or without one trailing `/` yields the same URL `server/format/encoded` |
| Config.UrlExample | src/EncodeCache.ts:127-129 | server `http://test.invalid` with format `svg` requests `http://test.invalid/svg/` followed by the encoded diagram |
| Config.CachePath | src/EncodeCache.ts:131-142 | the cache path is null exactly when no cache directory is configured |
| Config.CacheFileName | src/EncodeCache.ts:137-140 | the file name after the directory contains no `/` |
| Config.DirOfJoin | src/EncodeCache.ts:136-137 | the directory part of `dir + "/" + name` is `dir` when `name` has no `/` |
| Config.CachePathInCacheDir | src/EncodeCache.ts:131-142 | every cache file lies directly in the configured cache directory |
| Config.CachePathInjective | src/EncodeCache.ts:131-142 | distinct hashes are cached under distinct paths |
| Config.CachePathOfRawConfig | src/PlantUMLServer.ts:42 | measured against the raw constructor argument, the cache path is null exactly when the directory is null or empty. For a directory without a trailing `/` the path is `dir/honkit-plugin-plantuml-server-<hash>.<format>` |
| Config.CachePathIgnoresTrailingSlash | src/EncodeCache.ts:37 | a cache directory given as `dir/` yields the same cache path as `dir`, namely `dir/honkit-plugin-plantuml-server-<hash>.<format>` |
| Io.ReadFile | src/EncodeCache.ts:106-114 | the read returns data exactly when both the path and the cache directory are non-null and the file exists, and then returns that file's contents. The call is logged |
| Io.WriteFile | src/EncodeCache.ts:93-104 | a null path or a null cache directory changes nothing but the call log. Otherwise it emits `cache:write` and stores the data when the directory exists, and `cache:error` when it does not. No other file changes and no other file appears |
| Io.WriteEvents | src/EncodeCache.ts:93-104 | a write emits one event when a path and a cache directory are configured, and none otherwise. The event is `cache:write` exactly when the directory exists and `cache:error` exactly when it does not |
| Io.MakeCacheDirectory | src/EncodeCache.ts:116-121 | creates the configured directory when there is one and touches nothing else |
| Io.ReadAfterWrite | src/PlantUMLServer.ts:99-120 | a successful write is what the next read of that path returns |
| Io.CacheFileWritable | src/EncodeCache.ts:79-86 | after `makeCacheDirectory`, every cache path can be written |
| Io.WriteFileEmitsOne | src/PlantUMLServer.ts:106-109 | a write with a path and a cache directory emits exactly one event. That event is `cache:write` exactly when the data landed, and `cache:error` exactly when it could not |
| Io.NoCacheDirNoDiskTraffic | src/PlantUMLServer.ts:99-127 | without a cache directory, reads return null and neither writes nor directory creation change the disk or emit anything |
| Base64.ValueOfCharOf | src/libs.ts:13 | the alphabet of Table 1 of RFC 4648 is a bijection on 6-bit values |
| Base64.JoinSplit | src/libs.ts:13 | regrouping 24 bits into four 6-bit groups loses nothing |
| Base64.Encode | src/libs.ts:13 | the encoding of n octets has 4·⌈n/3⌉ characters |
| Base64.DecodeEncode | src/libs.ts:13 | strict decoding recovers every encoded octet string |
| Base64.EncodeDecode | src/libs.ts:13 | every string the strict decoder accepts is the encoding of what it decodes to, so the encoder is onto the canonical strings |
| Base64.EncodeExample | src/libs.ts:13 | the octets of `SVG DATA` encode to `U1ZHIERBVEE=` |
| Libs.SpaceRunAllSpace | src/libs.ts:3 | the greedy `\s+` run consists of whitespace and stops at a non-space or at the end |
| Libs.FindFenceFirst | src/libs.ts:3 | the lazy body ends at the first closing fence, and no fence means no match |
| Libs.MatchAt | src/libs.ts:3 | a match found at an index starts with a fence and consumes a non-empty stretch inside the text |
| Libs.KeywordUnique | src/libs.ts:3 | at most one of `uml`, `puml`, `plantuml` occurs at a position, ignoring ASCII case |
| Libs.MatchAtSound | src/libs.ts:3 | what the scanner reports is a match of the expression |
| Libs.MatchAtComplete | src/libs.ts:3 | every match of the expression at an index is the one the scanner reports |
| Libs.MatchAtIsRegexMatch | src/libs.ts:2-3 | the scanner reports a match exactly when the expression matches there, with the same body and length |
| Libs.Template | src/libs.ts:4 | the replacement is `{% uml %}` and a newline, then the captured body verbatim, then `{% enduml %}` |
| Libs.ReplaceFrom | src/libs.ts:1-5 | scanning from an index past which nothing matches copies the rest of the text verbatim |
| Libs.CopyUntil | src/libs.ts:2-5 | a stretch in which nothing matches is copied verbatim |
| Libs.FirstMatchReplaced | src/libs.ts:2-5 | the text before the first match is kept, the match is replaced by `{% uml %}\n` + body + `{% enduml %}`, and the rest is scanned on |
| Libs.MatchChangesText | src/libs.ts:4 | a replacement never starts with the character it replaces |
| Libs.UnchangedFromHasNoMatch | src/libs.ts:1-5 | a scan whose output equals its input saw no match anywhere |
| Libs.ReplaceCodeBlock | src/libs.ts:1-5 | the output equals the input exactly when the expression matches nowhere |
| Libs.NoFenceUnchanged | src/libs.ts:1-5 | text without a triple backtick is returned unchanged |
| Libs.BacktickFreePrefix | src/libs.ts:1-5 | a prefix without backticks passes through unchanged |
| Libs.PlainTextExample | src/libs.ts:1-5 | `foo` is returned as it is |
| Libs.OtherLanguageExample | src/libs.ts:3 | a fenced `js` block is returned as it is |
| Libs.ConvertExample | src/libs.ts:1-5 | a fenced `PlantUML` block becomes a `{% uml %}` block with the same body; the keyword's case does not matter |
| Libs.MakeHtml | src/libs.ts:7-18 | the figure starts with the class attribute and the `data:<mime>;base64,` prefix and ends with `"></figure>`. Decoding the text in between gives back exactly the input bytes |
| Libs.MakeHtmlExample | src/libs.ts:7-18 | `SVG DATA` as `image/svg+xml` with class `foo` gives `<figure class="foo"><img src="data:image/svg+xml;base64,U1ZHIERBVEE="></figure>` |
| Libs.MakeHtmlNullClass | src/libs.ts:15 | a null class is written as the text `null` |
| EncodeCache.New | src/EncodeCache.ts:32-39 | a new object has an empty map and the normalised configuration |
| EncodeCache.Insert | src/EncodeCache.ts:56 | `#cache.set` replaces the key's value; a new key goes to the end of the iteration order and an existing key keeps its place, so the map and its order stay consistent |
| EncodeCache.Request | src/EncodeCache.ts:67-71 | the body of any reply is returned whatever its status; a rejected fetch rejects |
| EncodeCache.Generate | src/EncodeCache.ts:41-65 | `generate`: <ul><li>emits `process:start(hash)` first and leaves the disk and the configuration alone;</li><li>never removes or overwrites an entry and adds at most the diagram's hash;</li><li>keeps the map and its insertion order consistent;</li><li>settles with data exactly when the hash is then in the map, and that data is the entry's;</li><li>calls only `readFile` and `request`</li></ul> |
| EncodeCache.GenerateFromMemory | src/EncodeCache.ts:48-52 | a memory hit returns the entry's data, calls no helper and leaves the map unchanged |
| EncodeCache.GenerateFromDisk | src/EncodeCache.ts:54-59 | a disk hit returns the file's bytes, records them as stored, emits `process:cache` and never asks the server |
| EncodeCache.GenerateFromServer | src/EncodeCache.ts:61-64 | otherwise it reads once and requests once. A reply's body is returned verbatim, recorded as not stored, and announced with `process:server`. A rejection leaves the map unchanged |
| EncodeCache.GenerateEvents | src/EncodeCache.ts:46-63 | every call emits `process:start`, then, when it settles with data, exactly one of `process:memory`, `process:cache` or `process:server` |
| EncodeCache.RequestOnlyOnMiss | src/EncodeCache.ts:48-61 | the server is asked exactly when the diagram is neither in the map nor in its cache file |
| EncodeCache.GenerateTwice | __tests__/EncodeCache.ts:45-57 | asking twice for a diagram that was found calls no helper the second time and returns the same data |
| EncodeCache.DistinctDiagramsRequestTwice | __tests__/EncodeCache.ts:59-71 | without a cache directory, two diagrams with distinct hashes make two requests, one to each URL |
| EncodeCache.Unstored | src/EncodeCache.ts:81-84 | the keys kept by the loop are exactly the listed keys whose entries did not come from disk |
| EncodeCache.WriteCalls | src/EncodeCache.ts:85-86 | the i-th write call writes the i-th key's data to its cache path |
| EncodeCache.WriteLoop | src/EncodeCache.ts:81-88 | the loop only appends calls and events and never creates or removes a directory |
| EncodeCache.WriteLoopCalls | src/EncodeCache.ts:81-88 | the loop calls `writeFile` once for each pending key, in map order, and nothing else |
| EncodeCache.UnstoredDistinct | src/EncodeCache.ts:81 | since map keys are distinct, no file is written twice in one call |
| EncodeCache.WriteCache | src/EncodeCache.ts:73-91 | without a cache directory nothing changes; with one, the directory exists afterwards, and calls and events are only appended |
| EncodeCache.WriteCacheCalls | src/EncodeCache.ts:73-91 | with a cache directory, `writeCache` calls `makeCacheDirectory` once and then writes exactly the entries that did not come from disk, each once |
| EncodeCache.WriteCacheWithoutDir | src/EncodeCache.ts:74-76 | without a cache directory `writeCache` changes nothing |
| EncodeCache.WriteCacheRepeats | src/EncodeCache.ts:81-88 | `stored` is never set after a write, so a second `writeCache` makes the same calls again |
| EncodeCache.WriteLoopNewFiles | src/EncodeCache.ts:81-88 | every file present after the loop was present before or is the cache file of a pending entry |
| EncodeCache.WriteLoopEmitsWrites | src/EncodeCache.ts:85-86 | with the directory present, every event the loop emits is `cache:write` |
| EncodeCache.WriteLoopPersists | src/EncodeCache.ts:81-88 | with the directory present, the loop leaves every pending entry's data in its cache file. It leaves every other file as it was, creates no file at any other path, and emits only `cache:write` |
| EncodeCache.WriteCachePersists | src/EncodeCache.ts:73-91 | after `writeCache`, every entry that came from the server is in its cache file. No other file changes or appears, and no `cache:error` is emitted |
| EncodeCache.FetchThenWrite | src/EncodeCache.ts:54-88 | a fresh object that fetches one diagram and then writes its cache makes four calls in order: read, request, create the directory, write that diagram's body to its path |
| EncodeCache.WriteCacheScenario | __tests__/EncodeCache.ts:90-107 | for `http://test.invalid`, `svg`, `/path/to/cache`, the write goes to `/path/to/cache/honkit-plugin-plantuml-server-<hash>.svg` with the fetched body, and there is one `makeCacheDirectory` and one `writeFile` |
| EncodeCache.Run | src/EncodeCache.ts:41-65 | a sequence of `generate` calls settles once per diagram, leaves the disk and the configuration alone, and calls only `readFile` and `request` |
| EncodeCache.NoCacheDirRun | __tests__/EncodeCache.ts:109-122 | without a cache directory, any run of `generate` calls followed by `writeCache` leaves the disk as it was, and never calls `writeFile` or `makeCacheDirectory` |
| PlantUmlServer.New | src/PlantUMLServer.ts:37-45 | a new object has an empty map, the same normalised configuration as `EncodeCache`, and the CSS class exactly as given, which is what `cssClass()` returns |
| PlantUmlServer.MimeType | src/PlantUMLServer.ts:129-131 | `mime()` is `image/` followed by the configured format's name |
| PlantUmlServer.Request | src/PlantUMLServer.ts:81-97 | an `ok` reply yields its body with no event. A reply that is not `ok` yields null and emits `process:server:error` with the URL and status text. A rejected fetch rejects |
| PlantUmlServer.Generate | src/PlantUMLServer.ts:47-79 | `generate`: <ul><li>emits `process:start(hash)` first;</li><li>never removes or overwrites an entry and adds at most the diagram's hash;</li><li>settles with bytes exactly when the hash is then in the map;</li><li>changes or creates no file other than the diagram's own cache file</li></ul> |
| PlantUmlServer.GenerateFromMemory | src/PlantUMLServer.ts:54-58 | a memory hit returns the cached bytes with no disk or server access |
| PlantUmlServer.GenerateFromDisk | src/PlantUMLServer.ts:60-65 | a disk hit remembers and returns the file's bytes, emits `process:cache` and never asks the server |
| PlantUmlServer.GenerateFromServer | src/PlantUMLServer.ts:67-78 | an `ok` answer: <ul><li>is returned and remembered;</li><li>is announced with `process:server`;</li><li>is written to its cache path within the same call, whose write event follows</li></ul> |
| PlantUmlServer.GenerateServerError | src/PlantUMLServer.ts:67-70 | a rejected request or a reply that is not `ok` yields null and one `process:server:error` naming the URL, and changes neither the map nor the disk |
| PlantUmlServer.NullIffServerFails | src/PlantUMLServer.ts:71-78 | `generate` yields null exactly when the diagram is neither in the map nor on disk and the server does not answer `ok` |
| PlantUmlServer.GenerateTwice | src/PlantUMLServer.ts:54-58 | a diagram that was found is served from memory the second time |
| PlantUmlServer.FailureRetried | src/PlantUMLServer.ts:71-78 | a failure is not remembered: asking again for the same diagram asks the server again |
| PlantUmlServer.WriteThroughStored | src/PlantUMLServer.ts:75-76 | with the cache directory present, a fetched body is in its cache file once `generate` settles |
| PlantUmlServer.WriteThroughServesFreshServer | src/PlantUMLServer.ts:60-77 | a diagram fetched by one object is found on disk by a fresh object with the same configuration, which does not ask the server. The write emitted `cache:write` |
| PlantUmlServer.NoCacheDirNoDisk | src/PlantUMLServer.ts:99-105 | without a cache directory `generate` never changes the disk and never emits a cache event |

## Left out

- **Network.** `node-fetch`, the `promise-retry` policy and the 10-second timeout are not modelled. The whole exchange is the `Response` parameter: an answer, or the final rejection once retries stop.
- **File system.**
  - `fs.promises` is modelled as a map from path to bytes plus a set of existing directories.
  - A write succeeds exactly when its parent directory exists.
  - `mkdirp` adds the one configured directory. Its creation of ancestors and its own failures are not modelled.
  - A failed read is modelled only as a missing file.
- **Hashing and encoding.** SHA-1 and `plantuml-encoder` are the opaque fields `sha1` and `encode` of a `Library` value. A digest is any 40-character lower-case hexadecimal string. No lemma assumes the hash is injective; a lemma about two diagrams requires their two hashes to differ.
- **Events.** `EventEmitter` listener dispatch is not modelled. Emitted events are recorded in order in a trace.
- **Concurrency.** All calls are modelled sequentially:
  - the `Promise.all` in `writeCache` runs its writes in loop order;
  - concurrent `generate` calls for the same diagram are not modelled.
- **Characters.** Strings are sequences of `char`. JavaScript strings are UTF-16 code units, and the model does not distinguish the two. `Buffer.from('SVG DATA')` is taken as the eight ASCII octets.
- **`src/index.ts`.** It is not part of this model: hook wiring, module-level state, the format check, and its call of `writeCache` on a `PlantUMLServer`, which has no such method.
- **Path rewriting and image optimisation.** `convertUmlSrcToAbsolute` and `optimizeImage` are not part of this model; they are imported by `src/index.ts` from `./libs`.
- **The readFile test.** The jest test "readFile TODO" mocks `readFile` to return data while `cacheDir` is null. The real guard returns null in that configuration, so the scenario cannot arise here. The disk-hit property is stated with a cache directory instead (`EncodeCache.GenerateFromDisk`).
- **Persisted entries.** The code never sets `stored` after a successful write, so a second `writeCache` writes the same entries again. The model follows the code (`EncodeCache.WriteCacheRepeats`).
- **EncodeCache.Request.** Like the source, it returns the body of any reply, whatever its status. The test double in the jest file returns a string, which the model does not distinguish from bytes.
- **Truthiness.** `if (cached)`, `if (stored)` and `if (requested)` test objects and `Buffer`s, which are truthy even when empty. Only null and undefined count as a miss, and the model follows that.
