/**
  The configuration shared by `EncodeCache` and `PlantUMLServer`: output format and its
  MIME type, the normalisation the constructors apply, and the two names derived from
  a diagram: the request URL and the on-disk cache path.
 */
module Config {
  import opened Common

  /** The keys of the `mimes` table. */
  datatype Format = Png | Svg

  /** The format's key, which names both the URL segment and the file extension. */
  function FormatName(f: Format): (n: string)
    ensures |n| == 3 && '/' !in n
  {
    match f
    case Png => "png"
    case Svg => "svg"
  }

  /** `mimes[format]`: `png` is `image/png`, `svg` is `image/svg+xml`. */
  function Mime(f: Format): (m: string)
    ensures |m| >= 9 && m[..6] == "image/" && m[6..9] == FormatName(f)
  {
    match f
    case Png => "image/png"
    case Svg => "image/svg+xml"
  }

  /** Distinct formats never share a MIME type. */
  lemma MimeInjective(f: Format, g: Format)
    ensures Mime(f) == Mime(g) ==> f == g
  {
    if Mime(f) == Mime(g) {
      assert FormatName(f) == Mime(f)[6..9] == Mime(g)[6..9] == FormatName(g);
    }
  }

  /** `s.replace(/\/$/, '')`: removes at most one '/' at the very end. */
  function StripTrailingSlash(s: string): (r: string)
    ensures s == r || s == r + "/"
    ensures (|s| > 0 && s[|s| - 1] == '/') <==> s == r + "/"
  {
    if |s| > 0 && s[|s| - 1] == '/' then s[..|s| - 1] else s
  }

  /** The normalised `#config` a constructor stores. */
  datatype Settings = Settings(server: string, format: Format, cacheDir: Option<string>)

  /**
    The constructor's normalisation: one trailing slash is stripped from the server, and
    from the cache directory when it is truthy; a null or empty cache directory becomes null.
   */
  function Normalise(server: string, format: Format, cacheDir: Option<string>): (c: Settings)
    ensures c.format == format
    ensures server == c.server || server == c.server + "/"
    ensures (|server| > 0 && server[|server| - 1] == '/') <==> server == c.server + "/"
    ensures c.cacheDir.None? <==> cacheDir == None || cacheDir == Some("")
    ensures c.cacheDir.Some? ==>
              cacheDir == Some(c.cacheDir.value) || cacheDir == Some(c.cacheDir.value + "/")
    ensures c.cacheDir.Some? ==>
              (cacheDir.value[|cacheDir.value| - 1] == '/' <==> cacheDir.value == c.cacheDir.value + "/")
  {
    Settings(
      StripTrailingSlash(server),
      format,
      if cacheDir.Some? && cacheDir.value != "" then Some(StripTrailingSlash(cacheDir.value)) else None)
  }

  /** `#url`: `[server, format, encoded].join('/')`. */
  function Url(c: Settings, encoded: string): (u: string)
    ensures |u| == |c.server| + 1 + |FormatName(c.format)| + 1 + |encoded|
    ensures u[..|c.server|] == c.server && u[|c.server|] == '/'
    ensures u[|u| - |encoded| - 1] == '/' && u[|u| - |encoded|..] == encoded
    ensures u[|c.server| + 1..|c.server| + 1 + |FormatName(c.format)|] == FormatName(c.format)
  {
    c.server + "/" + FormatName(c.format) + "/" + encoded
  }

  /** The request URL determines the encoded diagram it was built from. */
  lemma UrlInjective(c: Settings, e1: string, e2: string)
    ensures Url(c, e1) == Url(c, e2) ==> e1 == e2
  {
    var prefix := c.server + "/" + FormatName(c.format) + "/";
    assert Url(c, e1) == prefix + e1 && Url(c, e2) == prefix + e2;
    if Url(c, e1) == Url(c, e2) {
      assert e1 == (prefix + e1)[|prefix|..] == (prefix + e2)[|prefix|..] == e2;
    }
  }

  /** A server configured with or without its trailing slash sends the same request. */
  lemma UrlIgnoresTrailingSlash(server: string, f: Format, d: Option<string>, e: string)
    requires |server| == 0 || server[|server| - 1] != '/'
    ensures Url(Normalise(server + "/", f, d), e) == Url(Normalise(server, f, d), e)
                                                  == server + "/" + FormatName(f) + "/" + e
  {
    assert (server + "/")[..|server|] == server;
  }

  /** A cache directory configured with or without its trailing slash yields the same cache files. */
  lemma CachePathIgnoresTrailingSlash(server: string, f: Format, d: string, hash: Digest)
    requires d != "" && d[|d| - 1] != '/'
    ensures CachePath(Normalise(server, f, Some(d + "/")), hash) == CachePath(Normalise(server, f, Some(d)), hash)
                                                               == Some(d + "/" + CacheFilePrefix + hash + "." + FormatName(f))
  {
    assert (d + "/")[..|d|] == d;
  }

  /** The jest scenario: server `http://test.invalid`, format `svg`. */
  lemma UrlExample(e: string)
    ensures Url(Normalise("http://test.invalid", Svg, None), e) == "http://test.invalid/svg/" + e
  {
  }

  const CacheFilePrefix: string := "honkit-plugin-plantuml-server-"

  predicate IsLowerHex(ch: char)
  {
    '0' <= ch <= '9' || 'a' <= ch <= 'f'
  }

  /** A SHA-1 digest in lower-case hexadecimal, as `digest('hex')` produces it. */
  type Digest = s: string | |s| == 40 && forall i | 0 <= i < |s| :: IsLowerHex(s[i])
    witness "0000000000000000000000000000000000000000"

  /** The two opaque library functions a generate call applies to the diagram source. */
  datatype Library = Library(sha1: string -> Digest, encode: string -> string)

  /** `#cachePath`: null without a cache directory, else `<dir>/honkit-plugin-plantuml-server-<hash>.<format>`. */
  function CachePath(c: Settings, hash: Digest): (p: Option<string>)
    ensures p.None? <==> c.cacheDir.None?
  {
    if c.cacheDir.None? then None
    else Some(c.cacheDir.value + "/" + CacheFilePrefix + hash + "." + FormatName(c.format))
  }

  /** The file name (after the directory) of a cache path; it holds no '/'. */
  function CacheFileName(c: Settings, hash: Digest): (n: string)
    ensures '/' !in n
  {
    var n := CacheFilePrefix + hash + "." + FormatName(c.format);
    assert forall i | 0 <= i < |n| :: n[i] != '/' by {
      forall i | 0 <= i < |n|
        ensures n[i] != '/'
      {
        if |CacheFilePrefix| <= i < |CacheFilePrefix| + |hash| {
          assert n[i] == hash[i - |CacheFilePrefix|];
        }
      }
    }
    n
  }

  /** The directory part of a path: everything before its last '/' ("" when it has none). */
  function DirOf(p: string): string
    decreases |p|
  {
    if |p| == 0 then ""
    else if p[|p| - 1] == '/' then p[..|p| - 1]
    else DirOf(p[..|p| - 1])
  }

  lemma {:induction false} DirOfJoin(d: string, name: string)
    requires '/' !in name
    ensures DirOf(d + "/" + name) == d
    decreases |name|
  {
    var p := d + "/" + name;
    if |name| == 0 {
      assert p[..|p| - 1] == d;
    } else {
      assert p[|p| - 1] == name[|name| - 1];
      assert p[..|p| - 1] == d + "/" + name[..|name| - 1];
      DirOfJoin(d, name[..|name| - 1]);
    }
  }

  /** Every cache file lives directly in the configured cache directory. */
  lemma CachePathInCacheDir(c: Settings, hash: Digest)
    requires c.cacheDir.Some?
    ensures DirOf(CachePath(c, hash).value) == c.cacheDir.value
  {
    var n := CacheFileName(c, hash);
    assert CachePath(c, hash).value == c.cacheDir.value + "/" + n;
    DirOfJoin(c.cacheDir.value, n);
  }

  /** Distinct digests are cached under distinct file names. */
  lemma CachePathInjective(c: Settings, h1: Digest, h2: Digest)
    requires c.cacheDir.Some?
    ensures CachePath(c, h1) == CachePath(c, h2) ==> h1 == h2
  {
    var head := c.cacheDir.value + "/" + CacheFilePrefix;
    var tail := "." + FormatName(c.format);
    assert CachePath(c, h1).value == head + h1 + tail;
    assert CachePath(c, h2).value == head + h2 + tail;
    if CachePath(c, h1) == CachePath(c, h2) {
      assert h1 == (head + h1 + tail)[|head|..|head| + 40];
      assert h2 == (head + h2 + tail)[|head|..|head| + 40];
    }
  }

  /**
    A cache path exists exactly when the configured cache directory is neither null nor empty.
   */
  lemma CachePathOfRawConfig(server: string, f: Format, d: Option<string>, hash: Digest)
    ensures CachePath(Normalise(server, f, d), hash).None? <==> (d == None || d == Some(""))
    ensures d.Some? && d.value != "" && d.value[|d.value| - 1] != '/' ==>
              CachePath(Normalise(server, f, d), hash)
                == Some(d.value + "/" + CacheFilePrefix + hash + "." + FormatName(f))
  {
  }
}
