/** The static server and tile proxy of server.js, and the tile-host lookup
    shared with main.js: content types by extension, the containment check on
    static paths, request routing, and the host read from the KML descriptor. */
module Server {
  import opened Common
  import opened Paths

  // ---------------------------------------------------------------------------
  // Case folding

  function LowerChar(c: char): char
  {
    if 'A' <= c <= 'Z' then (c as int + 32) as char else c
  }

  /** `toLowerCase` on the ASCII letters. */
  function Lower(s: string): (r: string)
    ensures |r| == |s| && forall i :: 0 <= i < |s| ==> r[i] == LowerChar(s[i])
  {
    seq(|s|, i requires 0 <= i < |s| => LowerChar(s[i]))
  }

  lemma LowerSlice(s: string, i: int, j: int)
    requires 0 <= i <= j <= |s|
    ensures Lower(s)[i..j] == Lower(s[i..j])
  {
  }

  lemma {:induction false} LowerTrim(s: string)
    ensures TrimTrailingSlashes(Lower(s)) == Lower(TrimTrailingSlashes(s))
    decreases |s|
  {
    if EndsWithSlash(s) {
      LowerSlice(s, 0, |s| - 1);
      LowerTrim(s[..|s| - 1]);
    }
  }

  /** Folding case moves no separator and no dot. */
  lemma {:induction false} LowerLastIndex(s: string, c: char)
    requires c == '/' || c == '.'
    ensures LastIndexOf(Lower(s), c) == LastIndexOf(s, c)
    decreases |s|
  {
    if |s| > 0 {
      LowerSlice(s, 0, |s| - 1);
      LowerLastIndex(s[..|s| - 1], c);
    }
  }

  lemma LowerBasename(p: string)
    ensures Basename(Lower(p)) == Lower(Basename(p))
  {
    LowerTrim(p);
    var t := TrimTrailingSlashes(p);
    LowerLastIndex(t, '/');
    match LastIndexOf(t, '/')
    case None =>
    case Some(i) => LowerSlice(t, i + 1, |t|);
  }

  /** The extension of a case-folded path is the case-folded extension. */
  lemma LowerExtname(p: string)
    ensures Extname(Lower(p)) == Lower(Extname(p))
  {
    LowerBasename(p);
    ExtOfBaseLower(Basename(p));
  }

  lemma ExtOfBaseLower(b: string)
    ensures ExtOfBase(Lower(b)) == Lower(ExtOfBase(b))
  {
    LowerLastIndex(b, '.');
    LowerDotDot(b);
    match LastIndexOf(b, '.')
    case None =>
      assert Lower("") == "";
    case Some(i) =>
      if i == 0 || b == ".." {
        assert Lower("") == "";
      } else {
        LowerSlice(b, i, |b|);
        assert b[i..|b|] == b[i..];
      }
  }

  lemma LowerDotDot(b: string)
    ensures Lower(b) == ".." <==> b == ".."
  {
    if |b| == 2 {
      assert Lower(b)[0] == LowerChar(b[0]) && Lower(b)[1] == LowerChar(b[1]);
    }
  }

  lemma LowerIdempotent(s: string)
    ensures Lower(Lower(s)) == Lower(s)
  {
  }

  // ---------------------------------------------------------------------------
  // Content types

  const OctetStream: string := "application/octet-stream"

  /** The suffix the text types carry. */
  const Utf8: string := "; charset=utf-8"

  /** The types the server knows, by lower-case extension. */
  const MimeTypes: map<string, string> := map[
    ".html" := "text/html" + Utf8,
    ".js" := "text/javascript" + Utf8,
    ".css" := "text/css" + Utf8,
    ".kml" := "application/vnd.google-earth.kml+xml" + Utf8,
    ".json" := "application/json" + Utf8,
    ".png" := "image/png",
    ".jpg" := "image/jpeg",
    ".jpeg" := "image/jpeg",
    ".svg" := "image/svg+xml"
  ]

  /** The extensions served as UTF-8 text. */
  const TextExtensions: set<string> := {".html", ".js", ".css", ".kml", ".json"}

  /** The `switch` of `contentType`, on the lower-cased extension. */
  function TypeOfExt(ext: string): string
  {
    if ext == ".html" then "text/html" + Utf8
    else if ext == ".js" then "text/javascript" + Utf8
    else if ext == ".css" then "text/css" + Utf8
    else if ext == ".kml" then "application/vnd.google-earth.kml+xml" + Utf8
    else if ext == ".json" then "application/json" + Utf8
    else if ext == ".png" then "image/png"
    else if ext == ".jpg" || ext == ".jpeg" then "image/jpeg"
    else if ext == ".svg" then "image/svg+xml"
    else OctetStream
  }

  /** `contentType`: the type of a known extension, compared without case, and
      the generic binary type for anything else. */
  function ContentType(filePath: string): string
  {
    TypeOfExt(Lower(Extname(filePath)))
  }

  /** The `switch` agrees with the type table: a listed extension gets its
      entry, anything else the generic binary type. */
  lemma TypeOfExtMatchesTable(ext: string)
    ensures ext in MimeTypes ==> TypeOfExt(ext) == MimeTypes[ext]
    ensures ext !in MimeTypes ==> TypeOfExt(ext) == OctetStream
  {
    if ext == ".html" {
    } else if ext == ".js" {
    } else if ext == ".css" {
    } else if ext == ".kml" {
    } else if ext == ".json" {
    } else if ext == ".png" {
    } else if ext == ".jpg" {
    } else if ext == ".jpeg" {
    } else if ext == ".svg" {
    } else {
      assert ext !in MimeTypes;
    }
  }

  lemma ContentTypeMatchesTable(p: string)
    ensures var ext := Lower(Extname(p));
            (ext in MimeTypes ==> ContentType(p) == MimeTypes[ext])
            && (ext !in MimeTypes ==> ContentType(p) == OctetStream)
  {
    TypeOfExtMatchesTable(Lower(Extname(p)));
  }

  /** Paths that differ only in letter case get the same type. */
  lemma ContentTypeIgnoresCase(p: string, q: string)
    requires Lower(p) == Lower(q)
    ensures ContentType(p) == ContentType(q)
  {
    LowerExtname(p);
    LowerExtname(q);
    assert Lower(Extname(p)) == Lower(Extname(q));
  }

  /** The text types are served as UTF-8; `.jpg` and `.jpeg` are both JPEG;
      an unknown extension is generic binary. */
  lemma TypeFamilies(ext: string)
    ensures var t := TypeOfExt(ext);
            (ext in TextExtensions ==> |t| > |Utf8| && t[|t| - |Utf8|..] == Utf8)
            && (ext == ".jpg" || ext == ".jpeg" ==> t == "image/jpeg")
            && (ext !in MimeTypes ==> t == OctetStream)
  {
    if ext == ".html" {
      EndsWithUtf8("text/html");
    } else if ext == ".js" {
      EndsWithUtf8("text/javascript");
    } else if ext == ".css" {
      EndsWithUtf8("text/css");
    } else if ext == ".kml" {
      EndsWithUtf8("application/vnd.google-earth.kml+xml");
    } else if ext == ".json" {
      EndsWithUtf8("application/json");
    } else if ext !in MimeTypes {
      TypeOfExtMatchesTable(ext);
    }
  }

  lemma EndsWithUtf8(base: string)
    requires |base| > 0
    ensures var t := base + Utf8; |t| > |Utf8| && t[|t| - |Utf8|..] == Utf8
  {
  }

  // ---------------------------------------------------------------------------
  // The containment check

  /** `safeJoin` as written: the joined, normalised path is accepted when it
      starts with the root's text. The decoded request path is an input;
      `decodeURIComponent` is not modelled. */
  function SafeJoinAsWritten(root: seq<string>, decoded: string): (r: Option<string>)
    ensures r.Some? ==> r.value == Join(root, decoded) && RootPath(root) <= r.value
  {
    var p := Join(root, decoded);
    if RootPath(root) <= p then Some(p) else None
  }

  /** The root's text followed by exactly one separator. */
  function DirPrefix(root: seq<string>): string
  {
    var r := RootPath(root);
    if EndsWithSlash(r) then r else r + "/"
  }

  /** `safeJoin` with the separator check: the joined path must be the root
      itself or start with the root and a separator. */
  function SafeJoin(root: seq<string>, decoded: string): (r: Option<string>)
    ensures r.Some? ==> r.value == Join(root, decoded)
  {
    var p := Join(root, decoded);
    if p == RootPath(root) || DirPrefix(root) <= p then Some(p) else None
  }

  /** The parts of the file `safeJoin` looks at. */
  function Target(root: seq<string>, decoded: string): seq<string>
  {
    Resolve(root, Split(decoded))
  }

  /** With the separator check a path is accepted exactly when the file it
      names lies in the root directory or below it. */
  lemma SafeJoinIffInside(root: seq<string>, decoded: string)
    requires ValidSegs(root)
    ensures SafeJoin(root, decoded).Some? <==> root <= Target(root, decoded)
  {
    var s := Target(root, decoded);
    var trailing := decoded != "" && EndsWithSlash(decoded);
    JoinResolves(root, decoded);
    SplitNoSlash(decoded);
    ResolveValid(root, Split(decoded));
    var p := Render(s, trailing);
    assert Join(root, decoded) == p;
    if root <= s {
      BelowRootPrefix(root, s, trailing);
      if |root| > 0 {
        AbsLast(root);
      }
    }
    if SafeJoin(root, decoded).Some? && |root| > 0 {
      AbsLast(root);
      var a := Abs(root);
      assert DirPrefix(root) == a + "/";
      if |s| > 0 {
        var b := Abs(s);
        if p == a {
          assert b == a;
        } else {
          assert a + "/" <= p;
          assert p <= b + "/";
        }
        PrefixSegments(root, s);
      }
    }
  }

  /** Whatever the separator check accepts, the check as written accepts too. */
  lemma SafeJoinNarrows(root: seq<string>, decoded: string)
    ensures SafeJoin(root, decoded).Some? ==> SafeJoinAsWritten(root, decoded) == SafeJoin(root, decoded)
  {
  }

  /** As written, a request that climbs out of the root into a sibling directory
      whose name starts with the root's last part is accepted: with the server in
      `/srv/view`, the decoded path `/../view-old/key` (an encoded slash keeps
      the `..` from the URL parser) resolves to `/srv/view-old/key`, outside the
      root, and starts with `/srv/view`. */
  lemma SiblingDirectoryEscapes()
    ensures var root := ["srv", "view"];
            var decoded := "/../view-old/key";
            SafeJoinAsWritten(root, decoded) == Some("/srv/view-old/key")
            && !(root <= Target(root, decoded))
            && SafeJoin(root, decoded).None?
  {
    var root := ["srv", "view"];
    var decoded := "/../view-old/key";
    var target := ["srv", "view-old", "key"];
    assert ValidSegs(root) by {
      assert ValidSeg("srv") && ValidSeg("view");
    }
    assert Target(root, decoded) == target by {
      SiblingTarget(root, decoded);
    }
    assert Join(root, decoded) == Abs(target) by {
      JoinResolves(root, decoded);
    }
    assert Abs(target) == "/srv/view-old/key" && RootPath(root) <= Abs(target) by {
      SiblingText();
    }
    assert !(root <= target) by {
      assert root[1] != target[1];
    }
    SafeJoinIffInside(root, decoded);
  }

  lemma SiblingTarget(root: seq<string>, decoded: string)
    requires root == ["srv", "view"] && decoded == "/../view-old/key"
    ensures Target(root, decoded) == ["srv", "view-old", "key"]
  {
    assert Split(decoded) == ["", "..", "view-old", "key"] by {
      SiblingSplit();
    }
    assert ValidSeg("view-old") && ValidSeg("key") by {
      SiblingWords();
    }
    ResolveUpAndOver("srv", "view", "view-old", "key");
  }

  lemma SiblingWords()
    ensures ValidSeg("view-old") && ValidSeg("key")
  {
  }

  /** From `/r1/r2`, the parts `"", "..", x, y` lead to `/r1/x/y`. */
  lemma ResolveUpAndOver(r1: string, r2: string, x: string, y: string)
    requires ValidSeg(x) && ValidSeg(y)
    ensures Resolve([r1, r2], ["", "..", x, y]) == [r1, x, y]
  {
    var parts := ["", "..", x, y];
    assert parts[1..] == ["..", x, y];
    assert parts[1..][1..] == [x, y];
    ResolvePush([r1], [x, y]);
    assert [r1, r2][..1] == [r1];
  }

  lemma SiblingSplit()
    ensures Split("/../view-old/key") == ["", "..", "view-old", "key"]
  {
    assert "/../view-old/key" == "/" + ".." + "/" + "view-old" + "/" + "key";
    SplitThree("..", "view-old", "key");
  }

  /** `/a/b/c` splits into its three words after the empty part. */
  lemma SplitThree(a: string, b: string, c: string)
    requires '/' !in a && '/' !in b && '/' !in c
    ensures Split("/" + a + "/" + b + "/" + c) == ["", a, b, c]
  {
    var abc := a + "/" + (b + "/" + c);
    SplitWords(a, b, c);
    SlashAssoc(a, b, c);
    SplitSlash(abc);
  }

  lemma SplitWords(a: string, b: string, c: string)
    requires '/' !in a && '/' !in b && '/' !in c
    ensures Split(a + "/" + (b + "/" + c)) == [a, b, c]
  {
    SplitSegment(a);
    SplitSegment(b);
    SplitSegment(c);
    SplitAppend(b, c);
    SplitAppend(a, b + "/" + c);
  }

  lemma SlashAssoc(a: string, b: string, c: string)
    ensures "/" + a + "/" + b + "/" + c == "/" + (a + "/" + (b + "/" + c))
  {
  }

  lemma SiblingText()
    ensures Abs(["srv", "view-old", "key"]) == "/srv/view-old/key"
    ensures RootPath(["srv", "view"]) == "/srv/view"
    ensures "/srv/view" <= "/srv/view-old/key"
  {
    assert Abs(["key"]) == "/key";
    assert Abs(["view-old", "key"]) == "/view-old/key";
    assert Abs(["view"]) == "/view";
  }

  // ---------------------------------------------------------------------------
  // Routing

  const TilesPrefix: string := "/tiles/"

  datatype Route =
    | Proxy(url: string)          // forwarded to the upstream tile host
    | Static(filePath: string)    // looked up under the root
    | BadRequest                  // 400
    | ProcessExits                // the handler's promise rejected with nobody to catch it

  /** The path a non-tile request looks up: `/` means `/index.html`. */
  function RequestPath(pathname: string): (p: string)
    ensures pathname != "/" ==> p == pathname
    ensures pathname == "/" ==> p == "/index.html"
  {
    if pathname == "/" then "/index.html" else pathname
  }

  /** The server callback up to the file lookup, as written. `/tiles/...` goes
      upstream with the leading `/tiles` removed and the query kept; everything
      else goes through `safeJoin`. `decode` is `decodeURIComponent`, `None`
      where it throws. The throw happens in the async callback before its only
      `try`, so the callback's promise is rejected and nothing handles it:
      Node's default for an unhandled rejection ends the process. */
  function RouteRequestAsWritten(root: seq<string>, pathname: string, search: string, upstream: string,
                                 decode: string -> Option<string>): (r: Route)
    ensures r.Proxy? <==> TilesPrefix <= pathname
    ensures r.Proxy? ==> r.url == upstream + pathname[6..] + search && "/tiles" + pathname[6..] == pathname
    ensures r.ProcessExits? <==> !(TilesPrefix <= pathname) && decode(RequestPath(pathname)).None?
    ensures r.Static? ==> var d := decode(RequestPath(pathname));
                          d.Some? && r.filePath == Join(root, d.value) && RootPath(root) <= r.filePath
  {
    if TilesPrefix <= pathname then
      assert "/tiles" + pathname[6..] == pathname;
      Proxy(upstream + pathname[6..] + search)
    else
      match decode(RequestPath(pathname))
      case None => ProcessExits
      case Some(decoded) =>
        match SafeJoinAsWritten(root, decoded)
        case None => BadRequest
        case Some(p) => Static(p)
  }

  /** The callback as evidently intended: a path that does not decode is a bad
      request, and `safeJoin` checks for the separator after the root. */
  function RouteRequest(root: seq<string>, pathname: string, search: string, upstream: string,
                        decode: string -> Option<string>): (r: Route)
    ensures !r.ProcessExits?
    ensures r.Proxy? <==> TilesPrefix <= pathname
    ensures r.Proxy? ==> r.url == upstream + pathname[6..] + search && "/tiles" + pathname[6..] == pathname
    ensures !(TilesPrefix <= pathname) && decode(RequestPath(pathname)).None? ==> r == BadRequest
    ensures r.Static? ==> var d := decode(RequestPath(pathname));
                          d.Some? && r.filePath == Join(root, d.value)
  {
    if TilesPrefix <= pathname then
      assert "/tiles" + pathname[6..] == pathname;
      Proxy(upstream + pathname[6..] + search)
    else
      match decode(RequestPath(pathname))
      case None => BadRequest
      case Some(decoded) =>
        match SafeJoin(root, decoded)
        case None => BadRequest
        case Some(p) => Static(p)
  }

  /** The corrected callback only narrows the written one: every request it
      proxies or serves, the written one proxies or serves the same way. */
  lemma RouteRequestNarrows(root: seq<string>, pathname: string, search: string, upstream: string,
                            decode: string -> Option<string>)
    ensures var r := RouteRequest(root, pathname, search, upstream, decode);
            (r.Proxy? || r.Static?) ==> RouteRequestAsWritten(root, pathname, search, upstream, decode) == r
  {
    if !(TilesPrefix <= pathname) && decode(RequestPath(pathname)).Some? {
      SafeJoinNarrows(root, decode(RequestPath(pathname)).value);
    }
  }

  /** A malformed escape such as `/%` stops the server as written; the
      corrected callback answers it with 400. */
  lemma MalformedEscapeStopsServer(root: seq<string>, search: string, upstream: string,
                                   decode: string -> Option<string>)
    requires decode("/%").None?
    ensures RouteRequestAsWritten(root, "/%", search, upstream, decode) == ProcessExits
    ensures RouteRequest(root, "/%", search, upstream, decode) == BadRequest
  {
    assert !(TilesPrefix <= "/%");
  }

  /** A static request is refused exactly when it does not decode or its file
      would lie outside the root. */
  lemma StaticContained(root: seq<string>, pathname: string, search: string, upstream: string,
                        decode: string -> Option<string>)
    requires ValidSegs(root) && !(TilesPrefix <= pathname)
    ensures var d := decode(RequestPath(pathname));
            var r := RouteRequest(root, pathname, search, upstream, decode);
            (r.BadRequest? <==> d.None? || !(root <= Target(root, d.value)))
            && (r.Static? <==> d.Some? && root <= Target(root, d.value))
  {
    var d := decode(RequestPath(pathname));
    if d.Some? {
      SafeJoinIffInside(root, d.value);
    }
  }

  /** `/` is served as `index.html` in the root, by both callbacks. */
  lemma RootServesIndex(root: seq<string>, search: string, upstream: string, decode: string -> Option<string>)
    requires ValidSegs(root) && decode("/index.html") == Some("/index.html")
    ensures RouteRequest(root, "/", search, upstream, decode) == Static(Abs(root + ["index.html"]))
    ensures RouteRequestAsWritten(root, "/", search, upstream, decode) == Static(Abs(root + ["index.html"]))
  {
    var decoded := "/index.html";
    var target := root + ["index.html"];
    assert Target(root, decoded) == target by {
      IndexTarget(root);
    }
    assert Join(root, decoded) == Abs(target) by {
      JoinResolves(root, decoded);
    }
    assert SafeJoin(root, decoded) == Some(Abs(target)) by {
      SafeJoinIffInside(root, decoded);
    }
    SafeJoinNarrows(root, decoded);
  }

  lemma IndexTarget(root: seq<string>)
    ensures Target(root, "/index.html") == root + ["index.html"]
  {
    var parts := ["", "index.html"];
    IndexSplit();
    assert parts[1..] == ["index.html"];
    assert ValidSeg("index.html");
    ResolvePush(root, ["index.html"]);
    assert Resolve(root, parts) == Resolve(root, ["index.html"]);
  }

  lemma IndexSplit()
    ensures Split("/index.html") == ["", "index.html"]
  {
    assert "/index.html" == "/" + "index.html";
    SplitOne("index.html");
  }

  lemma SplitOne(a: string)
    requires '/' !in a
    ensures Split("/" + a) == ["", a]
  {
    SplitSegment(a);
    assert ("/" + a)[1..] == a;
  }

  datatype Response = Response(status: int, contentType: Option<string>)

  /** The file lookup. A refused path is 400. `isFile` stands for `fs.stat`:
      `None` when the stat throws. A regular file gets 200 with its content type;
      a GET then reads the file, and `readable` says whether `fs.readFile`
      succeeds. When the read throws the `catch` answers 404, but the content
      type set before the read stays on the response. A HEAD never reads. */
  function ServeStatic(r: Route, isFile: string -> Option<bool>, readable: string -> bool, isHead: bool): (resp: Option<Response>)
    requires r.Static? || r.BadRequest?
    ensures r.BadRequest? ==> resp == Some(Response(400, None))
    ensures r.Static? ==> resp.Some? && (resp.value.status == 200 || resp.value.status == 404)
    ensures r.Static? ==> (resp.value.status == 200 <==> isFile(r.filePath) == Some(true) && (isHead || readable(r.filePath)))
    ensures r.Static? ==> (resp.value.contentType.Some? <==> isFile(r.filePath) == Some(true))
    ensures r.Static? && resp.value.contentType.Some? ==> resp.value.contentType == Some(ContentType(r.filePath))
  {
    if r.BadRequest? then Some(Response(400, None))
    else if isFile(r.filePath) != Some(true) then Some(Response(404, None))
    else
      var headers := Some(ContentType(r.filePath));
      if isHead || readable(r.filePath) then Some(Response(200, headers))
      else Some(Response(404, headers))
  }

  /** A HEAD request is answered without reading the file: its response does not
      depend on whether the read would succeed, and matches what a GET gets when
      the read succeeds. */
  lemma HeadIgnoresRead(r: Route, isFile: string -> Option<bool>, readable: string -> bool, other: string -> bool)
    requires r.Static?
    ensures ServeStatic(r, isFile, readable, true) == ServeStatic(r, isFile, other, true)
    ensures readable(r.filePath) ==> ServeStatic(r, isFile, readable, false) == ServeStatic(r, isFile, readable, true)
  {
  }

  /** A GET of a regular file whose read throws is 404 with the file's content
      type still set, unlike a missing file, which is 404 without one. */
  lemma UnreadableFileKeepsContentType(r: Route, isFile: string -> Option<bool>, readable: string -> bool)
    requires r.Static? && isFile(r.filePath) == Some(true) && !readable(r.filePath)
    ensures ServeStatic(r, isFile, readable, false) == Some(Response(404, Some(ContentType(r.filePath))))
  {
  }

  // ---------------------------------------------------------------------------
  // The tile host

  const FallbackTileHost: string := "https://pub-3c6ee3900f804513bd3b2a3e4df337bd.r2.dev"

  const KmlSuffix: string := "/0/0/0.kml"

  /** The `/0/0/0.kml` ending, matched without case. */
  predicate HasKmlSuffix(href: string)
  {
    |href| >= |KmlSuffix| && Lower(href[|href| - |KmlSuffix|..]) == KmlSuffix
  }

  /** The host part of a matched href: the `/0/0/0.kml` ending removed. */
  function StripKmlSuffix(href: string): (host: string)
    ensures |host| <= |href| && host == href[..|host|]
    ensures HasKmlSuffix(href) ==> |href| - |host| == |KmlSuffix|
    ensures !HasKmlSuffix(href) ==> host == href
  {
    if HasKmlSuffix(href) then href[..|href| - |KmlSuffix|] else href
  }

  /** `resolveTileHostFromKmlDescriptor` in main.js. `href` is the captured
      group of the `<href>` match, `None` when the descriptor could not be read
      or held no match. */
  function ResolveTileHostFromKml(href: Option<string>): (r: Option<string>)
    ensures r.None? <==> href.None?
  {
    match href
    case None => None
    case Some(h) => Some(StripKmlSuffix(h))
  }

  /** `resolveUpstreamTileHost` in server.js: the same lookup, with the fixed
      host when it yields nothing. */
  function ResolveUpstreamTileHost(href: Option<string>): (host: string)
    ensures href.None? ==> host == FallbackTileHost
  {
    match href
    case None => FallbackTileHost
    case Some(h) => StripKmlSuffix(h)
  }

  /** The page and the server agree on the host: the page falls back to the
      same fixed host. */
  lemma TileHostAgrees(href: Option<string>)
    ensures ResolveUpstreamTileHost(href)
            == (match ResolveTileHostFromKml(href) case Some(h) => h case None => FallbackTileHost)
  {
  }

  /** For every href the pattern can capture (it ends in `/0/0/0.kml`, any
      case), the host followed by the removed ending is the href again. */
  lemma HostRoundTrip(href: string)
    requires HasKmlSuffix(href)
    ensures var host := ResolveUpstreamTileHost(Some(href));
            |host| <= |href| && Lower(href[|host|..]) == KmlSuffix && host + href[|host|..] == href
  {
  }
}
