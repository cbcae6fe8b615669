/**
 * The request side of the dashboards' `do_GET`: the path component
 * `urllib.parse.urlparse(self.path).path`, the string tests the routes are
 * chosen by, and the responses a handler can give.
 */
module Http {
  import opened Wrappers
  import opened Bytes
  import opened Json

  /** What a dashboard handler sends back. `Aborted`: the handler raised, so no response is written. */
  datatype Response<S> = Page | StatusBody(status: S) | Image(bytes: seq<byte>) | Error(code: nat) | Aborted

  /** The routes of `do_GET`. `Screenshot` carries the requested client id, when the route has one. */
  datatype Route = Dashboard | Status | Screenshot(id: string) | NotFound

  /** Index of the first `c` in `s` at or after `from`, or |s| when there is none. */
  function IndexOf(s: string, c: char, from: nat): (i: nat)
    requires from <= |s|
    ensures from <= i <= |s|
    ensures i < |s| ==> s[i] == c
    ensures forall j :: from <= j < i ==> s[j] != c
    decreases |s| - from
  {
    if from == |s| || s[from] == c then from else IndexOf(s, c, from + 1)
  }

  /** Index of the first of '/', '?' or '#' at or after `from`, or |s|: where a network location ends. */
  function NetlocEnd(s: string, from: nat): (i: nat)
    requires from <= |s|
    ensures from <= i <= |s|
    ensures i < |s| ==> s[i] in "/?#"
    ensures forall j :: from <= j < i ==> s[j] !in "/?#"
    decreases |s| - from
  {
    if from == |s| || s[from] in "/?#" then from else NetlocEnd(s, from + 1)
  }

  /** Index of the last '/' in `s`, or -1. */
  function LastSlash(s: string): (i: int)
    ensures -1 <= i < |s|
    ensures i >= 0 ==> s[i] == '/'
    ensures forall j :: i < j < |s| ==> s[j] != '/'
  {
    if s == [] then -1 else if s[|s| - 1] == '/' then |s| - 1 else LastSlash(s[..|s| - 1])
  }

  /**
   * `urlparse(target).path` for a target without a scheme: a leading `//`
   * starts a network location that runs to the next '/', '?' or '#'; then the
   * fragment (from the first '#') and the query (from the first '?') are cut
   * off, and finally the parameters (from the first ';' after the last '/').
   */
  function UrlPath(target: string): (p: string)
    ensures '#' !in p && '?' !in p
    ensures ';' in p ==> exists k :: 0 <= k < |p| && p[k] == '/' && forall j :: k < j < |p| ==> p[j] != ';'
  {
    var a := if |target| >= 2 && target[..2] == "//" then target[NetlocEnd(target, 2)..] else target;
    var b := a[..IndexOf(a, '#', 0)];
    PrefixAvoids(a, '#', IndexOf(a, '#', 0));
    var c := b[..IndexOf(b, '?', 0)];
    PrefixAvoids(b, '?', IndexOf(b, '?', 0));
    PrefixKeepsOut(b, '#', IndexOf(b, '?', 0));
    var slash := LastSlash(c);
    var end := if slash < 0 then IndexOf(c, ';', 0) else IndexOf(c, ';', slash);
    PrefixKeepsOut(c, '#', end);
    PrefixKeepsOut(c, '?', end);
    if slash < 0 then
      PrefixAvoids(c, ';', end);
      c[..end]
    else
      assert c[..end][slash] == '/';
      c[..end]
  }

  /** A prefix that stops before the first `x` holds no `x`. */
  lemma PrefixAvoids(s: string, x: char, i: nat)
    requires i <= |s| && forall j :: 0 <= j < i ==> s[j] != x
    ensures x !in s[..i]
  {
    assert forall j :: 0 <= j < i ==> s[..i][j] == s[j];
  }

  /** A character a string lacks, its prefixes lack too. */
  lemma PrefixKeepsOut(s: string, x: char, i: nat)
    requires i <= |s| && x !in s
    ensures x !in s[..i]
  {
    assert forall j :: 0 <= j < i ==> s[..i][j] == s[j];
  }

  /** A target that is already a plain path is its own path. */
  lemma UrlPathPlain(target: string)
    requires !(|target| >= 2 && target[..2] == "//")
    requires '#' !in target && '?' !in target && ';' !in target
    ensures UrlPath(target) == target
  {
  }

  /** A query string does not change the path. */
  lemma UrlPathQuery(path: string, query: string)
    requires !(|path| >= 2 && path[..2] == "//")
    requires '#' !in path && '?' !in path && ';' !in path && '#' !in query
    ensures UrlPath(path + "?" + query) == path
  {
    var t := path + "?" + query;
    assert t[|path|] == '?';
    assert forall j :: 0 <= j < |path| ==> t[j] == path[j];
    assert forall j :: |path| < j < |t| ==> t[j] == query[j - |path| - 1];
    assert '#' !in t;
    IndexOfAbsent(t, '#', 0);
    assert t[..|t|] == t;
    assert IndexOf(t, '?', 0) == |path|;
    assert t[..|path|] == path;
    assert !(|t| >= 2 && t[..2] == "//") by {
      if |path| >= 2 {
        assert t[..2] == path[..2];
      } else {
        assert |t| >= 2 ==> t[|path|] == '?';
      }
    }
  }

  lemma {:induction false} IndexOfAbsent(s: string, c: char, from: nat)
    requires from <= |s| && c !in s
    ensures IndexOf(s, c, from) == |s|
    decreases |s| - from
  {
    if from < |s| {
      IndexOfAbsent(s, c, from + 1);
    }
  }

  predicate StartsWith(s: string, prefix: string) {
    |prefix| <= |s| && s[..|prefix|] == prefix
  }

  /** `s.split('/')[-1]`: what follows the last '/', or all of `s` when it has none. */
  function LastSegment(s: string): (r: string)
    ensures '/' !in r
    ensures |r| <= |s| && r == s[|s| - |r|..]
    ensures |r| < |s| ==> s[|s| - |r| - 1] == '/'
  {
    s[LastSlash(s) + 1..]
  }

  const ScreenshotPrefix: string := "/api/screenshot/"

  /**
   * The route choice of dashboard_server.py and pc_dashboard.py: '/' and
   * '/api/status' exactly, any path starting with '/api/screenshot/' (the id
   * is its last segment), and 404 for everything else.
   */
  function RoutePerClient(path: string): (r: Route)
    ensures r == Dashboard <==> path == "/"
    ensures r == Status <==> path == "/api/status"
    ensures r.Screenshot? <==> StartsWith(path, ScreenshotPrefix)
    ensures r.Screenshot? ==> r.id == LastSegment(path)
  {
    if path == "/" then Dashboard
    else if path == "/api/status" then Status
    else if StartsWith(path, ScreenshotPrefix) then Screenshot(LastSegment(path))
    else NotFound
  }

  /** Requesting '/api/screenshot/<id>' for an id without '/' asks for exactly that id. */
  lemma RoutePerClientScreenshot(id: string)
    requires '/' !in id
    ensures RoutePerClient(ScreenshotPrefix + id) == Screenshot(id)
  {
    var path := ScreenshotPrefix + id;
    var n := |ScreenshotPrefix|;
    assert path[..n] == ScreenshotPrefix;
    assert path[n - 1] == '/';
    assert forall j :: n <= j < |path| ==> path[j] == id[j - n] && path[j] != '/';
    var i := LastSlash(path);
    assert i == n - 1;
    assert LastSegment(path) == path[n..] == id;
  }

  /** The URL of a screenshot, for an id that needs no escaping, is routed to that id. */
  lemma ScreenshotTargetRoute(id: string)
    requires '/' !in id && '?' !in id && '#' !in id && ';' !in id
    ensures RoutePerClient(UrlPath(ScreenshotPrefix + id)) == Screenshot(id)
  {
    var t := ScreenshotPrefix + id;
    var n := |ScreenshotPrefix|;
    assert t[..2] == ScreenshotPrefix[..2] == "/a";
    assert forall j :: 0 <= j < |t| ==> t[j] == (if j < n then ScreenshotPrefix[j] else id[j - n]);
    assert forall j :: 0 <= j < n ==> ScreenshotPrefix[j] !in "#?;";
    assert '#' !in t && '?' !in t && ';' !in t;
    UrlPathPlain(t);
    RoutePerClientScreenshot(id);
  }

  /** The route choice of remote_server.py: '/', '/api/status' and '/api/screenshot', each exactly; 404 otherwise. */
  function RouteSingle(path: string): (r: Route)
    ensures r == Dashboard <==> path == "/"
    ensures r == Status <==> path == "/api/status"
    ensures r.Screenshot? <==> path == "/api/screenshot"
    ensures r.Screenshot? ==> r.id == ""
  {
    if path == "/" then Dashboard
    else if path == "/api/status" then Status
    else if path == "/api/screenshot" then Screenshot("")
    else NotFound
  }

  /**
   * `serve_screenshot(client_id)` of dashboard_server.py and pc_dashboard.py: 404 for an id with no cached frame; the
   * decoded image when the cached value is a string base64 accepts; 500 when
   * decoding raises (a non-string value, such as the None a message without
   * 'data' leaves, or malformed base64).
   */
  function ServeCachedScreenshot<S>(cache: map<Json, Json>, id: string, b64: Base64Decoder): (r: Response<S>)
    ensures r == Error(404) <==> JStr(id) !in cache
    ensures r.Image? <==> JStr(id) in cache && cache[JStr(id)].JStr? && b64(cache[JStr(id)].s).Some?
    ensures r.Image? ==> r.bytes == b64(cache[JStr(id)].s).value
    ensures r.Image? || r == Error(404) || r == Error(500)
  {
    if JStr(id) !in cache then Error(404)
    else match cache[JStr(id)]
      case JStr(s) => (match b64(s) case Some(b) => Image(b) case None => Error(500))
      case _ => Error(500)
  }
}
