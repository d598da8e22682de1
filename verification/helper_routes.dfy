/** Route selection in the helper's `Handler.do_GET`: the request target is
    reduced to its path by `urllib.parse.urlparse`, and only that path decides
    the reply. */
module Routes {
  import opened Wrappers
  import opened Text
  import opened Values
  import opened Colors
  import opened HelperState

  // ---------------------------------------------------------------------------
  // urlparse(target).path
  // ---------------------------------------------------------------------------

  /** The characters `urlsplit` strips from the front of a URL (C0 controls
      and space). */
  predicate IsC0OrSpace(c: char) {
    c <= ' '
  }

  /** The characters `urlsplit` deletes wherever they occur. */
  predicate IsUnsafe(c: char) {
    c == '\t' || c == '\r' || c == '\n'
  }

  predicate NoUnsafe(s: string) {
    forall i :: 0 <= i < |s| ==> !IsUnsafe(s[i])
  }

  /** `s` has no occurrence of `c`. */
  predicate Lacks(s: string, c: char) {
    forall i :: 0 <= i < |s| ==> s[i] != c
  }

  function LeftStripC0(s: string): (r: string)
    ensures r == [] || !IsC0OrSpace(r[0])
    ensures |r| <= |s| && r == s[|s| - |r|..]
    ensures forall i :: 0 <= i < |s| - |r| ==> IsC0OrSpace(s[i])
  {
    if s != [] && IsC0OrSpace(s[0]) then
      var r := LeftStripC0(s[1..]);
      assert s[1..][|s| - 1 - |r|..] == s[|s| - |r|..];
      r
    else s
  }

  function RemoveUnsafe(s: string): (r: string)
    ensures NoUnsafe(r)
    ensures |r| <= |s|
  {
    if s == [] then []
    else (if IsUnsafe(s[0]) then [] else [s[0]]) + RemoveUnsafe(s[1..])
  }

  lemma {:induction false} RemoveUnsafeNone(s: string)
    requires NoUnsafe(s)
    ensures RemoveUnsafe(s) == s
  {
    if s != [] {
      RemoveUnsafeNone(s[1..]);
    }
  }

  lemma {:induction false} RemoveUnsafeAppend(a: string, b: string)
    ensures RemoveUnsafe(a + b) == RemoveUnsafe(a) + RemoveUnsafe(b)
  {
    if a != [] {
      assert (a + b)[0] == a[0];
      assert (a + b)[1..] == a[1..] + b;
      RemoveUnsafeAppend(a[1..], b);
    } else {
      assert a + b == b;
    }
  }

  /** Removing characters adds none. */
  lemma {:induction false} RemoveUnsafeLacks(s: string, c: char)
    requires Lacks(s, c)
    ensures Lacks(RemoveUnsafe(s), c)
  {
    if s != [] {
      RemoveUnsafeLacks(s[1..], c);
    }
  }

  predicate IsAsciiLetter(c: char) {
    'a' <= c <= 'z' || 'A' <= c <= 'Z'
  }

  /** `scheme_chars`: letters, digits, `+`, `-` and `.`. */
  predicate IsSchemeChar(c: char) {
    IsAsciiLetter(c) || '0' <= c <= '9' || c == '+' || c == '-' || c == '.'
  }

  /** The first `:` of `url` is at `i`, and what precedes it has the shape of
      a scheme: a letter followed by scheme characters. */
  predicate SchemeAt(url: string, i: int) {
    0 < i < |url| && url[i] == ':' && Lacks(url[..i], ':')
    && IsAsciiLetter(url[0]) && forall k :: 0 <= k < i ==> IsSchemeChar(url[k])
  }

  /** `urlsplit`'s scheme test: the text before the first `:` is a scheme when
      it is non-empty, starts with a letter and holds only scheme characters;
      the scheme is lower-cased and the colon dropped. Anything else leaves the
      URL whole, with the empty scheme. */
  function SplitScheme(url: string): (r: (string, string))
    ensures r == ("", url) || (0 < |r.0| < |url| && url[|r.0|] == ':' && r.1 == url[|r.0| + 1..])
    ensures url != [] && !IsAsciiLetter(url[0]) ==> r == ("", url)
    ensures r.0 != "" ==> SchemeAt(url, |r.0|) && r.0 == Lower(url[..|r.0|])
  {
    var i := IndexOf(url, ':');
    if 0 < i < |url| && IsAsciiLetter(url[0]) && forall k :: 0 <= k < i ==> IsSchemeChar(url[k])
    then (Lower(url[..i]), url[i + 1..])
    else ("", url)
  }

  /** A scheme-shaped prefix before the first `:` is always split off,
      lower-cased. */
  lemma SchemeSplitOff(url: string, i: int)
    requires SchemeAt(url, i)
    ensures SplitScheme(url) == (Lower(url[..i]), url[i + 1..])
  {
    assert IndexOf(url, ':') == i;
  }

  /** The URL starts with `//`, so an authority follows. */
  predicate HasAuthority(url: string) {
    |url| >= 2 && url[0] == '/' && url[1] == '/'
  }

  /** `_splitnetloc(url, 2)` after a leading `//`: the authority runs up to the
      first `/`, `?` or `#`. Without `//` there is no authority. */
  function SplitNetloc(url: string): (r: (string, string))
    ensures !HasAuthority(url) ==> r == ("", url)
    ensures HasAuthority(url) ==> url == "//" + r.0 + r.1
    ensures forall k :: 0 <= k < |r.0| ==> r.0[k] !in {'/', '?', '#'}
    ensures r.1 == [] || !HasAuthority(url) || r.1[0] in {'/', '?', '#'}
    ensures |r.1| <= |url| && r.1 == url[|url| - |r.1|..]
  {
    if HasAuthority(url) then
      var j := 2 + IndexOfAny(url[2..], {'/', '?', '#'});
      assert "//" + url[2..j] + url[j..] == url;
      (url[2..j], url[j..])
    else ("", url)
  }

  /** `urlsplit` raises `ValueError("Invalid IPv6 URL")` when the authority
      holds one square bracket without the other. */
  predicate BracketsBalanced(netloc: string) {
    ('[' in netloc) == (']' in netloc)
  }

  /** The schemes listed in `urllib.parse.uses_params`, including the empty
      one a bare path has. */
  const UsesParams: set<string> :=
    {"", "ftp", "hdl", "prospero", "http", "imap", "https", "shttp", "rtsp",
     "rtsps", "rtspu", "sip", "sips", "mms", "sftp", "tel"}

  /** `s.split(c, 1)[0]`: everything before the first `c`. */
  function CutAt(s: string, c: char): (r: string)
    ensures r <= s && Lacks(r, c)
    ensures Lacks(s, c) ==> r == s
    ensures |r| < |s| ==> s[|r|] == c
  {
    s[..IndexOf(s, c)]
  }

  /** `_splitparams(url)[0]`: the path without the `;params` of its last
      segment (or of the whole path when it holds no `/`). */
  function DropParams(url: string): (r: string)
    ensures r <= url
    ensures Lacks(url, ';') ==> r == url
    ensures |r| < |url| ==> url[|r|] == ';'
  {
    var slash := LastIndexOf(url, '/');
    var from := if slash < 0 then 0 else slash;
    url[..from + IndexOf(url[from..], ';')]
  }

  /** The path once scheme and authority are gone: the fragment is cut at the
      first `#`, then the query at the first `?`, then the `;params` when the
      scheme allows them. */
  function PathOf(scheme: string, rest: string): (p: string)
    ensures Lacks(p, '?') && Lacks(p, '#')
  {
    var path := CutAt(CutAt(rest, '#'), '?');
    if scheme in UsesParams then DropParams(path) else path
  }

  /** `urlparse(target).path`, or None where `urlparse` raises. */
  function UrlPath(target: string): (p: Option<string>)
    ensures p.Some? ==> Lacks(p.value, '?') && Lacks(p.value, '#')
  {
    ParsedPath(RemoveUnsafe(LeftStripC0(target)))
  }

  /** The path of an already sanitised URL: scheme, then authority, then the
      path proper. */
  function ParsedPath(url: string): (p: Option<string>)
    ensures p.Some? ==> Lacks(p.value, '?') && Lacks(p.value, '#')
  {
    var scheme := SplitScheme(url);
    var netloc := SplitNetloc(scheme.1);
    if BracketsBalanced(netloc.0) then Some(PathOf(scheme.0, netloc.1)) else None
  }

  // ---------------------------------------------------------------------------
  // do_GET
  // ---------------------------------------------------------------------------

  /** The JSON document a reply carries. */
  datatype Body =
    | FullState(state: State)
    | StatsOnly(stats: JsonObject)
    | HealthOk
    | NotFoundError

  datatype Reply = Reply(code: int, body: Body)

  /** The paths the helper serves. */
  const Served: set<string> := {"/tempo", "/tempo/", "/stats", "/stats/", "/health", "/health/"}

  /** The reply `do_GET` sends for a request whose parsed path is `path`. */
  function Respond(state: State, path: string): (r: Reply)
    ensures r.code == 200 <==> path in Served
    ensures r.code == 404 <==> path !in Served
    ensures path !in Served ==> r == Reply(404, NotFoundError)
    ensures r.body.FullState? ==> r.body.state == state
    ensures r.body.StatsOnly? ==> r.body.stats == state.stats
    ensures path == "/tempo" || path == "/tempo/" ==> r == Reply(200, FullState(state))
    ensures path == "/stats" || path == "/stats/" ==> r == Reply(200, StatsOnly(state.stats))
    ensures path == "/health" || path == "/health/" ==> r == Reply(200, HealthOk)
  {
    if path == "/tempo" || path == "/tempo/" then Reply(200, FullState(state))
    else if path == "/stats" || path == "/stats/" then Reply(200, StatsOnly(state.stats))
    else if path == "/health" || path == "/health/" then Reply(200, HealthOk)
    else Reply(404, NotFoundError)
  }

  /** `do_GET`: None when parsing the target raises, so no reply is written. */
  function DoGet(state: State, target: string): (r: Option<Reply>)
    ensures r.None? <==> UrlPath(target).None?
    ensures r.Some? ==> (r.value.code == 404 <==> UrlPath(target).value !in Served)
    ensures r.Some? ==> r.value == Respond(state, UrlPath(target).value)
  {
    match UrlPath(target)
    case None => None
    case Some(path) => Some(Respond(state, path))
  }

  // ---------------------------------------------------------------------------
  // Properties
  // ---------------------------------------------------------------------------

  /** An origin-form target (starting with a single `/`) needs no scheme or
      authority parsing: its path is the target up to `?` or `#`, less any
      `;params`. */
  lemma OriginFormPath(p: string)
    requires p != [] && p[0] == '/' && (|p| < 2 || p[1] != '/')
    requires NoUnsafe(p) && Lacks(p, '?') && Lacks(p, '#')
    ensures UrlPath(p) == Some(PathOf("", p)) == Some(DropParams(p))
    ensures Lacks(p, ';') ==> UrlPath(p) == Some(p)
  {
    assert LeftStripC0(p) == p;
    RemoveUnsafeNone(p);
    assert SplitScheme(p) == ("", p);
    assert SplitNetloc(p) == ("", p);
    assert PathOf("", p) == DropParams(p) by {
      assert CutAt(CutAt(p, '#'), '?') == p;
      assert "" in UsesParams;
    }
  }

  /** The query string never influences the path, hence never the reply. */
  lemma QueryIgnored(state: State, p: string, q: string)
    requires p != [] && p[0] == '/' && Lacks(p, '?') && Lacks(p, '#')
    ensures UrlPath(p + "?" + q) == UrlPath(p)
    ensures DoGet(state, p + "?" + q) == DoGet(state, p)
  {
    SanitizeQuery(p, q);
    ParsedPathQuery(RemoveUnsafe(p), "?" + RemoveUnsafe(q));
  }

  /** A query after a sanitised `/…` URL does not change its parsed path. */
  lemma ParsedPathQuery(u: string, tail: string)
    requires u != [] && u[0] == '/' && Lacks(u, '?') && Lacks(u, '#')
    requires tail != [] && tail[0] == '?'
    ensures ParsedPath(u + tail) == ParsedPath(u)
  {
    QueryAfterSanitizing(u, tail);
  }

  /** Sanitising a target with a query sanitises the path and the query
      separately, and keeps the path's leading `/`. */
  lemma SanitizeQuery(p: string, q: string)
    requires p != [] && p[0] == '/' && Lacks(p, '?') && Lacks(p, '#')
    ensures RemoveUnsafe(LeftStripC0(p + "?" + q)) == RemoveUnsafe(p) + ("?" + RemoveUnsafe(q))
    ensures RemoveUnsafe(LeftStripC0(p)) == RemoveUnsafe(p)
    ensures var u := RemoveUnsafe(p); u != [] && u[0] == '/' && Lacks(u, '?') && Lacks(u, '#')
  {
    StripSlash(p + "?" + q);
    StripSlash(p);
    RemoveUnsafeQuery(p, q);
    RemoveUnsafeSlash(p);
    RemoveUnsafeLacks(p, '?');
    RemoveUnsafeLacks(p, '#');
  }

  /** A target starting with `/` loses nothing to the leading strip. */
  lemma StripSlash(t: string)
    requires t != [] && t[0] == '/'
    ensures LeftStripC0(t) == t
  {
  }

  lemma RemoveUnsafeQuery(p: string, q: string)
    ensures RemoveUnsafe(p + "?" + q) == RemoveUnsafe(p) + ("?" + RemoveUnsafe(q))
  {
    assert p + "?" + q == p + ("?" + q);
    RemoveUnsafeAppend(p, "?" + q);
    RemoveUnsafeAppend("?", q);
    assert RemoveUnsafe("?") == "?";
  }

  lemma RemoveUnsafeSlash(p: string)
    requires p != [] && p[0] == '/'
    ensures RemoveUnsafe(p) != [] && RemoveUnsafe(p)[0] == '/'
  {
    assert p == [p[0]] + p[1..];
    RemoveUnsafeAppend([p[0]], p[1..]);
    assert RemoveUnsafe([p[0]]) == [p[0]];
  }

  /** Once sanitised, a URL starting with `/` and followed by a query parses to
      the same path as without it. */
  lemma QueryAfterSanitizing(u: string, tail: string)
    requires u != [] && u[0] == '/' && Lacks(u, '?') && Lacks(u, '#')
    requires tail != [] && tail[0] == '?'
    ensures SplitScheme(u + tail) == ("", u + tail) && SplitScheme(u) == ("", u)
    ensures SplitNetloc(u + tail).0 == SplitNetloc(u).0
    ensures PathOf("", SplitNetloc(u + tail).1) == PathOf("", SplitNetloc(u).1)
  {
    assert (u + tail)[0] == '/';
    NetlocQuery(u, tail);
    var rest := SplitNetloc(u).1;
    LacksSuffix(u, |u| - |rest|, '?');
    LacksSuffix(u, |u| - |rest|, '#');
    PathOfQuery(rest, tail);
  }

  lemma LacksSuffix(u: string, k: nat, c: char)
    requires k <= |u| && Lacks(u, c)
    ensures Lacks(u[k..], c)
  {
  }

  /** The path of a remainder with a query appended is the path without it. */
  lemma PathOfQuery(rest: string, tail: string)
    requires Lacks(rest, '?') && Lacks(rest, '#') && tail != [] && tail[0] == '?'
    ensures PathOf("", rest + tail) == PathOf("", rest)
  {
    CutQuery(rest, tail);
    assert CutAt(CutAt(rest, '#'), '?') == rest;
    assert "" in UsesParams;
  }

  /** Appending a query to a URL without `?` or `#` leaves the authority alone
      and only extends the remainder. */
  lemma NetlocQuery(u: string, tail: string)
    requires Lacks(u, '?') && Lacks(u, '#') && tail != [] && tail[0] == '?'
    ensures SplitNetloc(u + tail).0 == SplitNetloc(u).0
    ensures SplitNetloc(u + tail).1 == SplitNetloc(u).1 + tail
  {
    var w := u + tail;
    if HasAuthority(u) {
      assert HasAuthority(w);
      assert w[2..] == u[2..] + tail;
      var i := IndexOfAny(u[2..], {'/', '?', '#'});
      var j := IndexOfAny(w[2..], {'/', '?', '#'});
      if i < |u[2..]| {
        assert w[2..][i] == u[2..][i];
      } else {
        assert w[2..][i] == '?';
      }
      assert j == i;
      assert 2 + i <= |u|;
      assert w[2..2 + j] == u[2..2 + i];
      assert w[2 + i..] == u[2 + i..] + tail;
    } else {
      assert !HasAuthority(w);
    }
  }

  /** Cutting at `#` and then at `?` removes exactly an appended query. */
  lemma CutQuery(r: string, tail: string)
    requires Lacks(r, '?') && Lacks(r, '#') && tail != [] && tail[0] == '?'
    ensures CutAt(CutAt(r + tail, '#'), '?') == r
  {
    var x := CutAt(r + tail, '#');
    assert (r + tail)[|r|] == '?';
    assert |x| > |r|;
    assert x[|r|] == '?';
    assert x[..|r|] == r;
    var i := IndexOf(x, '?');
    assert i == |r|;
  }

  /** Characters of the served paths: lower-case letters and `/`. */
  predicate PathChars(p: string) {
    forall i :: 0 <= i < |p| ==> 'a' <= p[i] <= 'z' || p[i] == '/'
  }

  /** A path of letters and slashes, starting with a single `/`, parses to
      itself, and a query appended to it is ignored. */
  lemma PlainRoute(state: State, p: string, q: string)
    requires PathChars(p) && |p| >= 2 && p[0] == '/' && p[1] != '/'
    ensures UrlPath(p) == Some(p)
    ensures DoGet(state, p) == Some(Respond(state, p))
    ensures DoGet(state, p + "?" + q) == Some(Respond(state, p))
  {
    OriginFormPath(p);
    QueryIgnored(state, p, q);
  }

  /** Every served path answers 200 with the document `Respond` picks, with
      or without a query string. */
  lemma ServedRoute(state: State, p: string, q: string)
    requires p in Served
    ensures DoGet(state, p) == Some(Respond(state, p))
    ensures DoGet(state, p + "?" + q) == Some(Respond(state, p))
    ensures Respond(state, p).code == 200
  {
    assert PathChars(p) && |p| >= 2 && p[0] == '/' && p[1] != '/';
    PlainRoute(state, p, q);
  }

  /** Any other path of that shape answers 404. */
  lemma UnservedRoute(state: State, p: string, q: string)
    requires PathChars(p) && |p| >= 2 && p[0] == '/' && p[1] != '/' && p !in Served
    ensures DoGet(state, p + "?" + q) == Some(Reply(404, NotFoundError))
  {
    PlainRoute(state, p, q);
  }

  /** A lower-case scheme name as `urlsplit` recognises it. */
  predicate IsScheme(s: string) {
    s != [] && IsAsciiLetter(s[0])
    && forall i :: 0 <= i < |s| ==> IsSchemeChar(s[i]) && !('A' <= s[i] <= 'Z')
  }

  lemma NoUnsafeAppend(a: string, b: string)
    requires NoUnsafe(a) && NoUnsafe(b)
    ensures NoUnsafe(a + b)
  {
    forall i | 0 <= i < |a + b|
      ensures !IsUnsafe((a + b)[i])
    {
      if i >= |a| {
        assert (a + b)[i] == b[i - |a|];
      }
    }
  }

  lemma SchemeOf(s: string, rest: string)
    requires IsScheme(s)
    ensures SplitScheme(s + ":" + rest) == (s, rest)
  {
    var t := s + ":" + rest;
    assert IndexOf(t, ':') == |s| by {
      assert t[|s|] == ':';
      forall k | 0 <= k < |s|
        ensures t[k] != ':'
      {
        assert t[k] == s[k];
      }
    }
    assert t[..|s|] == s;
    assert Lower(s) == s;
    assert t[|s| + 1..] == rest;
  }

  lemma NetlocOf(h: string, p: string)
    requires Lacks(h, '/') && Lacks(h, '?') && Lacks(h, '#')
    requires p != [] && p[0] == '/'
    ensures SplitNetloc("//" + h + p) == (h, p)
  {
    var rest := "//" + h + p;
    assert HasAuthority(rest);
    assert rest[2..] == h + p;
    assert IndexOfAny(h + p, {'/', '?', '#'}) == |h| by {
      assert (h + p)[|h|] == '/';
      forall k | 0 <= k < |h|
        ensures (h + p)[k] !in {'/', '?', '#'}
      {
        assert (h + p)[k] == h[k];
      }
    }
    assert rest[2..2 + |h|] == h;
    assert rest[2 + |h|..] == p;
  }

  /** A target with no tab or line break that starts with a visible
      character is left alone by the sanitising steps. */
  lemma CleanTarget(t: string)
    requires NoUnsafe(t) && t != [] && !IsC0OrSpace(t[0])
    ensures RemoveUnsafe(LeftStripC0(t)) == t
  {
    assert LeftStripC0(t) == t;
    RemoveUnsafeNone(t);
  }

  lemma AbsoluteNoUnsafe(s: string, h: string, p: string)
    requires NoUnsafe(s) && NoUnsafe(h) && NoUnsafe(p)
    ensures NoUnsafe(s + ":" + ("//" + h + p))
  {
    assert NoUnsafe(":" + "//");
    NoUnsafeAppend(s, ":" + "//");
    NoUnsafeAppend(s + ":" + "//", h);
    NoUnsafeAppend(s + ":" + "//" + h, p);
    assert s + ":" + ("//" + h + p) == s + ":" + "//" + h + p;
  }

  /** An absolute-form target `scheme://host/path` routes on its path alone,
      as its origin form would. */
  lemma AbsoluteForm(s: string, h: string, p: string)
    requires IsScheme(s) && s in UsesParams
    requires NoUnsafe(h) && Lacks(h, '/') && Lacks(h, '?') && Lacks(h, '#') && Lacks(h, '[') && Lacks(h, ']')
    requires NoUnsafe(p) && p != [] && p[0] == '/'
    ensures UrlPath(s + "://" + h + p) == Some(PathOf("", p))
  {
    var rest := "//" + h + p;
    var t := s + ":" + rest;
    assert s + "://" + h + p == t;
    assert RemoveUnsafe(LeftStripC0(t)) == t by {
      AbsoluteNoUnsafe(s, h, p);
      assert t[0] == s[0];
      CleanTarget(t);
    }
    assert SplitScheme(t) == (s, rest) by {
      SchemeOf(s, rest);
    }
    assert SplitNetloc(rest) == (h, p) by {
      NetlocOf(h, p);
    }
    assert BracketsBalanced(h) by {
      assert !('[' in h);
      assert !(']' in h);
    }
    ParsedFromParts(t, s, rest, h, p);
  }

  /** The parsed path, given how the scheme and the authority split off. */
  lemma ParsedFromParts(t: string, s: string, rest: string, h: string, p: string)
    requires SplitScheme(t) == (s, rest) && SplitNetloc(rest) == (h, p)
    requires BracketsBalanced(h) && s in UsesParams
    ensures ParsedPath(t) == Some(PathOf("", p))
  {
  }

  /** The URLs the plugin fetches (`http://127.0.0.1:9123/tempo` and
      `/stats`), sent as absolute-form targets, reach the same replies as
      their paths, whatever the host and port. */
  lemma PluginUrlRoutes(state: State, h: string, p: string)
    requires NoUnsafe(h) && Lacks(h, '/') && Lacks(h, '?') && Lacks(h, '#') && Lacks(h, '[') && Lacks(h, ']')
    requires p in Served
    ensures DoGet(state, "http://" + h + p) == Some(Respond(state, p))
  {
    ServedShape(p);
    assert UrlPath("http://" + h + p) == Some(PathOf("", p)) by {
      assert IsScheme("http") && "http" in UsesParams;
      assert "http://" + h + p == "http" + "://" + h + p;
      AbsoluteForm("http", h, p);
    }
    assert PathOf("", p) == p by {
      OriginFormPath(p);
    }
  }

  /** Every served path is a plain origin-form path without parameters. */
  lemma ServedShape(p: string)
    requires p in Served
    ensures p != [] && p[0] == '/' && (|p| < 2 || p[1] != '/')
    ensures NoUnsafe(p) && Lacks(p, '?') && Lacks(p, '#') && Lacks(p, ';')
  {
    assert PathChars(p);
  }

  /** Before the first refresh, `/tempo` serves the state `TempoState()` starts
      in: every day UNKNOWN, no stats, no error, never updated. */
  lemma BeforeFirstRefresh()
    ensures DoGet(Initial, "/tempo") == Some(Reply(200, FullState(Initial)))
    ensures Initial.today == Unknown && Initial.tomorrow == Unknown && Initial.yesterday == Unknown
    ensures Initial.stats == map[] && Initial.lastError == "" && Initial.lastUpdate == 0
  {
    ServedShape("/tempo");
    OriginFormPath("/tempo");
  }
}
