/** `HttpUrl` and the request target that messenger/http_request.h cuts out of it.  */
module UrlRequest {
  import opened Wrappers
  import opened Text
  import opened UrlPath
  import opened UrlQuery
  import opened Url
  import opened UrlRoundTrip
  import opened UrlCanonical

  datatype HttpUrl = HttpUrl(scheme: string, host: string, port: int, fragment: string, url: string)

  /** What the constructor leaves when the parser refuses the text. */
  function EmptyUrl(): HttpUrl {
    HttpUrl("", "", -1, "", "")
  }

  ghost function Init(b: Builder): HttpUrl {
    HttpUrl(b.scheme, b.host, b.port, b.fragment, Printed(b))
  }

  /** `s.find_first_of(c, pos)`. */
  function FindFrom(s: string, c: char, pos: nat): (i: int)
    ensures -1 <= i < |s| && (i == -1 || pos <= i)
  {
    if pos > |s| || Find(s[pos..], c) == -1 then -1 else pos + Find(s[pos..], c)
  }

  /** None stands for std::out_of_range, thrown when no slash follows "://". */
  function EncodedPath(u: HttpUrl): Option<string> {
    var pathStart := FindFrom(u.url, '/', |u.scheme| + 3);
    if pathStart == -1 then None else Some(HostPathOf(u.url, pathStart))
  }

  function EncodedQuery(u: HttpUrl): string {
    QueryOf(u.url)
  }

  /** Host and port as `SetUrl` prints them. */
  function HostAndPort(u: HttpUrl): string {
    u.host + ":" + DecInt(u.port)
  }

  /** The request target: the canonical URL without scheme, "://", host and port.  None stands for
      std::out_of_range. */
  function Target(u: HttpUrl): Option<string> {
    var start := |u.scheme| + 3 + |HostAndPort(u)|;
    if start > |u.url| then None else Some(u.url[start..])
  }

  /** `HttpUrl(text)`; None stands for std::out_of_range thrown by the parser. */
  ghost function Constructed(text: string): Option<HttpUrl> {
    var r := Parse(Cleared(), text);
    match r.outcome
    case Thrown => None
    case Refused => Some(EmptyUrl())
    case Accepted => Some(Init(r.builder))
  }

  /** The target `SetUrl` computes for a text. */
  ghost function SetUrl(text: string): Option<string> {
    var u := Constructed(text);
    if u == None then None else Target(u.value)
  }

  // ----- the target -----

  /** Path, query and fragment of the canonical text. */
  ghost function Rest(b: Builder): string {
    Render(b.segments) + QueryPart(b) + FragmentText(b)
  }

  lemma CanonicalSplits(b: Builder)
    ensures CanonicalText(b) == Origin(b) + Rest(b)
  {
  }

  lemma {:induction false} DecLength(n: nat)
    ensures |Dec(n)| >= 1 && (n >= 10 ==> |Dec(n)| >= 2) && (n >= 100 ==> |Dec(n)| >= 3)
    ensures n < 10 ==> |Dec(n)| == 1
    ensures 10 <= n < 100 ==> |Dec(n)| == 2
    ensures 100 <= n < 1000 ==> |Dec(n)| == 3
  {
    if n >= 10 { DecLength(n / 10); }
  }

  function PrintedHostPort(b: Builder): string {
    HostText(b.host) + ":" + DecInt(PrintedPort(b))
  }

  /** How many characters the printed host and port have more than `SetUrl` counts. */
  lemma HostPortLength(b: Builder)
    ensures |PrintedHostPort(b)| == |b.host + ":" + DecInt(b.port)|
      + (if ':' in b.host then 2 else 0) + (if b.port == -1 && b.scheme == "https" then 1 else 0)
  {
    DecLength(1);
    DecLength(80);
    DecLength(443);
  }

  lemma OriginParts(b: Builder)
    ensures Origin(b) == (b.scheme + "://") + PrintedHostPort(b)
  {
  }

  lemma Behind(front: string, rest: string, start: nat)
    requires start <= |front|
    ensures (front + rest)[start..] == rest <==> start == |front|
    ensures start == |front| ==> (front + rest)[..start] == front
  {
    assert |(front + rest)[start..]| == |front| - start + |rest|;
  }

  /** The target is exactly path, query and fragment if and only if the host has no colon, and the port
      is set or the scheme is not https: "-1" and "80" have the same length, "443" has not. */
  lemma TargetIff(b: Builder)
    requires Solid(b.query)
    ensures Target(Init(b)) == Some(Rest(b)) <==> ':' !in b.host && (b.port != -1 || b.scheme != "https")
  {
    PrintsCanonicalText(b);
    CanonicalSplits(b);
    OriginParts(b);
    HostPortLength(b);
    Behind(Origin(b), Rest(b), |b.scheme| + 3 + |HostAndPort(Init(b))|);
  }

  lemma DefaultHttpsPort(b: Builder)
    requires b.port == -1 && b.scheme == "https"
    ensures Origin(b)[|Origin(b)| - 1] == '3'
  {
    assert Dec(443) == Dec(44) + ['3'];
  }

  /** With https and an unset port the target starts one character early, with the last digit of 443. */
  lemma UnsetHttpsPort(b: Builder)
    requires Solid(b.query) && ':' !in b.host && b.port == -1 && b.scheme == "https"
    ensures Target(Init(b)) == Some("3" + Rest(b))
  {
    PrintsCanonicalText(b);
    CanonicalSplits(b);
    OriginParts(b);
    HostPortLength(b);
    DefaultHttpsPort(b);
    var n := |Origin(b)|;
    assert (Origin(b) + Rest(b))[n - 1..] == [Origin(b)[n - 1]] + Rest(b);
  }

  /** Scheme, "://", host and port before the target give the canonical URL back. */
  ghost predicate TargetCompletes(u: HttpUrl) {
    Target(u).Some? && u.scheme + "://" + HostAndPort(u) + Target(u).value == u.url
  }

  lemma CompletesIff(front: string, rest: string, n: nat, other: string)
    requires n == |other| <= |front|
    ensures other + (front + rest)[n..] == front + rest <==> other == front[..n]
  {
    var url := front + rest;
    assert url == url[..n] + url[n..] && url[..n] == front[..n];
    if other + url[n..] == url {
      assert other == (other + url[n..])[..n];
    }
  }

  lemma SamePrefix(a: string, x: string, y: string)
    requires |x| <= |y|
    ensures a + x == (a + y)[..|a| + |x|] <==> x == y[..|x|]
  {
    if a + x == (a + y)[..|a| + |x|] {
      assert x == (a + x)[|a|..] == (a + y)[..|a| + |x|][|a|..] == y[..|x|];
    } else {
      assert (a + y)[..|a| + |x|] == a + y[..|x|];
    }
  }

  lemma BracketsDiffer(host: string, x: string, y: string)
    requires ':' in host
    ensures !(host + ":" + x <= "[" + host + y)
  {
    var i := Find(host, ':');
    FindFirst(host, ':');
    assert i > 0 ==> host[..i][i - 1] == host[i - 1];
    assert (host + ":" + x)[i] == ':';
    assert ("[" + host + y)[i] == if i == 0 then '[' else host[i - 1];
  }

  lemma PortPrefix(b: Builder)
    ensures DecInt(b.port) <= DecInt(PrintedPort(b)) <==> b.port != -1 || DefaultPort(b.scheme) == -1
  {
    if b.port == -1 {
      assert DecInt(-1)[0] == '-' && IsDigit(Dec(80)[0]) && IsDigit(Dec(443)[0]);
    }
  }

  lemma HostPortPrefix(b: Builder)
    ensures b.host + ":" + DecInt(b.port) <= PrintedHostPort(b)
      <==> ':' !in b.host && (b.port != -1 || DefaultPort(b.scheme) == -1)
  {
    var x, y := DecInt(b.port), DecInt(PrintedPort(b));
    if ':' in b.host {
      BracketsDiffer(b.host, x, "]" + ":" + y);
      assert PrintedHostPort(b) == "[" + b.host + ("]" + ":" + y);
    } else {
      HostPortLength(b);
      PortPrefix(b);
      SamePrefix(b.host + ":", x, y);
    }
  }

  lemma CompletesIfPrefix(u: HttpUrl, a: string, x: string, y: string, rest: string)
    requires u.url == (a + y) + rest && u.scheme + "://" == a && HostAndPort(u) == x && |x| <= |y|
    ensures TargetCompletes(u) <==> x <= y
  {
    CompletesIff(a + y, rest, |a + x|, a + x);
    SamePrefix(a, x, y);
  }

  lemma TargetCompletesIff(b: Builder)
    requires Solid(b.query)
    ensures TargetCompletes(Init(b)) <==> ':' !in b.host && (b.port != -1 || DefaultPort(b.scheme) == -1)
  {
    PrintsCanonicalText(b);
    CanonicalSplits(b);
    OriginParts(b);
    HostPortLength(b);
    CompletesIfPrefix(Init(b), b.scheme + "://", b.host + ":" + DecInt(b.port), PrintedHostPort(b), Rest(b));
    HostPortPrefix(b);
  }

  // ----- the accessors -----

  lemma FirstSlash(url: string, front: string, authority: string, rest: string)
    requires url == front + (authority + rest) && '/' !in authority
    ensures FindFrom(url, '/', |front|) == if '/' in rest then |front| + |authority| + Find(rest, '/') else -1
  {
    assert url[|front|..] == authority + rest;
    FindSkips(authority, rest, '/');
  }

  lemma BeyondPath(url: string, start: nat)
    requires PathEnd(url) < start < |url|
    ensures HostPathOf(url, start) == url[start..]
  {
  }

  lemma Rear(a: string, b: string, c: string, k: nat)
    requires k <= |c|
    ensures (a + (b + c))[|a| + |b| + k..] == c[k..]
  {
  }

  /** What is left of a text from its first slash on, if there is one. */
  function FromSlash(s: string): Option<string> {
    if '/' in s then Some(s[Find(s, '/')..]) else None
  }

  lemma Middle(a: string, b: string, c: string, d: string)
    ensures (a + (b + (c + d)))[|a| + |b|..|a| + |b| + |c|] == c
  {
  }

  lemma SlashAhead(url: string, front: string, authority: string, path: string, tail: string)
    requires url == front + (authority + (path + tail)) && '/' !in authority && path != "" && path[0] == '/'
    ensures FindFrom(url, '/', |front|) == |front| + |authority|
  {
    FirstSlash(url, front, authority, path + tail);
    assert (path + tail)[0] == '/';
  }

  lemma PathBetween(url: string, front: string, authority: string, path: string, tail: string)
    requires url == front + (authority + (path + tail)) && PathEnd(url) == |front| + |authority| + |path|
    ensures HostPathOf(url, |front| + |authority|) == path
  {
    Middle(front, authority, path, tail);
    HostPathCut(url, |front| + |authority|, path);
  }

  lemma PathFound(u: HttpUrl, front: string, authority: string, path: string, tail: string)
    requires |front| == |u.scheme| + 3 && '/' !in authority && path != "" && path[0] == '/'
    requires u.url == front + (authority + (path + tail)) && PathEnd(u.url) == |front| + |authority| + |path|
    ensures EncodedPath(u) == Some(path)
  {
    SlashAhead(u.url, front, authority, path, tail);
    PathBetween(u.url, front, authority, path, tail);
  }

  lemma PathMissing(u: HttpUrl, front: string, authority: string, tail: string)
    requires |front| == |u.scheme| + 3 && '/' !in authority && (tail == "" || tail[0] != '/')
    requires u.url == front + (authority + tail) && PathEnd(u.url) == |front| + |authority|
    ensures EncodedPath(u) == FromSlash(tail)
  {
    FirstSlash(u.url, front, authority, tail);
    if '/' in tail {
      SlashNotFirst(tail);
      BeyondPath(u.url, |front| + |authority| + Find(tail, '/'));
      Rear(front, authority, tail, Find(tail, '/'));
    }
  }

  lemma SlashNotFirst(tail: string)
    requires '/' in tail && tail[0] != '/'
    ensures Find(tail, '/') > 0
  {
    FindFirst(tail, '/');
  }

  lemma Nest(a: string, b: string, c: string, d: string)
    ensures (a + (b + c)) + d == a + (b + (c + d))
    ensures c == "" ==> (a + (b + c)) + d == a + (b + d)
  {
  }

  lemma ComposedPath(u: HttpUrl, p: Parts)
    requires '/' !in Authority(p) && PathEnd(Compose(p)) == |p.scheme| + 3 + |HostPath(p)|
    requires u.scheme == p.scheme && u.url == Compose(p)
    ensures p.path.Some? ==> EncodedPath(u) == Some("/" + p.path.value)
    ensures p.path.None? ==> EncodedPath(u) == FromSlash(Tail(p))
  {
    var front := p.scheme + "://";
    if p.path.Some? {
      Nest(front, Authority(p), "/" + p.path.value, Tail(p));
      PathFound(u, front, Authority(p), "/" + p.path.value, Tail(p));
    } else {
      Nest(front, Authority(p), "", Tail(p));
      PathMissing(u, front, Authority(p), Tail(p));
    }
  }

  lemma CanonicalPieces(b: Builder)
    requires PrintableUrl(b)
    ensures '/' !in Authority(PartsOf(b))
  {
    PrintedPieces(b);
  }

  lemma CanonicalPathEnd(b: Builder)
    requires PrintableUrl(b)
    ensures PathEnd(Compose(PartsOf(b))) == |b.scheme| + 3 + |HostPath(PartsOf(b))|
  {
    CanonicalIsWellFormed(b);
    TailStage(PartsOf(b));
  }

  /** `EncodedPath` is the printed path exactly when there is a segment.  Without one it returns the
      query and fragment from their first slash on, and throws if they have none. */
  lemma EncodedPathIff(b: Builder)
    requires PrintableUrl(b)
    ensures EncodedPath(Init(b)) == Some(Render(b.segments)) <==> b.segments != []
    ensures b.segments == [] ==> EncodedPath(Init(b)) == FromSlash(QueryPart(b) + FragmentText(b))
  {
    PrintsCanonicalText(b);
    CanonicalIsComposed(b);
    CanonicalPieces(b);
    CanonicalPathEnd(b);
    ComposedPath(Init(b), PartsOf(b));
    if b.segments != [] { RenderIsJoin(b.segments); }
  }

  lemma EncodedQueryIsPrinted(b: Builder)
    requires PrintableUrl(b)
    ensures EncodedQuery(Init(b)) == if b.query == map[] then "" else QueryText(b.query)
  {
    PrintsCanonicalText(b);
    CanonicalIsComposed(b);
    CanonicalIsWellFormed(b);
    TailStage(PartsOf(b));
  }

  /** A path followed by what the accessors give for the query and the fragment. */
  ghost function Reassembled(b: Builder, path: string): string {
    path
    + (if b.query == map[] then "" else "?" + EncodedQuery(Init(b)))
    + (if b.fragment == "" then "" else "#" + Init(b).fragment)
  }

  /** The request target of a well-formed, blank-free URL text with a segment and a port: encoded path,
      encoded query and fragment; and it completes scheme, host and port to the canonical URL. */
  lemma SetUrlTarget(p: Parts)
    requires WellFormed(p) && BlankFree(Compose(p))
    requires Meaning(p).query == map[] ==> '?' !in Meaning(p).fragment
    requires Meaning(p).segments != [] && Meaning(p).port != -1
    ensures var u := Init(Meaning(p));
      && EncodedPath(u).Some?
      && SetUrl(Compose(p)) == Some(Reassembled(Meaning(p), EncodedPath(u).value))
      && u.scheme + "://" + HostAndPort(u) + SetUrl(Compose(p)).value == CanonicalText(Meaning(p))
  {
    var b := Meaning(p);
    ParseWellFormed(Cleared(), p);
    MeaningIsPrintable(p);
    TargetIff(b);
    EncodedPathIff(b);
    EncodedQueryIsPrinted(b);
    TargetCompletesIff(b);
    PrintsCanonicalText(b);
  }

  /** For every well-formed text, with or without a path: the target is path, query and fragment of the
      canonical URL unless an https URL carries the port text of -1. */
  lemma SetUrlIff(p: Parts)
    requires WellFormed(p)
    ensures SetUrl(Compose(p)) == Some(Rest(Meaning(p)))
      <==> Meaning(p).port != -1 || Meaning(p).scheme != "https"
  {
    ParseWellFormed(Cleared(), p);
    AddTokensSolid(map[], Split(if p.query.Some? then p.query.value else "", '&'));
    TargetIff(Meaning(p));
  }

  /** A refused text makes `SetUrl` throw. */
  lemma RefusedTextThrows(text: string)
    requires Parse(Cleared(), text).outcome != Accepted
    ensures SetUrl(text) == None
  {
    DecLength(1);
  }
}
