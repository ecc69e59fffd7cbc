/** The URL builder of messenger/http_url.cc: its parser and its printer. */
module Url {
  import opened Text
  import opened UrlPath
  import opened UrlQuery

  datatype Builder = Builder(
    scheme: string, host: string, port: int, segments: seq<string>, query: Query, fragment: string)

  /** `Parse` returns true, returns false, or throws std::out_of_range from substr. */
  datatype Outcome = Accepted | Refused | Thrown

  datatype Result = Result(outcome: Outcome, builder: Builder)

  function Cleared(): Builder {
    Builder("", "", -1, [], map[], "")
  }

  function DefaultPort(scheme: string): int {
    if scheme == "http" then 80 else if scheme == "https" then 443 else -1
  }

  // ----- parsing -----

  /** Everything before the first ':', or the whole text if there is none. */
  function SchemeOf(url: string): string {
    Lower(Substr(url, 0, Find(url, ':')))
  }

  /** The first '?', else the first '#', else the end. */
  function PathEnd(url: string): (end: nat)
    ensures end <= |url|
  {
    if Find(url, '?') != -1 then Find(url, '?')
    else if Find(url, '#') != -1 then Find(url, '#')
    else |url|
  }

  function HostPathOf(url: string, start: nat): string
    requires start <= |url|
  {
    Substr(url, start, PathEnd(url) - start)
  }

  function HostOf(hostPath: string): string {
    var portStart, pathStart := Find(hostPath, ':'), Find(hostPath, '/');
    if portStart != -1 then Substr(hostPath, 0, portStart)
    else if pathStart != -1 then Substr(hostPath, 0, pathStart)
    else hostPath
  }

  /** The text between ':' and '/', or nothing. */
  function PortDigits(hostPath: string): string {
    var portStart, portEnd := Find(hostPath, ':'), Find(hostPath, '/');
    if portStart == -1 then ""
    else Substr(hostPath, portStart + 1, if portEnd == -1 then -1 else portEnd - (portStart + 1))
  }

  function PortValue(digits: string, scheme: string): int {
    if digits != "" then Atoi(digits) else DefaultPort(scheme)
  }

  /** From behind the first '/'; without one, npos + 1 is 0 and the whole text counts as path. */
  function PathOf(hostPath: string): string {
    Substr(hostPath, Find(hostPath, '/') + 1, -1)
  }

  function QueryOf(url: string): string {
    var queryStart, fragmentStart := Find(url, '?'), Find(url, '#');
    if queryStart == -1 then ""
    else Substr(url, queryStart + 1, if fragmentStart == -1 then -1 else fragmentStart - (queryStart + 1))
  }

  function FragmentOf(url: string): string {
    if Find(url, '#') == -1 then "" else Substr(url, Find(url, '#') + 1, -1)
  }

  /** The fields read from the text between "://" and the path's end, and from the query and fragment texts. */
  function Fields(scheme: string, hostPath: string, query: string, fragment: string): Builder {
    Builder(scheme, HostOf(hostPath), PortValue(PortDigits(hostPath), scheme), AddPath([], PathOf(hostPath)),
            ParseQuery(query), fragment)
  }

  function ParseTrimmed(url: string): Result {
    var scheme := SchemeOf(url);
    if scheme != "http" && scheme != "https" then Result(Refused, Cleared())
    else
      var b := Cleared().(scheme := scheme);
      var pathStart := |scheme| + 3;
      if pathStart > |url| then Result(Thrown, b)
      else
        var hostPath := HostPathOf(url, pathStart);
        if hostPath == "" then Result(Refused, b)
        else Result(Accepted, Fields(scheme, hostPath, QueryOf(url), FragmentOf(url)))
  }

  /** A text of at most seven characters is refused before anything is cleared. */
  function Parse(b: Builder, text: string): Result {
    if |text| <= 7 then Result(Refused, b) else ParseTrimmed(Trim(text))
  }

  /** Texts of at most seven characters, such as "http://", are refused and leave the builder alone. */
  lemma ShortTextRefused(b: Builder, text: string)
    requires |text| <= 7
    ensures Parse(b, text) == Result(Refused, b)
  {
  }

  /** A refused or throwing text leaves nothing of the old builder, and no host. */
  lemma LongTextForgets(b: Builder, b': Builder, text: string)
    requires |text| > 7
    ensures Parse(b, text) == Parse(b', text)
    ensures Parse(b, text).outcome != Accepted ==> Parse(b, text).builder.host == ""
  {
  }

  // ----- printing -----

  function HostText(host: string): string {
    if ':' in host then "[" + host + "]" else host
  }

  function PrintedPort(b: Builder): int {
    if b.port == -1 then DefaultPort(b.scheme) else b.port
  }

  function FragmentText(b: Builder): string {
    if b.fragment == "" then "" else "#" + b.fragment
  }

  /** Scheme, host and port. */
  function Origin(b: Builder): string {
    b.scheme + "://" + HostText(b.host) + ":" + DecInt(PrintedPort(b))
  }

  /** What `ToString` prints, loop by loop. */
  ghost function Printed(b: Builder): string {
    Origin(b) + Render(b.segments)
    + (if b.query == map[] then "" else "?" + PrintEntries(Entries(b.query), 0, |b.query|))
    + FragmentText(b)
  }

  ghost function QueryPart(b: Builder): string {
    if b.query == map[] then "" else "?" + QueryText(b.query)
  }

  /** The canonical URL. */
  ghost function CanonicalText(b: Builder): string {
    Origin(b) + Render(b.segments) + QueryPart(b) + FragmentText(b)
  }

  lemma PrintsCanonicalText(b: Builder)
    requires Solid(b.query)
    ensures Printed(b) == CanonicalText(b)
  {
    PrintsQueryText(b.query);
  }

  // ----- builder calls -----

  datatype Call =
    | SetScheme(scheme: string)
    | SetPort(port: int)
    | AddSegment(segment: string)
    | AddSegments(path: string)
    | SetSegment(index: int, segment: string)
    | RemoveSegment(index: int)
    | AddQuery(name: string, value: string)
    | RemoveQueryValue(name: string, value: string)
    | RemoveQueryName(name: string)
    | AddFragment(fragment: string)
    | ParseUrl(text: string)

  function Apply(b: Builder, c: Call): Builder {
    match c
    case SetScheme(s) => b.(scheme := if s == "https" then "https" else "http")
    case SetPort(p) => b.(port := if 0 < p <= 65535 then p else -1)
    case AddSegment(s) => b.(segments := Push(b.segments, s))
    case AddSegments(p) => b.(segments := AddPath(b.segments, p))
    case SetSegment(i, s) =>
      if Normal(s) && 0 <= i < |b.segments| then b.(segments := b.segments[i := s]) else b
    case RemoveSegment(i) =>
      if 0 <= i < |b.segments| then b.(segments := b.segments[..i] + b.segments[i + 1..]) else b
    case AddQuery(n, v) => b.(query := AddParam(b.query, Param(n, v)))
    case RemoveQueryValue(n, v) => b.(query := RemoveValue(b.query, n, v))
    case RemoveQueryName(n) => b.(query := RemoveName(b.query, n))
    case AddFragment(f) => if f == "" then b else b.(fragment := f)
    case ParseUrl(t) => Parse(b, t).builder
  }

  /** Overwriting: exactly the segment at a valid index, and only with an ordinary segment. */
  lemma SetSegmentMeans(b: Builder, i: int, s: string, k: nat)
    requires k < |b.segments|
    ensures var b' := Apply(b, SetSegment(i, s));
      && |b'.segments| == |b.segments|
      && b'.segments[k] == (if k == i && s != "" && s != "." && s != ".." then s else b.segments[k])
      && b' == b.(segments := b'.segments)
  {
  }

  /** Removal: the segments before the index stay, those behind it move up by one. */
  lemma RemoveSegmentMeans(b: Builder, i: int, k: nat)
    ensures var b' := Apply(b, RemoveSegment(i));
      && |b'.segments| == |b.segments| - (if 0 <= i < |b.segments| then 1 else 0)
      && (k < |b'.segments| ==> b'.segments[k] == b.segments[if 0 <= i <= k && i < |b.segments| then k + 1 else k])
      && b' == b.(segments := b'.segments)
  {
  }

  /** The schemes, ports and fragments that can be set, and that nothing else changes. */
  lemma SettersMean(b: Builder, scheme: string, port: int, fragment: string)
    ensures Apply(b, SetScheme("https")) == Builder("https", b.host, b.port, b.segments, b.query, b.fragment)
    ensures scheme != "https" ==>
      Apply(b, SetScheme(scheme)) == Builder("http", b.host, b.port, b.segments, b.query, b.fragment)
    ensures 1 <= port <= 65535 ==>
      Apply(b, SetPort(port)) == Builder(b.scheme, b.host, port, b.segments, b.query, b.fragment)
    ensures port < 1 || port > 65535 ==>
      Apply(b, SetPort(port)) == Builder(b.scheme, b.host, -1, b.segments, b.query, b.fragment)
    ensures fragment != "" ==>
      Apply(b, AddFragment(fragment)) == Builder(b.scheme, b.host, b.port, b.segments, b.query, fragment)
    ensures Apply(b, AddFragment("")) == b
  {
  }

  /** Adding a segment appends it if it is an ordinary one, drops the last one for "..", and does nothing
      else; adding a path goes on from the segments that are there as remove_dot_segments would. */
  lemma AddSegmentMeans(b: Builder, s: string)
    ensures var b' := Apply(b, AddSegment(s));
      && b' == b.(segments := b'.segments)
      && (s != "" && s != "." && s != ".." ==> b'.segments == b.segments + [s])
      && (s == "" || s == "." || (s == ".." && b.segments == []) ==> b'.segments == b.segments)
      && (s == ".." && b.segments != [] ==> b.segments == b'.segments + [b.segments[|b.segments| - 1]])
  {
  }

  lemma AddSegmentsMeans(b: Builder, p: string)
    requires AllNormal(b.segments) && SlashFree(b.segments)
    ensures var b' := Apply(b, AddSegments(p));
      b' == b.(segments := b'.segments) && b'.segments == RfcSegments(b.segments + NonEmpty(Split(p, '/')))
  {
    AddPathLikeRfc3986(b.segments, p);
  }

  lemma QueryCallsMean(b: Builder, n: string, v: string, x: Param)
    ensures var b' := Apply(b, AddQuery(n, v));
      b' == b.(query := b'.query) && (Has(b'.query, x) <==> Has(b.query, x) || (n != "" && x == Param(n, v)))
    ensures var b' := Apply(b, RemoveQueryValue(n, v));
      b' == b.(query := b'.query) && (Has(b'.query, x) <==> Has(b.query, x) && (n == "" || x != Param(n, v)))
    ensures var b' := Apply(b, RemoveQueryName(n));
      b' == b.(query := b'.query) && (Has(b'.query, x) <==> Has(b.query, x) && (n == "" || x.name != n))
  {
    AddParamMeans(b.query, Param(n, v), x);
    RemoveValueMeans(b.query, n, v, x);
    RemoveNameMeans(b.query, n, x);
  }

  function ApplyAll(b: Builder, calls: seq<Call>): Builder {
    if calls == [] then b else Apply(ApplyAll(b, calls[..|calls| - 1]), calls[|calls| - 1])
  }

  /** What every builder keeps. */
  predicate Sound(b: Builder) {
    AllNormal(b.segments) && Solid(b.query)
  }

  lemma ParseKeeps(b: Builder, text: string)
    requires Sound(b)
    ensures Sound(Parse(b, text).builder)
  {
    if |text| > 7 {
      var url := Trim(text);
      if ParseTrimmed(url).outcome == Accepted {
        var hostPath := HostPathOf(url, |SchemeOf(url)| + 3);
        PushAllNormal([], Split(PathOf(hostPath), '/'));
        AddTokensSolid(map[], Split(QueryOf(url), '&'));
      }
    }
  }

  lemma RemoveSegmentKeeps(segments: seq<string>, i: nat)
    requires AllNormal(segments) && i < |segments|
    ensures AllNormal(segments[..i] + segments[i + 1..])
  {
  }

  lemma CallKeeps(b: Builder, c: Call)
    requires Sound(b)
    ensures Sound(Apply(b, c))
  {
    match c
    case AddSegments(p) => PushAllNormal(b.segments, Split(p, '/'));
    case RemoveSegment(i) => if 0 <= i < |b.segments| { RemoveSegmentKeeps(b.segments, i); }
    case AddQuery(n, v) => AddParamSolid(b.query, Param(n, v));
    case ParseUrl(t) => ParseKeeps(b, t);
    case _ =>
  }

  lemma {:induction false} CallsKeepSound(calls: seq<Call>)
    ensures Sound(ApplyAll(Cleared(), calls))
  {
    if calls != [] {
      CallsKeepSound(calls[..|calls| - 1]);
      CallKeeps(ApplyAll(Cleared(), calls[..|calls| - 1]), calls[|calls| - 1]);
    }
  }

  /** No sequence of builder calls ever stores an empty, "." or ".." segment, an empty name, or a name
      without values.  So the printer never meets an empty value set, and what it prints is the
      canonical text. */
  lemma EveryBuilderPrintsCanonically(calls: seq<Call>)
    ensures var b := ApplyAll(Cleared(), calls);
      && (forall i :: 0 <= i < |b.segments| ==> b.segments[i] != "" && b.segments[i] != "." && b.segments[i] != "..")
      && (forall n :: n in b.query ==> n != "" && b.query[n] != {})
      && Printed(b) == CanonicalText(b)
  {
    CallsKeepSound(calls);
    PrintsCanonicalText(ApplyAll(Cleared(), calls));
  }
}
