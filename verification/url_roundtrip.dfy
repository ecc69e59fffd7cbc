/** What the parser makes of a text, piece by piece.  */
module UrlRoundTrip {
  import opened Wrappers
  import opened Text
  import opened UrlPath
  import opened UrlQuery
  import opened Url

  /** The pieces of `scheme://host[:port][/path][?query][#fragment]`. */
  datatype Parts = Parts(
    scheme: string, host: string, port: Option<string>, path: Option<string>,
    query: Option<string>, fragment: Option<string>)

  function Optional(mark: string, piece: Option<string>): string {
    if piece.Some? then mark + piece.value else ""
  }

  function Authority(p: Parts): string {
    p.host + Optional(":", p.port)
  }

  function HostPath(p: Parts): string {
    Authority(p) + Optional("/", p.path)
  }

  function Tail(p: Parts): string {
    Optional("?", p.query) + Optional("#", p.fragment)
  }

  function Compose(p: Parts): string {
    (p.scheme + "://" + HostPath(p)) + Tail(p)
  }

  predicate FreeOf(s: string, marks: string) {
    forall c :: c in marks ==> c !in s
  }

  /** Each piece is free of the characters that would end it, and without a query the fragment has no '?'. */
  predicate Shaped(p: Parts) {
    && (Lower(p.scheme) == "http" || Lower(p.scheme) == "https")
    && FreeOf(p.host, ":/?#")
    && (p.port.Some? ==> FreeOf(p.port.value, "/?#"))
    && (p.path.Some? ==> FreeOf(p.path.value, "?#"))
    && HostPath(p) != ""
    && (p.query.Some? ==> '#' !in p.query.value)
    && (p.query.None? && p.fragment.Some? ==> '?' !in p.fragment.value)
  }

  predicate Delimited(p: Parts) {
    Shaped(p) && !IsBlank(Compose(p)[|Compose(p)| - 1])
  }

  /** Without a port the path must not contain ':', which would be taken for the start of a port. */
  predicate ColonFree(p: Parts) {
    p.path.Some? && p.port.None? ==> ':' !in p.path.value
  }

  predicate WellFormed(p: Parts) {
    Delimited(p) && ColonFree(p)
  }

  /** The builder a well-formed text stands for. */
  function Meaning(p: Parts): Builder {
    Builder(
      Lower(p.scheme),
      p.host,
      PortValue(DigitsOf(p), Lower(p.scheme)),
      AddPath([], PathTextOf(p)),
      ParseQuery(if p.query.Some? then p.query.value else ""),
      if p.fragment.Some? then p.fragment.value else "")
  }

  // ----- the parser's stages on a well-formed text -----

  lemma LowerKeeps(s: string, c: char)
    requires c !in Lower(s) && LowerChar(c) == c
    ensures c !in s
  {
    forall i | 0 <= i < |s| ensures s[i] != c {
      assert Lower(s)[i] in Lower(s);
    }
  }

  lemma SchemeChars(scheme: string)
    requires Lower(scheme) == "http" || Lower(scheme) == "https"
    ensures |scheme| >= 4 && ':' !in scheme && '?' !in scheme && '#' !in scheme && !IsBlank(scheme[0])
  {
    var low := Lower(scheme);
    LowerKeeps(scheme, ':');
    LowerKeeps(scheme, '?');
    LowerKeeps(scheme, '#');
    assert LowerChar(scheme[0]) == low[0] == 'h';
  }

  lemma SchemeStage(scheme: string, rest: string)
    requires ':' !in scheme
    ensures SchemeOf(scheme + "://" + rest) == Lower(scheme)
  {
    assert scheme + "://" + rest == scheme + [':'] + ("//" + rest);
    FindAt(scheme, ':', "//" + rest);
  }

  /** The first '?' and the first '#' of a text whose front has neither. */
  lemma Marks(a: string, query: Option<string>, fragment: Option<string>)
    requires '?' !in a && '#' !in a
    requires query.Some? ==> '#' !in query.value
    requires query.None? && fragment.Some? ==> '?' !in fragment.value
    ensures var q, f := Optional("?", query), Optional("#", fragment);
      && Find(a + (q + f), '?') == (if query.Some? then |a| else -1)
      && Find(a + (q + f), '#') == (if fragment.Some? then |a| + |q| else -1)
  {
    var q, f := Optional("?", query), Optional("#", fragment);
    FindSkips(a, q + f, '?');
    FindSkips(a, q + f, '#');
    assert '#' !in q;
    FindSkips(q, f, '#');
    assert fragment.Some? ==> f[0] == '#';
    if query.Some? {
      assert (q + f)[0] == '?';
    } else {
      assert '?' !in q + f;
    }
  }

  /** Slices of a text at its marks. */
  lemma Slices(a: string, q: string, f: string)
    ensures (a + (q + f))[|a|..|a| + |q|] == q
    ensures (a + (q + f))[|a| + |q|..] == f
    ensures q != "" ==> (a + (q + f))[|a| + 1..|a| + |q|] == q[1..]
    ensures f != "" ==> (a + (q + f))[|a| + |q| + 1..] == f[1..]
  {
  }

  /** `a` has neither '?' nor '#'; a query or a fragment may follow. */
  lemma EndStage(a: string, query: Option<string>, fragment: Option<string>)
    requires '?' !in a && '#' !in a
    requires query.Some? ==> '#' !in query.value
    requires query.None? && fragment.Some? ==> '?' !in fragment.value
    ensures var url := a + (Optional("?", query) + Optional("#", fragment));
      && PathEnd(url) == |a|
      && QueryOf(url) == (if query.Some? then query.value else "")
      && FragmentOf(url) == (if fragment.Some? then fragment.value else "")
  {
    var q, f := Optional("?", query), Optional("#", fragment);
    Marks(a, query, fragment);
    Slices(a, q, f);
    EndCut(a + (q + f));
    if query.Some? { assert q[1..] == query.value; }
    if fragment.Some? { assert f[1..] == fragment.value; }
  }

  lemma EndCut(url: string)
    requires '?' in url && '#' in url ==> Find(url, '?') < Find(url, '#')
    ensures PathEnd(url) == if '?' in url then Find(url, '?') else if '#' in url then Find(url, '#') else |url|
    ensures '?' in url ==> QueryOf(url) == url[Find(url, '?') + 1..if '#' in url then Find(url, '#') else |url|]
    ensures '?' !in url ==> QueryOf(url) == ""
    ensures FragmentOf(url) == if '#' in url then url[Find(url, '#') + 1..] else ""
  {
  }

  lemma PortCut(hostPath: string)
    requires ':' in hostPath && ('/' in hostPath ==> Find(hostPath, ':') < Find(hostPath, '/'))
    ensures HostOf(hostPath) == hostPath[..Find(hostPath, ':')]
    ensures PathOf(hostPath) == hostPath[Find(hostPath, '/') + 1..]
    ensures PortDigits(hostPath)
         == hostPath[Find(hostPath, ':') + 1..if '/' in hostPath then Find(hostPath, '/') else |hostPath|]
  {
  }

  lemma NoPortCut(hostPath: string)
    requires ':' !in hostPath
    ensures HostOf(hostPath) == hostPath[..if '/' in hostPath then Find(hostPath, '/') else |hostPath|]
    ensures PathOf(hostPath) == hostPath[Find(hostPath, '/') + 1..]
    ensures PortDigits(hostPath) == ""
  {
  }

  lemma PortMarks(hostPath: string, host: string, port: string, rest: string)
    requires ':' !in host && '/' !in host && '/' !in port && (rest == "" || rest[0] == '/')
    requires hostPath == host + [':'] + (port + rest)
    ensures Find(hostPath, ':') == |host|
    ensures Find(hostPath, '/') == if rest == "" then -1 else |host| + 1 + |port|
  {
    FindAt(host, ':', port + rest);
    assert hostPath == (host + [':'] + port) + rest;
    FindSkips(host + [':'] + port, rest, '/');
  }

  lemma PortSlices(hostPath: string, host: string, port: string, rest: string)
    requires hostPath == host + [':'] + (port + rest)
    ensures hostPath[..|host|] == host
    ensures hostPath[|host| + 1..|host| + 1 + |port|] == port
    ensures rest != "" ==> hostPath[|host| + 1 + |port| + 1..] == rest[1..]
  {
  }

  lemma AuthorityWithPort(hostPath: string, host: string, port: string, rest: string)
    requires ':' !in host && '/' !in host && '/' !in port && (rest == "" || rest[0] == '/')
    requires hostPath == host + [':'] + (port + rest)
    ensures HostOf(hostPath) == host
    ensures PathOf(hostPath) == if rest == "" then hostPath else rest[1..]
    ensures PortDigits(hostPath) == port
  {
    PortMarks(hostPath, host, port, rest);
    PortSlices(hostPath, host, port, rest);
    PortCut(hostPath);
  }

  lemma AuthorityWithoutPort(hostPath: string, host: string, rest: string)
    requires ':' !in host && '/' !in host && ':' !in rest && (rest == "" || rest[0] == '/')
    requires hostPath == host + rest
    ensures HostOf(hostPath) == host
    ensures PathOf(hostPath) == if rest == "" then hostPath else rest[1..]
    ensures PortDigits(hostPath) == ""
  {
    FindSkips(host, rest, '/');
    assert hostPath[..|host|] == host && (rest != "" ==> hostPath[|host| + 1..] == rest[1..]);
    NoPortCut(hostPath);
  }

  /** What the parser reads from the text between "://" and the path's end. */
  ghost predicate Reads(hostPath: string, host: string, digits: string, path: string) {
    HostOf(hostPath) == host && PortDigits(hostPath) == digits && PathOf(hostPath) == path
  }

  function DigitsOf(p: Parts): string {
    if p.port.Some? then p.port.value else ""
  }

  /** Without a slash behind the authority, the authority is also the path, because npos + 1 is 0. */
  function PathTextOf(p: Parts): string {
    if p.path.Some? then p.path.value else Authority(p)
  }

  lemma HostPathText(p: Parts)
    ensures p.port.Some? ==> HostPath(p) == p.host + [':'] + (p.port.value + Optional("/", p.path))
    ensures p.port.None? ==> HostPath(p) == p.host + Optional("/", p.path)
    ensures p.path.Some? ==> Optional("/", p.path) != "" && Optional("/", p.path)[1..] == p.path.value
    ensures p.path.None? ==> Optional("/", p.path) == "" && HostPath(p) == Authority(p)
  {
  }

  /** The authority and the path behind its slash. */
  lemma AuthorityStage(p: Parts, hostPath: string, rest: string)
    requires ':' !in p.host && '/' !in p.host && (p.port.Some? ==> '/' !in p.port.value)
    requires rest == "" || rest[0] == '/'
    requires p.port.Some? ==> hostPath == p.host + [':'] + (p.port.value + rest)
    requires p.port.None? ==> hostPath == p.host + rest && ':' !in rest
    ensures Reads(hostPath, p.host, DigitsOf(p), if rest == "" then hostPath else rest[1..])
  {
    if p.port.Some? {
      AuthorityWithPort(hostPath, p.host, p.port.value, rest);
    } else {
      AuthorityWithoutPort(hostPath, p.host, rest);
    }
  }

  lemma ReadsComposed(p: Parts)
    requires Shaped(p) && ColonFree(p)
    ensures Reads(HostPath(p), p.host, DigitsOf(p), PathTextOf(p))
  {
    HostPathText(p);
    AuthorityStage(p, HostPath(p), Optional("/", p.path));
  }

  // ----- parsing a well-formed text -----

  lemma ComposeChars(p: Parts)
    requires Shaped(p)
    ensures var front := p.scheme + "://" + HostPath(p);
      '?' !in front && '#' !in front && |Compose(p)| > 7 && !IsBlank(Compose(p)[0])
  {
    SchemeChars(p.scheme);
    assert FreeOf(Authority(p), "?#");
    assert Compose(p)[0] == p.scheme[0];
  }

  lemma FrontSlices(scheme: string, hostPath: string, tail: string)
    ensures var url := (scheme + "://" + hostPath) + tail;
      && url == scheme + "://" + (hostPath + tail)
      && url[|scheme| + 3..|scheme| + 3 + |hostPath|] == hostPath
  {
  }

  lemma HostPathCut(url: string, start: nat, hostPath: string)
    requires PathEnd(url) == start + |hostPath| && url[start..PathEnd(url)] == hostPath
    ensures HostPathOf(url, start) == hostPath
  {
  }

  lemma TrimmedCut(url: string, scheme: string, hostPath: string)
    requires SchemeOf(url) == scheme && (scheme == "http" || scheme == "https") && hostPath != ""
    requires |scheme| + 3 <= |url| && HostPathOf(url, |scheme| + 3) == hostPath
    ensures ParseTrimmed(url) == Result(Accepted, Fields(scheme, hostPath, QueryOf(url), FragmentOf(url)))
  {
  }

  lemma NothingToTrim(b: Builder, p: Parts)
    requires Delimited(p)
    ensures Parse(b, Compose(p)) == ParseTrimmed(Compose(p))
  {
    ComposeChars(p);
    TrimNothing(Compose(p));
  }

  lemma HostPathSlice(p: Parts)
    ensures Compose(p)[|p.scheme| + 3..|p.scheme| + 3 + |HostPath(p)|] == HostPath(p)
  {
    FrontSlices(p.scheme, HostPath(p), Tail(p));
  }

  lemma FrontStage(p: Parts)
    requires Shaped(p)
    ensures var url := Compose(p);
      && SchemeOf(url) == Lower(p.scheme)
      && |p.scheme| + 3 <= |url| && HostPathOf(url, |p.scheme| + 3) == HostPath(p)
  {
    SchemeChars(p.scheme);
    TailStage(p);
    HostPathSlice(p);
    HostPathCut(Compose(p), |p.scheme| + 3, HostPath(p));
    FrontSlices(p.scheme, HostPath(p), Tail(p));
    SchemeStage(p.scheme, HostPath(p) + Tail(p));
  }

  lemma TailStage(p: Parts)
    requires Shaped(p)
    ensures var url := Compose(p);
      && PathEnd(url) == |p.scheme| + 3 + |HostPath(p)|
      && QueryOf(url) == (if p.query.Some? then p.query.value else "")
      && FragmentOf(url) == (if p.fragment.Some? then p.fragment.value else "")
  {
    ComposeChars(p);
    EndStage(p.scheme + "://" + HostPath(p), p.query, p.fragment);
  }

  lemma FieldsMean(p: Parts, hostPath: string, query: string, fragment: string)
    requires Reads(hostPath, p.host, DigitsOf(p), PathTextOf(p))
    requires query == (if p.query.Some? then p.query.value else "")
    requires fragment == (if p.fragment.Some? then p.fragment.value else "")
    ensures Fields(Lower(p.scheme), hostPath, query, fragment) == Meaning(p)
  {
  }

  lemma ParseComposed(p: Parts)
    requires Shaped(p) && ColonFree(p)
    ensures ParseTrimmed(Compose(p)) == Result(Accepted, Meaning(p))
  {
    FrontStage(p);
    TailStage(p);
    TrimmedCut(Compose(p), Lower(p.scheme), HostPath(p));
    ReadsComposed(p);
    FieldsMean(p, HostPath(p), QueryOf(Compose(p)), FragmentOf(Compose(p)));
  }

  /** The parser on a well-formed text: it accepts it and reads off its pieces. */
  lemma ParseWellFormed(b: Builder, p: Parts)
    requires WellFormed(p)
    ensures Parse(b, Compose(p)) == Result(Accepted, Meaning(p))
  {
    NothingToTrim(b, p);
    ParseComposed(p);
  }

  /** The ports that are read: 443 for https and 80 for http without a port, else the number given. */
  lemma PortRead(b: Builder, p: Parts, n: int)
    requires WellFormed(p)
    ensures p.port == None || p.port == Some("") ==>
      Parse(b, Compose(p)).builder.port == if Lower(p.scheme) == "https" then 443 else 80
    ensures p.port == Some(DecInt(n)) ==> Parse(b, Compose(p)).builder.port == n
  {
    ParseWellFormed(b, p);
    AtoiOfDecInt(n);
  }

  // ----- padded texts -----

  /** Blanks behind a text belong to its last piece. */
  function Extended(p: Parts, blanks: string): Parts {
    if p.fragment.Some? then p.(fragment := Some(p.fragment.value + blanks))
    else if p.query.Some? then p.(query := Some(p.query.value + blanks))
    else if p.path.Some? then p.(path := Some(p.path.value + blanks))
    else if p.port.Some? then p.(port := Some(p.port.value + blanks))
    else p.(host := p.host + blanks)
  }

  lemma ExtendedHostPath(p: Parts, blanks: string)
    requires p.fragment.None? && p.query.None?
    ensures HostPath(Extended(p, blanks)) == HostPath(p) + blanks
  {
  }

  lemma ExtendedTail(p: Parts, blanks: string)
    requires p.fragment.Some? || p.query.Some?
    ensures HostPath(Extended(p, blanks)) == HostPath(p) && Tail(Extended(p, blanks)) == Tail(p) + blanks
  {
  }

  lemma Regroup(a: string, b: string, c: string)
    ensures (a + b) + c == a + (b + c)
  {
  }

  lemma ExtendedText(p: Parts, blanks: string)
    ensures Compose(Extended(p, blanks)) == Compose(p) + blanks
  {
    var front := p.scheme + "://";
    if p.fragment.None? && p.query.None? {
      ExtendedHostPath(p, blanks);
      Regroup(front, HostPath(p), blanks);
      assert Tail(p) == "" && Tail(Extended(p, blanks)) == "";
      assert Compose(p) == front + HostPath(p);
    } else {
      ExtendedTail(p, blanks);
      Regroup(front + HostPath(p), Tail(p), blanks);
    }
  }

  lemma BlanksDelimitNothing(blanks: string, marks: string)
    requires AllBlank(blanks) && forall i :: 0 <= i < |marks| ==> !IsBlank(marks[i])
    ensures FreeOf(blanks, marks)
  {
  }

  lemma ExtendedShaped(p: Parts, blanks: string)
    requires Shaped(p) && ColonFree(p) && AllBlank(blanks)
    ensures Shaped(Extended(p, blanks)) && ColonFree(Extended(p, blanks))
  {
    BlanksDelimitNothing(blanks, ":/?#");
    if p.fragment.None? && p.query.None? {
      ExtendedHostPath(p, blanks);
    } else {
      ExtendedTail(p, blanks);
    }
  }

  lemma BlankScheme(url: string)
    requires url != "" && IsBlank(url[0])
    ensures SchemeOf(url) != "http" && SchemeOf(url) != "https"
  {
    var name := Substr(url, 0, Find(url, ':'));
    if name != "" { assert SchemeOf(url)[0] == LowerChar(url[0]); }
  }

  lemma NothingExtended(p: Parts)
    ensures Extended(p, "") == p
  {
    assert p.fragment.Some? ==> p.fragment.value + "" == p.fragment.value;
    assert p.query.Some? ==> p.query.value + "" == p.query.value;
    assert p.path.Some? ==> p.path.value + "" == p.path.value;
    assert p.port.Some? ==> p.port.value + "" == p.port.value;
    assert p.host + "" == p.host;
  }

  lemma TrimmedTail(l: string, core: string, r: string)
    requires AllBlank(l) && AllBlank(r) && Ascending(l, 0)
    requires core != "" && !IsBlank(core[0]) && !IsBlank(core[|core| - 1])
    ensures Trim(l + core + r) == core + RightPasses(r, 0)
  {
    TrimPadded(l, core, r);
    LeftPassesIff(l, 0);
    assert "" + core == core;
  }

  lemma PaddedAccepted(b: Builder, l: string, p: Parts, r: string)
    requires WellFormed(p) && AllBlank(l) && AllBlank(r) && Ascending(l, 0)
    ensures Parse(b, l + Compose(p) + r) == Result(Accepted, Meaning(Extended(p, RightPasses(r, 0))))
  {
    var left := RightPasses(r, 0);
    ComposeChars(p);
    TrimmedTail(l, Compose(p), r);
    RightPassesIff(r, 0);
    ExtendedText(p, left);
    ExtendedShaped(p, left);
    ParseComposed(Extended(p, left));
  }

  lemma BlankStartRefused(b: Builder, text: string)
    requires |text| > 7 && Trim(text) != "" && IsBlank(Trim(text)[0])
    ensures Parse(b, text) == Result(Refused, Cleared())
  {
    BlankScheme(Trim(text));
  }

  lemma PaddedRefused(b: Builder, l: string, p: Parts, r: string)
    requires WellFormed(p) && AllBlank(l) && AllBlank(r) && !Ascending(l, 0)
    ensures Parse(b, l + Compose(p) + r) == Result(Refused, Cleared())
  {
    ComposeChars(p);
    TrimIff(l, Compose(p), r);
    BlankStartRefused(b, l + Compose(p) + r);
  }

  /** A well-formed text between blanks.  With the blanks in front in the order of the trimming passes it
      is accepted; the blanks behind it that the passes leave belong to its last piece, and none is left
      exactly if they come in the reverse order.  With the blanks in front in any other order the text is
      refused. */
  lemma ParsePadded(b: Builder, l: string, p: Parts, r: string)
    requires WellFormed(p) && AllBlank(l) && AllBlank(r)
    ensures Ascending(l, 0) ==>
      Parse(b, l + Compose(p) + r) == Result(Accepted, Meaning(Extended(p, RightPasses(r, 0))))
    ensures RightPasses(r, 0) == "" <==> Descending(r, 0)
    ensures Ascending(l, 0) && Descending(r, 0) ==>
      Parse(b, l + Compose(p) + r) == Result(Accepted, Meaning(p))
    ensures !Ascending(l, 0) ==> Parse(b, l + Compose(p) + r) == Result(Refused, Cleared())
  {
    RightPassesIff(r, 0);
    if Ascending(l, 0) {
      PaddedAccepted(b, l, p, r);
      NothingExtended(p);
    } else {
      PaddedRefused(b, l, p, r);
    }
  }

  lemma ColonCutsLater(hostPath: string, host: string, path: string)
    requires hostPath == host + ("/" + path) && ':' !in host && ':' in path
    ensures HostOf(hostPath) != host
  {
    FindSkips(host, "/" + path, ':');
    FindSkips("/", path, ':');
    assert |HostOf(hostPath)| == Find(hostPath, ':');
  }

  lemma ParseReadsHost(b: Builder, p: Parts)
    requires Delimited(p)
    ensures Parse(b, Compose(p)).outcome == Accepted
    ensures Parse(b, Compose(p)).builder.host == HostOf(HostPath(p))
  {
    NothingToTrim(b, p);
    FrontStage(p);
    TrimmedCut(Compose(p), Lower(p.scheme), HostPath(p));
  }

  /** Among the texts with delimited pieces, all of which are accepted, the host is read correctly
      exactly for the well-formed ones. */
  lemma HostReadIff(b: Builder, p: Parts)
    requires Delimited(p)
    ensures Parse(b, Compose(p)).outcome == Accepted
    ensures Parse(b, Compose(p)).builder.host == p.host <==> WellFormed(p)
  {
    ParseReadsHost(b, p);
    if WellFormed(p) {
      ReadsComposed(p);
    } else {
      HostPathText(p);
      ColonCutsLater(HostPath(p), p.host, p.path.value);
    }
  }
}
