/** Printing then parsing, and canonicalisation: both exactly as far as the code achieves them.  */
module UrlCanonical {
  import opened Wrappers
  import opened Text
  import opened UrlPath
  import opened UrlQuery
  import opened Url
  import opened UrlRoundTrip

  predicate AllFreeOf(pieces: seq<string>, marks: string) {
    forall i :: 0 <= i < |pieces| ==> FreeOf(pieces[i], marks)
  }

  ghost predicate EndsBlank(text: string) {
    text != "" && IsBlank(text[|text| - 1])
  }

  /** A builder whose pieces are free of the characters that delimit them. */
  ghost predicate PrintableUrl(b: Builder) {
    && (b.scheme == "http" || b.scheme == "https")
    && FreeOf(b.host, ":/?#")
    && AllNormal(b.segments) && AllFreeOf(b.segments, "/?#")
    && Printable(b.query)
    && (b.query == map[] ==> '?' !in b.fragment)
    && !EndsBlank(CanonicalText(b))
  }

  function PortText(b: Builder): string {
    DecInt(PrintedPort(b))
  }

  /** The pieces of the canonical text. */
  ghost function PartsOf(b: Builder): Parts {
    Parts(
      b.scheme, b.host, Some(PortText(b)),
      if b.segments == [] then None else Some(Join(b.segments, '/')),
      if b.query == map[] then None else Some(QueryText(b.query)),
      if b.fragment == "" then None else Some(b.fragment))
  }

  /** What comes back when the canonical text is parsed. */
  function Reparsed(b: Builder): Builder {
    b.(port := PrintedPort(b),
       segments := if b.segments == [] then [b.host + ":" + PortText(b)] else b.segments)
  }

  // ----- the canonical text is well formed -----

  lemma {:induction false} RenderIsJoin(segments: seq<string>)
    requires segments != []
    ensures Render(segments) == "/" + Join(segments, '/')
  {
    if |segments| == 1 {
      assert Render(segments[1..]) == "";
    } else {
      RenderIsJoin(segments[1..]);
    }
  }

  lemma SchemeIsLower(scheme: string)
    requires scheme == "http" || scheme == "https"
    ensures Lower(scheme) == scheme
  {
    assert forall i :: 0 <= i < |scheme| ==> LowerChar(scheme[i]) == scheme[i];
  }

  lemma QueryTextFree(q: Query, c: char)
    requires c != '&' && c != '=' && QueryFree(q, c)
    ensures c !in QueryText(q)
  {
    AllStored(q);
    TokensFree(q, Params(q), c);
    JoinFree(RenderAll(Params(q)), '&', c);
  }

  lemma CanonicalIsComposed(b: Builder)
    requires PrintableUrl(b)
    ensures CanonicalText(b) == Compose(PartsOf(b))
  {
    var p := PartsOf(b);
    assert HostText(b.host) == b.host;
    assert Render(b.segments) == Optional("/", p.path) by {
      if b.segments != [] { RenderIsJoin(b.segments); }
    }
    assert QueryPart(b) == Optional("?", p.query);
    assert FragmentText(b) == Optional("#", p.fragment);
    Regroup(b.scheme + "://", b.host, ":" + PortText(b), Render(b.segments), QueryPart(b), FragmentText(b));
    assert Origin(b) == b.scheme + "://" + b.host + (":" + PortText(b));
  }

  lemma Regroup(a: string, b: string, c: string, d: string, e: string, f: string)
    ensures (a + b + c) + d + e + f == (a + ((b + c) + d)) + (e + f)
  {
  }

  lemma PrintedPieces(b: Builder)
    requires PrintableUrl(b)
    ensures FreeOf(PortText(b), ":/?#")
    ensures FreeOf(Join(b.segments, '/'), "?#")
    ensures '#' !in QueryText(b.query)
  {
    JoinFree(b.segments, '/', '?');
    JoinFree(b.segments, '/', '#');
    QueryTextFree(b.query, '#');
  }

  lemma CanonicalIsWellFormed(b: Builder)
    requires PrintableUrl(b)
    ensures WellFormed(PartsOf(b))
  {
    SchemeIsLower(b.scheme);
    PrintedPieces(b);
    CanonicalIsComposed(b);
  }

  // ----- printing then parsing -----

  lemma ColonIsNormal(s: string, i: nat)
    requires i < |s| && s[i] == ':'
    ensures Normal(s)
  {
    assert s[i] != '.';
  }

  lemma OneSegment(s: string)
    requires Normal(s) && '/' !in s
    ensures AddPath([], s) == [s]
  {
    assert Split(s, '/') == [s];
    PushAllOfNormal([], [s]);
  }

  lemma WholeSegment(host: string, port: string)
    requires '/' !in host && '/' !in port
    ensures AddPath([], host + ":" + port) == [host + ":" + port]
  {
    ColonIsNormal(host + ":" + port, |host|);
    OneSegment(host + ":" + port);
  }

  lemma PathMeans(b: Builder)
    requires PrintableUrl(b)
    ensures Meaning(PartsOf(b)).segments == Reparsed(b).segments
  {
    if b.segments == [] {
      PrintedPieces(b);
      Bracket(b.host, ":", PortText(b));
      WholeSegment(b.host, PortText(b));
    } else {
      JoinedPath(b.segments);
    }
  }

  lemma Bracket(a: string, b: string, c: string)
    ensures a + (b + c) == a + b + c
  {
  }

  lemma JoinedPath(segments: seq<string>)
    requires segments != [] && AllNormal(segments) && AllFreeOf(segments, "/?#")
    ensures AddPath([], Join(segments, '/')) == segments
  {
    SplitOfJoin(segments, '/');
    PushAllOfNormal([], segments);
  }

  lemma QueryMeans(b: Builder)
    requires PrintableUrl(b)
    ensures Meaning(PartsOf(b)).query == b.query
  {
    if b.query == map[] {
      assert Split("", '&') == [""];
      assert AddTokens(map[], [""]) == AddTokens(map[], []);
    } else {
      QueryRoundTrip(b.query);
    }
  }

  /** For every printable builder, parsing the printed text is accepted and gives the builder back,
      except that an unset port becomes the default one, and that without segments the authority
      becomes the only segment. */
  lemma ReparseIsExact(x: Builder, b: Builder)
    requires PrintableUrl(b)
    ensures Parse(x, CanonicalText(b)) == Result(Accepted, Reparsed(b))
  {
    CanonicalIsComposed(b);
    CanonicalIsWellFormed(b);
    ParseWellFormed(x, PartsOf(b));
    SchemeIsLower(b.scheme);
    AtoiOfDecInt(PrintedPort(b));
    PathMeans(b);
    QueryMeans(b);
  }

  /** Print then parse is the identity exactly for the builders with a port and a segment. */
  lemma RoundTripIff(x: Builder, b: Builder)
    requires PrintableUrl(b)
    ensures Parse(x, Printed(b)) == Result(Accepted, b) <==> b.port != -1 && b.segments != []
  {
    PrintsCanonicalText(b);
    ReparseIsExact(x, b);
  }

  // ----- canonicalisation -----

  lemma TokenFree(token: string, c: char)
    requires c !in token
    ensures c !in ParseToken(token).name && c !in ParseToken(token).value
  {
  }

  lemma TokenName(token: string)
    ensures '=' !in ParseToken(token).name
  {
    TokenMeans(token);
  }

  lemma AddParamFree(q: Query, p: Param, c: char)
    requires QueryFree(q, c) && c !in p.name && c !in p.value
    ensures QueryFree(AddParam(q, p), c)
  {
  }

  lemma {:induction false} AddTokensFree(q: Query, tokens: seq<string>, c: char)
    requires QueryFree(q, c) && forall i :: 0 <= i < |tokens| ==> c !in tokens[i]
    ensures QueryFree(AddTokens(q, tokens), c)
    decreases |tokens|
  {
    if tokens != [] {
      var p := ParseToken(tokens[0]);
      TokenFree(tokens[0], c);
      AddParamFree(q, p, c);
      AddTokensFree(if tokens[0] == "" then q else AddParam(q, p), tokens[1..], c);
    }
  }

  lemma {:induction false} AddTokensNames(q: Query, tokens: seq<string>)
    requires forall n :: n in q ==> '=' !in n
    ensures forall n :: n in AddTokens(q, tokens) ==> '=' !in n
    decreases |tokens|
  {
    if tokens != [] {
      TokenName(tokens[0]);
      AddTokensNames(if tokens[0] == "" then q else AddParam(q, ParseToken(tokens[0])), tokens[1..]);
    }
  }

  lemma ParsedQueryFree(text: string, c: char)
    requires c !in text || c == '&'
    ensures QueryFree(ParseQuery(text), c)
  {
    if c != '&' { SplitFree(text, '&', c); }
    AddTokensFree(map[], Split(text, '&'), c);
  }

  lemma ParsedQueryPrintable(text: string)
    requires '#' !in text
    ensures Printable(ParseQuery(text))
  {
    AddTokensSolid(map[], Split(text, '&'));
    AddTokensNames(map[], Split(text, '&'));
    ParsedQueryFree(text, '&');
    ParsedQueryFree(text, '#');
  }

  lemma ParsedPathFree(path: string, c: char)
    requires c !in path || c == '/'
    ensures forall i :: 0 <= i < |AddPath([], path)| ==> c !in AddPath([], path)[i]
  {
    if c != '/' { SplitFree(path, '/', c); }
    PushAllFree([], Split(path, '/'), c);
  }

  lemma ParsedPathPrintable(path: string)
    requires FreeOf(path, "?#")
    ensures AllNormal(AddPath([], path)) && AllFreeOf(AddPath([], path), "/?#")
  {
    PushAllNormal([], Split(path, '/'));
    ParsedPathFree(path, '/');
    ParsedPathFree(path, '?');
    ParsedPathFree(path, '#');
  }

  predicate BlankFree(s: string) {
    forall i :: 0 <= i < |s| ==> !IsBlank(s[i])
  }

  lemma {:induction false} RenderFree(segments: seq<string>, c: char)
    requires c != '/' && forall i :: 0 <= i < |segments| ==> c !in segments[i]
    ensures c !in Render(segments)
  {
    if segments != [] { RenderFree(segments[1..], c); }
  }

  lemma OriginFree(b: Builder, c: char)
    requires IsBlank(c) && c !in b.scheme && c !in b.host
    ensures c !in Origin(b)
  {
    assert c !in PortText(b);
  }

  lemma CanonicalFree(b: Builder, c: char)
    requires IsBlank(c) && c !in b.scheme
    requires c !in b.host && c !in b.fragment && forall i :: 0 <= i < |b.segments| ==> c !in b.segments[i]
    requires QueryFree(b.query, c)
    ensures c !in CanonicalText(b)
  {
    RenderFree(b.segments, c);
    QueryTextFree(b.query, c);
    OriginFree(b, c);
    assert c !in QueryPart(b) && c !in FragmentText(b);
  }

  lemma PieceFree(p: Parts, c: char)
    requires c !in Compose(p)
    ensures c !in p.host && c !in Authority(p)
    ensures p.path.Some? ==> c !in p.path.value
    ensures p.query.Some? ==> c !in p.query.value
    ensures p.fragment.Some? ==> c !in p.fragment.value
  {
    assert c !in HostPath(p) && c !in Tail(p);
  }

  lemma MeaningBlankFree(p: Parts, c: char)
    requires WellFormed(p) && IsBlank(c) && c !in Compose(p)
    ensures c !in CanonicalText(Meaning(p))
  {
    PieceFree(p, c);
    ParsedPathFree(PathTextOf(p), c);
    ParsedQueryFree(if p.query.Some? then p.query.value else "", c);
    CanonicalFree(Meaning(p), c);
  }

  lemma AuthorityFree(p: Parts)
    requires FreeOf(p.host, ":/?#") && (p.port.Some? ==> FreeOf(p.port.value, "/?#"))
    ensures FreeOf(Authority(p), "?#")
  {
  }

  lemma MeaningIsPrintable(p: Parts)
    requires WellFormed(p) && BlankFree(Compose(p))
    requires Meaning(p).query == map[] ==> '?' !in Meaning(p).fragment
    ensures PrintableUrl(Meaning(p))
  {
    AuthorityFree(p);
    ParsedPathPrintable(PathTextOf(p));
    ParsedQueryPrintable(if p.query.Some? then p.query.value else "");
    var text := CanonicalText(Meaning(p));
    if EndsBlank(text) {
      MeaningBlankFree(p, text[|text| - 1]);
      assert false;
    }
  }

  /** Canonicalisation of a blank-free, well-formed text: the canonical text of what was parsed is
      accepted again.  It reads back as the same fields exactly when a port other than -1 and a segment
      were parsed, and it is a fixed point exactly when a segment was parsed. */
  lemma CanonicalisationIff(x: Builder, p: Parts)
    requires WellFormed(p) && BlankFree(Compose(p))
    requires Meaning(p).query == map[] ==> '?' !in Meaning(p).fragment
    ensures var b := Parse(x, Compose(p)).builder;
      var again := Parse(x, CanonicalText(b));
      && b == Meaning(p) && again.outcome == Accepted
      && (again.builder == b <==> b.port != -1 && b.segments != [])
      && (CanonicalText(again.builder) == CanonicalText(b) <==> b.segments != [])
  {
    ParseWellFormed(x, p);
    MeaningIsPrintable(p);
    ReparseIsExact(x, Meaning(p));
    ReparsedText(Meaning(p));
  }

  lemma ReparsedText(b: Builder)
    requires PrintableUrl(b)
    ensures CanonicalText(Reparsed(b)) == CanonicalText(b) <==> b.segments != []
  {
    var r := Reparsed(b);
    assert PrintedPort(r) == PrintedPort(b) && Origin(r) == Origin(b);
    if b.segments == [] {
      RenderIsJoin(r.segments);
      assert |CanonicalText(r)| > |CanonicalText(b)|;
    }
  }

  // ----- a text that canonicalisation changes twice -----

  function BareHost(): Builder {
    Builder("http", "h", 80, [], map[], "")
  }

  lemma BareHostParsed(x: Builder)
    ensures Parse(x, "http://h/") == Result(Accepted, BareHost())
  {
    var p := Parts("http", "h", None, Some(""), None, None);
    assert Compose(p) == "http://h/";
    SchemeIsLower("http");
    EmptyPath([]);
    EmptyQuery(map[]);
    ParseWellFormed(x, p);
  }

  lemma BareHostPrinted()
    ensures CanonicalText(BareHost()) == "http://h:80"
  {
    assert Dec(80) == Dec(8) + [DigitChar(0)] == "80";
    assert Origin(BareHost()) == "http://h:80";
  }

  function HttpsExample(): Builder {
    Builder("https", "h", 443, ["a"], map[], "")
  }

  lemma HttpsParsed(x: Builder)
    ensures Parse(x, "https://h/a") == Result(Accepted, HttpsExample())
  {
    var p := Parts("https", "h", None, Some("a"), None, None);
    assert Compose(p) == "https://h/a";
    SchemeIsLower("https");
    OneSegment("a");
    EmptyQuery(map[]);
    ParseWellFormed(x, p);
  }

  lemma Digits443()
    ensures DecInt(443) == "443"
  {
    assert Dec(44) == Dec(4) + [DigitChar(4)];
    assert Dec(443) == Dec(44) + [DigitChar(3)];
  }

  /** The printed origin: a host with a colon in brackets, and the default port for an unset one. */
  lemma OriginText(b: Builder)
    ensures var host := if ':' in b.host then "[" + b.host + "]" else b.host;
      && (b.port != -1 ==> Origin(b) == b.scheme + "://" + host + ":" + DecInt(b.port))
      && (b.port == -1 && b.scheme == "https" ==> Origin(b) == "https://" + host + ":443")
      && (b.port == -1 && b.scheme == "http" ==> Origin(b) == "http://" + host + ":80")
  {
    Digits443();
    assert Dec(80) == Dec(8) + [DigitChar(0)] == "80";
  }

  /** "https://h/a" is canonicalised to "https://h:443/a". */
  lemma HttpsPrinted()
    ensures CanonicalText(HttpsExample()) == "https://h:443/a"
  {
    Digits443();
    assert Origin(HttpsExample()) == "https://h:443";
    assert Render(["a"]) == "/a";
  }

  /** Every builder with only a scheme and a host is printable. */
  lemma BareIsPrintable(b: Builder)
    requires (b.scheme == "http" || b.scheme == "https") && FreeOf(b.host, ":/?#")
    requires b.segments == [] && b.query == map[] && b.fragment == ""
    ensures PrintableUrl(b)
  {
    var text, port := CanonicalText(b), PortText(b);
    assert text == b.scheme + "://" + b.host + ":" + port;
    assert text[|text| - 1] == port[|port| - 1];
  }

  lemma BareText(b: Builder)
    requires b.segments == []
    ensures CanonicalText(b) == Origin(b) + QueryPart(b) + FragmentText(b)
    ensures Reparsed(b) == b.(port := PrintedPort(b), segments := [b.host + ":" + DecInt(PrintedPort(b))])
  {
    assert Origin(b) + "" == Origin(b);
  }

  /** A URL with no segment, such as the one read from "http://h/", prints without a slash behind its
      authority, and the authority comes back as a segment. */
  lemma BareHostReparsed(x: Builder, b: Builder)
    requires PrintableUrl(b) && b.segments == []
    ensures CanonicalText(b) == Origin(b) + QueryPart(b) + FragmentText(b)
    ensures Parse(x, CanonicalText(b))
         == Result(Accepted, b.(port := PrintedPort(b), segments := [b.host + ":" + DecInt(PrintedPort(b))]))
  {
    BareText(b);
    ReparseIsExact(x, b);
  }
}
