/** The mutable builder of messenger/http_url.cc and the request of messenger/http_request.h, proved
    against the functions on values.  */
module UrlCode {
  import opened Wrappers
  import opened Text
  import UrlPath
  import UrlQuery
  import Url
  import UrlRequest

  class Builder {
    var scheme: string
    var host: string
    var port: int
    var segments: seq<string>
    var query: UrlQuery.Query
    var fragment: string

    function State(): Url.Builder
      reads this
    {
      Url.Builder(scheme, host, port, segments, query, fragment)
    }

    constructor ()
      ensures State() == Url.Cleared()
    {
      scheme, host, port, segments, query, fragment := "", "", -1, [], map[], "";
    }

    method Clear()
      modifies this
      ensures State() == Url.Cleared()
    {
      scheme, host, port, segments, query, fragment := "", "", -1, [], map[], "";
    }

    method Scheme(s: string)
      modifies `scheme
      ensures State() == Url.Apply(old(State()), Url.SetScheme(s))
    {
      if s == "" { scheme := "http"; }
      if s == "http" {
        scheme := "http";
      } else if s == "https" {
        scheme := "https";
      } else {
        scheme := "http";
      }
    }

    method Port(p: int)
      modifies `port
      ensures State() == Url.Apply(old(State()), Url.SetPort(p))
    {
      if p <= 0 || p > 65535 { port := -1; } else { port := p; }
    }

    method Pop()
      modifies `segments
      ensures segments == UrlPath.Pop(old(segments))
    {
      if segments != [] { segments := segments[..|segments| - 1]; }
    }

    method Push(segment: string)
      modifies `segments
      ensures State() == Url.Apply(old(State()), Url.AddSegment(segment))
    {
      if segment == "" { return; }
      if segment == "." { return; }
      if segment == ".." {
        Pop();
        return;
      }
      segments := segments + [segment];
    }

    method AddEncodedPathSegment(segment: string)
      modifies `segments
      ensures State() == Url.Apply(old(State()), Url.AddSegment(segment))
    {
      if segment == "" { return; }
      Push(segment);
    }

    /** Splits at the slashes and pushes every piece. */
    method AddEncodedPathSegments(path: string)
      modifies `segments
      ensures State() == Url.Apply(old(State()), Url.AddSegments(path))
    {
      if path == "" {
        UrlPath.EmptyPath(segments);
        return;
      }
      var pieces := Split(path, '/');
      var i := 0;
      while i < |pieces|
        invariant 0 <= i <= |pieces|
        invariant UrlPath.PushAll(segments, pieces[i..]) == UrlPath.PushAll(old(segments), pieces)
      {
        if pieces[i] != "" { Push(pieces[i]); }
        i := i + 1;
      }
    }

    /** Walks to the element and overwrites it. */
    method SetEncodedPathSegment(index: int, segment: string)
      modifies `segments
      ensures State() == Url.Apply(old(State()), Url.SetSegment(index, segment))
    {
      if segment == "" { return; }
      if segment == "." || segment == ".." { return; }
      if index < 0 || index >= |segments| { return; }
      var it := 0;
      var i := 0;
      while i < index
        invariant 0 <= i <= index && it == i
      {
        it := it + 1;
        i := i + 1;
      }
      segments := segments[it := segment];
    }

    method RemovePathSegment(index: int)
      modifies `segments
      ensures State() == Url.Apply(old(State()), Url.RemoveSegment(index))
    {
      if index < 0 || index >= |segments| { return; }
      var it := 0;
      var i := 0;
      while i < index
        invariant 0 <= i <= index && it == i
      {
        it := it + 1;
        i := i + 1;
      }
      segments := segments[..it] + segments[it + 1..];
    }

    method AddEncodedQueryParameter(name: string, value: string)
      modifies `query
      ensures State() == Url.Apply(old(State()), Url.AddQuery(name, value))
    {
      if name == "" { return; }
      if name !in query {
        query := query[name := {value}];
      } else {
        query := query[name := query[name] + {value}];
      }
    }

    method RemoveEncodedQueryValue(name: string, value: string)
      modifies `query
      ensures State() == Url.Apply(old(State()), Url.RemoveQueryValue(name, value))
    {
      if name == "" { return; }
      if name in query {
        var values := query[name] - {value};
        query := query[name := values];
        if values == {} { query := query - {name}; }
      }
    }

    method RemoveEncodedQueryName(name: string)
      modifies `query
      ensures State() == Url.Apply(old(State()), Url.RemoveQueryName(name))
    {
      if name == "" { return; }
      query := query - {name};
    }

    method AddEncodedFragment(f: string)
      modifies `fragment
      ensures State() == Url.Apply(old(State()), Url.AddFragment(f))
    {
      if f == "" { return; }
      fragment := f;
    }

    // ----- parsing -----

    method ReadHostAndPort(hostPath: string)
      modifies `host, `port
      ensures host == Url.HostOf(hostPath) && port == Url.PortValue(Url.PortDigits(hostPath), scheme)
    {
      var portStart, pathStart := Find(hostPath, ':'), Find(hostPath, '/');
      if portStart == -1 {
        port := Url.DefaultPort(scheme);
        if pathStart == -1 { host := hostPath; } else { host := Substr(hostPath, 0, pathStart); }
      } else {
        host := Substr(hostPath, 0, portStart);
        var digits := CutPort(hostPath, portStart);
        if digits != "" { port := Atoi(digits); } else { port := Url.DefaultPort(scheme); }
      }
    }

    method ReadToken(token: string)
      modifies `query
      ensures query == UrlQuery.AddParam(old(query), UrlQuery.ParseToken(token))
    {
      var name, value := CutToken(token);
      AddEncodedQueryParameter(name, value);
    }

    /** Splits at the ampersands and adds every named parameter. */
    method ReadQuery(text: string)
      modifies `query
      ensures query == UrlQuery.AddTokens(old(query), Split(text, '&'))
    {
      if text == "" {
        UrlQuery.EmptyQuery(query);
        return;
      }
      var tokens := Split(text, '&');
      var i := 0;
      while i < |tokens|
        invariant 0 <= i <= |tokens|
        invariant UrlQuery.AddTokens(query, tokens[i..]) == UrlQuery.AddTokens(old(query), tokens)
      {
        if tokens[i] != "" { ReadToken(tokens[i]); }
        i := i + 1;
      }
    }

    method ReadScheme(url: string) returns (known: bool)
      modifies `scheme
      ensures known <==> Url.SchemeOf(url) == "http" || Url.SchemeOf(url) == "https"
      ensures scheme == if known then Url.SchemeOf(url) else old(scheme)
    {
      var name := Lower(Substr(url, 0, Find(url, ':')));
      if name == "http" {
        scheme := "http";
      } else if name == "https" {
        scheme := "https";
      } else {
        return false;
      }
      return true;
    }

    method Parse(text: string) returns (outcome: Url.Outcome)
      modifies this
      ensures Url.Result(outcome, State()) == Url.Parse(old(State()), text)
    {
      if |text| <= 7 { return Url.Refused; }
      Clear();
      var url := Trim(text);
      var known := ReadScheme(url);
      if !known { return Url.Refused; }
      var pathStart := |scheme| + 3;
      if pathStart > |url| { return Url.Thrown; }
      var hostPath := CutHostPath(url, pathStart);
      if hostPath == "" { return Url.Refused; }
      ReadFields(hostPath, url);
      return Url.Accepted;
    }

    method ReadFields(hostPath: string, url: string)
      requires segments == [] && query == map[] && fragment == ""
      modifies `host, `port, `segments, `query, `fragment
      ensures host == Url.HostOf(hostPath) && port == Url.PortValue(Url.PortDigits(hostPath), scheme)
      ensures segments == UrlPath.AddPath([], Url.PathOf(hostPath))
      ensures query == UrlQuery.ParseQuery(Url.QueryOf(url)) && fragment == Url.FragmentOf(url)
    {
      ReadHostAndPort(hostPath);
      var path := CutPath(hostPath);
      ReadPath(path);
      var text := CutQuery(url);
      ReadQuery(text);
      ReadFragment(url);
    }

    method ReadPath(path: string)
      modifies `segments
      ensures segments == UrlPath.AddPath(old(segments), path)
    {
      if path != "" {
        AddEncodedPathSegments(path);
      } else {
        UrlPath.EmptyPath(segments);
      }
    }

    method ReadFragment(url: string)
      requires fragment == ""
      modifies `fragment
      ensures fragment == Url.FragmentOf(url)
    {
      var fragmentStart := Find(url, '#');
      if fragmentStart != -1 { AddEncodedFragment(Substr(url, fragmentStart + 1, -1)); }
    }

    // ----- printing -----

    method ToString() returns (text: string)
      ensures text == Url.Printed(State())
    {
      text := PrintOrigin();
      var path := PrintPath();
      text := text + path;
      if query != map[] {
        var q := PrintQuery(query);
        text := text + ("?" + q);
      }
      if fragment != "" {
        text := text + ("#" + fragment);
      }
    }

    method PrintOrigin() returns (text: string)
      ensures text == Url.Origin(State())
    {
      text := scheme + "://";
      if ':' in host {
        text := text + ("[" + host + "]");
      } else {
        text := text + host;
      }
      var p := if port == -1 then Url.DefaultPort(scheme) else port;
      text := text + ":" + DecInt(p);
    }

    method PrintPath() returns (text: string)
      ensures text == UrlPath.Render(segments)
    {
      text := "";
      var i := 0;
      while i < |segments|
        invariant 0 <= i <= |segments|
        invariant text == UrlPath.Render(segments[..i])
      {
        UrlPath.RenderLast(segments[..i], segments[i]);
        assert segments[..i + 1] == segments[..i] + [segments[i]];
        text := text + ("/" + segments[i]);
        i := i + 1;
      }
      assert segments[..i] == segments;
    }
  }

  /** The first '?', else the first '#', else the end bounds the text of host and path. */
  method CutHostPath(url: string, pathStart: nat) returns (hostPath: string)
    requires pathStart <= |url|
    ensures hostPath == Url.HostPathOf(url, pathStart)
  {
    var pathEnd := Find(url, '?');
    if pathEnd == -1 { pathEnd := Find(url, '#'); }
    if pathEnd == -1 { pathEnd := |url|; }
    hostPath := Substr(url, pathStart, pathEnd - pathStart);
  }

  method CutPort(hostPath: string, portStart: nat) returns (digits: string)
    requires portStart == Find(hostPath, ':')
    ensures digits == Url.PortDigits(hostPath)
  {
    var portEnd := Find(hostPath, '/');
    if portEnd == -1 {
      digits := Substr(hostPath, portStart + 1, -1);
    } else {
      digits := Substr(hostPath, portStart + 1, portEnd - (portStart + 1));
    }
  }

  /** Without a slash, npos + 1 is 0. */
  method CutPath(hostPath: string) returns (path: string)
    ensures path == Url.PathOf(hostPath)
  {
    var pathStart := Find(hostPath, '/');
    path := Substr(hostPath, pathStart + 1, -1);
  }

  method CutToken(token: string) returns (name: string, value: string)
    ensures UrlQuery.Param(name, value) == UrlQuery.ParseToken(token)
  {
    name, value := token, "";
    var p := Find(token, '=');
    if p != -1 {
      name := Substr(token, 0, p);
      value := Substr(token, p + 1, -1);
    }
  }

  method CutQuery(url: string) returns (text: string)
    ensures text == Url.QueryOf(url)
  {
    var queryStart, fragmentStart := Find(url, '?'), Find(url, '#');
    text := "";
    if queryStart != -1 {
      if fragmentStart == -1 {
        text := Substr(url, queryStart + 1, -1);
      } else {
        text := Substr(url, queryStart + 1, fragmentStart - (queryStart + 1));
      }
    }
  }

  /** The element an ordered container yields first. */
  method First(s: set<string>) returns (x: string)
    requires s != {}
    ensures UrlQuery.IsLeast(x, s) && x == UrlQuery.Least(s)
  {
    ghost var least := UrlQuery.LeastExists(s);
    x :| x in s && UrlQuery.IsLeast(x, s);
    UrlQuery.LeastUnique(x, UrlQuery.Least(s), s);
  }

  lemma Associate(a: string, b: string, c: string)
    ensures (a + b) + c == a + (b + c)
  {
  }

  /** What is still to be printed for the given names. */
  ghost function Remaining(query: UrlQuery.Query, names: set<string>, paramIndex: nat): string
    requires names <= query.Keys
  {
    UrlQuery.PrintEntries(UrlQuery.EntriesOf(query, UrlQuery.Sorted(names)), paramIndex, |query|)
  }

  ghost function NameText(query: UrlQuery.Query, name: string, paramIndex: nat): string
    requires name in query
  {
    if query[name] == {} then name
    else UrlQuery.PrintValues(name, UrlQuery.Sorted(query[name])) + (if paramIndex + 1 < |query| then "&" else "")
  }

  lemma NameFirst(query: UrlQuery.Query, names: set<string>, name: string)
    requires names <= query.Keys && names != {} && name == UrlQuery.Least(names)
    ensures UrlQuery.EntriesOf(query, UrlQuery.Sorted(names))
         == [UrlQuery.Entry(name, UrlQuery.Sorted(query[name]))]
            + UrlQuery.EntriesOf(query, UrlQuery.Sorted(names - {name}))
  {
    assert UrlQuery.Sorted(names) == [name] + UrlQuery.Sorted(names - {name});
    UrlQuery.EntriesCons(query, name, UrlQuery.Sorted(names - {name}));
  }

  lemma EntryStep(e: UrlQuery.Entry, es: seq<UrlQuery.Entry>, paramIndex: nat, total: nat, text: string)
    ensures text + UrlQuery.PrintEntries([e] + es, paramIndex, total)
         == if e.values == [] then (text + e.name) + UrlQuery.PrintEntries(es, paramIndex, total)
            else (text + (UrlQuery.PrintValues(e.name, e.values) + (if paramIndex + 1 < total then "&" else "")))
                 + UrlQuery.PrintEntries(es, paramIndex + 1, total)
  {
    assert ([e] + es)[1..] == es;
    if e.values == [] {
      Associate(text, e.name, UrlQuery.PrintEntries(es, paramIndex, total));
    } else {
      Associate(text, UrlQuery.PrintValues(e.name, e.values) + (if paramIndex + 1 < total then "&" else ""),
                UrlQuery.PrintEntries(es, paramIndex + 1, total));
    }
  }

  lemma NameStep(query: UrlQuery.Query, names: set<string>, name: string, paramIndex: nat, text: string)
    requires names <= query.Keys && names != {} && name == UrlQuery.Least(names)
    ensures text + Remaining(query, names, paramIndex)
         == (text + NameText(query, name, paramIndex))
            + Remaining(query, names - {name}, if query[name] == {} then paramIndex else paramIndex + 1)
  {
    NameFirst(query, names, name);
    assert query[name] == {} <==> UrlQuery.Sorted(query[name]) == [];
    EntryStep(UrlQuery.Entry(name, UrlQuery.Sorted(query[name])),
              UrlQuery.EntriesOf(query, UrlQuery.Sorted(names - {name})), paramIndex, |query|, text);
  }

  lemma PrintOne(name: string, value: string, rest: seq<string>)
    ensures UrlQuery.PrintValues(name, [value] + rest)
         == name + "=" + value + (if rest == [] then "" else "&" + UrlQuery.PrintValues(name, rest))
  {
    var all, tail := UrlQuery.ParamsOf(name, [value] + rest), UrlQuery.ParamsOf(name, rest);
    assert all == [UrlQuery.Param(name, value)] + tail;
    assert UrlQuery.RenderAll(all) == [UrlQuery.RenderParam(UrlQuery.Param(name, value))] + UrlQuery.RenderAll(tail);
    assert UrlQuery.RenderAll(all)[1..] == UrlQuery.RenderAll(tail);
  }

  lemma ValueStep(name: string, values: set<string>, value: string, text: string)
    requires values != {} && value == UrlQuery.Least(values)
    ensures var rest := values - {value};
      text + UrlQuery.PrintValues(name, UrlQuery.Sorted(values))
      == (text + (name + "=" + value) + (if rest == {} then "" else "&"))
         + UrlQuery.PrintValues(name, UrlQuery.Sorted(rest))
  {
    var rest := UrlQuery.Sorted(values - {value});
    assert UrlQuery.Sorted(values) == [value] + rest;
    PrintOne(name, value, rest);
    assert values - {value} == {} <==> rest == [];
    var a, tail := name + "=" + value, UrlQuery.PrintValues(name, rest);
    if rest == [] {
      assert UrlQuery.ParamsOf(name, rest) == [];
      assert tail == "";
      assert (text + a + "") + tail == text + a;
    } else {
      Associate(text, a, "&" + tail);
      Associate(text + a, "&", tail);
    }
  }

  /** One name with all its values; a separator follows every value but the last. */
  method PrintValues(name: string, values: set<string>) returns (text: string)
    ensures text == UrlQuery.PrintValues(name, UrlQuery.Sorted(values))
  {
    text := "";
    var rest, valuesIndex := values, 0;
    while rest != {}
      invariant valuesIndex + |rest| == |values|
      invariant text + UrlQuery.PrintValues(name, UrlQuery.Sorted(rest))
             == UrlQuery.PrintValues(name, UrlQuery.Sorted(values))
      decreases |rest|
    {
      var value := First(rest);
      ValueStep(name, rest, value, text);
      text := text + (name + "=" + value);
      valuesIndex := valuesIndex + 1;
      rest := rest - {value};
      if valuesIndex < |values| { text := text + "&"; }
    }
    assert UrlQuery.ParamsOf(name, UrlQuery.Sorted(rest)) == [];
  }

  /** One name; it is counted, and followed by a separator unless it is the last, if it has values. */
  method PrintName(query: UrlQuery.Query, name: string, paramIndex: nat) returns (text: string, next: nat)
    requires name in query
    ensures text == NameText(query, name, paramIndex)
    ensures next == if query[name] == {} then paramIndex else paramIndex + 1
  {
    if query[name] == {} { return name, paramIndex; }
    text := PrintValues(name, query[name]);
    next := paramIndex + 1;
    if next < |query| { text := text + "&"; }
  }

  /** The names in the order of std::map, each with its values. */
  method PrintQuery(query: UrlQuery.Query) returns (text: string)
    ensures text == UrlQuery.PrintEntries(UrlQuery.Entries(query), 0, |query|)
  {
    text := "";
    var names, paramIndex := query.Keys, 0;
    while names != {}
      invariant names <= query.Keys
      invariant text + Remaining(query, names, paramIndex) == Remaining(query, query.Keys, 0)
      decreases |names|
    {
      var name := First(names);
      NameStep(query, names, name, paramIndex, text);
      var part, next := PrintName(query, name, paramIndex);
      text, paramIndex, names := text + part, next, names - {name};
    }
  }

  class HttpRequest {
    var url: UrlRequest.HttpUrl
    var hostField: string
    var target: string

    /** The overload for a URL: it throws if the URL is too short for its own scheme, host and port. */
    method SetHttpUrl(u: UrlRequest.HttpUrl) returns (threw: bool)
      modifies this
      ensures url == u && hostField == u.host
      ensures if threw then UrlRequest.Target(u) == None && target == old(target)
              else UrlRequest.Target(u) == Some(target)
    {
      url := u;
      var hostAndPort := url.host + ":" + DecInt(url.port);
      hostField := url.host;
      var start := |url.scheme| + 3 + |hostAndPort|;
      if start > |url.url| { return true; }
      target := url.url[start..];
      return false;
    }

    /** The overload for a text: it throws if the parser throws, or as above. */
    method SetUrl(text: string) returns (threw: bool)
      modifies this
      ensures if threw then UrlRequest.SetUrl(text) == None && target == old(target)
              else UrlRequest.SetUrl(text) == Some(target)
      ensures UrlRequest.Constructed(text).Some? ==>
        Some(url) == UrlRequest.Constructed(text) && hostField == url.host
      ensures UrlRequest.Constructed(text).None? ==> url == old(url) && hostField == old(hostField)
    {
      var u := Construct(text);
      if u == None { return true; }
      threw := SetHttpUrl(u.value);
    }
  }

  /** The constructor of `HttpUrl`: a refused text leaves it empty. */
  method Construct(text: string) returns (u: Option<UrlRequest.HttpUrl>)
    ensures u == UrlRequest.Constructed(text)
  {
    var b := new Builder();
    var outcome := b.Parse(text);
    match outcome
    case Thrown => return None;
    case Refused => return Some(UrlRequest.EmptyUrl());
    case Accepted =>
      var printed := b.ToString();
      return Some(UrlRequest.HttpUrl(b.scheme, b.host, b.port, b.fragment, printed));
  }
}
