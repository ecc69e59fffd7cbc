/** The query map of messenger/http_url.cc: std::map from names to std::set of values, filled from a
    query text and printed in the order of the containers.  */
module UrlQuery {
  import opened Text

  type Query = map<string, set<string>>

  datatype Param = Param(name: string, value: string)

  // ----- the order of std::map and std::set -----

  predicate Less(a: string, b: string) {
    b != "" && (a == "" || a[0] < b[0] || (a[0] == b[0] && Less(a[1..], b[1..])))
  }

  lemma {:induction false} LessTotal(a: string, b: string)
    ensures a == b || Less(a, b) || Less(b, a)
  {
    if a != "" && b != "" {
      LessTotal(a[1..], b[1..]);
      if a[0] == b[0] && a[1..] == b[1..] {
        assert a == [a[0]] + a[1..] && b == [b[0]] + b[1..];
      }
    }
  }

  /** At the first difference the character is smaller, or the first text ends there. */
  ghost predicate SmallerAt(a: string, b: string, k: nat) {
    k <= |a| && k < |b| && a[..k] == b[..k] && (k == |a| || a[k] < b[k])
  }

  lemma {:induction false} LessIff(a: string, b: string)
    ensures Less(a, b) <==> exists k :: SmallerAt(a, b, k)
  {
    if b != "" {
      if a == "" {
        assert SmallerAt(a, b, 0);
      } else {
        LessIff(a[1..], b[1..]);
        if a[0] < b[0] {
          assert SmallerAt(a, b, 0);
        } else if Less(a, b) {
          var k :| SmallerAt(a[1..], b[1..], k);
          SmallerShift(a, b, k);
        }
        if j: nat :| SmallerAt(a, b, j) {
          if j > 0 {
            SmallerShift(a, b, j - 1);
            assert SmallerAt(a[1..], b[1..], j - 1);
          }
        }
      }
    }
  }

  lemma SmallerShift(a: string, b: string, k: nat)
    requires a != "" && b != ""
    ensures SmallerAt(a, b, k + 1) <==> a[0] == b[0] && SmallerAt(a[1..], b[1..], k)
  {
    if k + 1 <= |a| && k + 1 < |b| {
      assert a[..k + 1] == [a[0]] + a[1..][..k] && b[..k + 1] == [b[0]] + b[1..][..k];
      if a[..k + 1] == b[..k + 1] {
        assert a[0] == a[..k + 1][0] == b[..k + 1][0] == b[0];
        assert a[1..][..k] == a[..k + 1][1..] && b[1..][..k] == b[..k + 1][1..];
      }
    }
  }

  lemma {:induction false} LessTransitive(a: string, b: string, c: string)
    requires Less(a, b) && Less(b, c)
    ensures Less(a, c)
  {
    if a != "" && a[0] == b[0] == c[0] { LessTransitive(a[1..], b[1..], c[1..]); }
  }

  lemma {:induction false} LessIrreflexive(a: string)
    ensures !Less(a, a)
  {
    if a != "" { LessIrreflexive(a[1..]); }
  }

  predicate IsLeast(x: string, s: set<string>) {
    x in s && forall y :: y in s && y != x ==> Less(x, y)
  }

  lemma LeastExists(s: set<string>) returns (x: string)
    requires s != {}
    ensures IsLeast(x, s)
    decreases |s|
  {
    x :| x in s;
    if s - {x} != {} {
      var y := LeastExists(s - {x});
      LessTotal(x, y);
      if Less(x, y) {
        forall z | z in s && z != x ensures Less(x, z) {
          if z != y { LessTransitive(x, y, z); }
        }
      } else {
        x := y;
      }
    }
  }

  lemma LeastUnique(x: string, y: string, s: set<string>)
    requires IsLeast(x, s) && IsLeast(y, s)
    ensures x == y
  {
    if x != y {
      LessTransitive(x, y, x);
      LessIrreflexive(x);
    }
  }

  ghost function Least(s: set<string>): (x: string)
    requires s != {}
    ensures IsLeast(x, s)
  {
    assert exists x :: IsLeast(x, s) by { var x := LeastExists(s); }
    var x :| IsLeast(x, s);
    x
  }

  /** The elements in iteration order. */
  ghost function Sorted(s: set<string>): (r: seq<string>)
    ensures forall x :: x in r <==> x in s
    ensures |r| == |s|
    decreases |s|
  {
    if s == {} then [] else [Least(s)] + Sorted(s - {Least(s)})
  }

  // ----- building -----

  /** `AddEncodedQueryParameter`: a nameless parameter is ignored. */
  function AddParam(q: Query, p: Param): Query {
    if p.name == "" then q
    else if p.name in q then q[p.name := q[p.name] + {p.value}]
    else q[p.name := {p.value}]
  }

  function RemoveValue(q: Query, name: string, value: string): Query {
    if name == "" || name !in q then q
    else if q[name] - {value} == {} then q - {name}
    else q[name := q[name] - {value}]
  }

  function RemoveName(q: Query, name: string): Query {
    if name == "" then q else q - {name}
  }

  /** A token without '=' is a name with an empty value. */
  function ParseToken(token: string): Param {
    var p := Find(token, '=');
    if p == -1 then Param(token, "") else Param(token[..p], token[p + 1..])
  }

  /** A token is its name, or its name, the first '=' and its value. */
  lemma TokenMeans(token: string)
    ensures var p := ParseToken(token);
      && '=' !in p.name
      && (if '=' in token then token == p.name + "=" + p.value else token == p.name && p.value == "")
  {
    if '=' in token { FindFirst(token, '='); }
  }

  function AddTokens(q: Query, tokens: seq<string>): Query
    decreases |tokens|
  {
    if tokens == [] then q
    else AddTokens(if tokens[0] == "" then q else AddParam(q, ParseToken(tokens[0])), tokens[1..])
  }

  function ParseQuery(text: string): Query {
    AddTokens(map[], Split(text, '&'))
  }

  lemma EmptyQuery(q: Query)
    ensures AddTokens(q, Split("", '&')) == q
  {
    assert Split("", '&') == [""];
    assert AddTokens(q, [""]) == AddTokens(q, []);
  }

  // ----- printing -----

  function RenderParam(p: Param): string {
    p.name + "=" + p.value
  }

  function ParamsOf(name: string, values: seq<string>): (r: seq<Param>)
    ensures |r| == |values|
    ensures forall i :: 0 <= i < |r| ==> r[i] == Param(name, values[i])
  {
    seq(|values|, i requires 0 <= i < |values| => Param(name, values[i]))
  }

  /** One step of the iteration over the map: a name and its values in order. */
  datatype Entry = Entry(name: string, values: seq<string>)

  ghost function EntriesOf(q: Query, names: seq<string>): (r: seq<Entry>)
    requires forall n :: n in names ==> n in q
    ensures |r| == |names|
    ensures forall i :: 0 <= i < |r| ==> r[i] == Entry(names[i], Sorted(q[names[i]]))
  {
    seq(|names|, i requires 0 <= i < |names| => Entry(names[i], Sorted(q[names[i]])))
  }

  lemma EntriesCons(q: Query, name: string, names: seq<string>)
    requires name in q && forall n :: n in names ==> n in q
    ensures EntriesOf(q, [name] + names) == [Entry(name, Sorted(q[name]))] + EntriesOf(q, names)
  {
  }

  ghost function Entries(q: Query): seq<Entry> {
    EntriesOf(q, Sorted(q.Keys))
  }

  function EntryParams(es: seq<Entry>): seq<Param> {
    if es == [] then [] else ParamsOf(es[0].name, es[0].values) + EntryParams(es[1..])
  }

  /** All stored pairs in iteration order. */
  ghost function Params(q: Query): seq<Param> {
    EntryParams(Entries(q))
  }

  function RenderAll(ps: seq<Param>): (r: seq<string>)
    ensures |r| == |ps|
    ensures forall i :: 0 <= i < |ps| ==> r[i] == RenderParam(ps[i])
  {
    seq(|ps|, i requires 0 <= i < |ps| => RenderParam(ps[i]))
  }

  /** The query text: the pairs joined by '&'. */
  ghost function QueryText(q: Query): string {
    Join(RenderAll(Params(q)), '&')
  }

  /** Every stored name and every stored value set is non-empty. */
  predicate Solid(q: Query) {
    forall n :: n in q ==> n != "" && q[n] != {}
  }

  lemma AddParamSolid(q: Query, p: Param)
    requires Solid(q)
    ensures Solid(AddParam(q, p))
  {
  }

  lemma {:induction false} AddTokensSolid(q: Query, tokens: seq<string>)
    requires Solid(q)
    ensures Solid(AddTokens(q, tokens))
    decreases |tokens|
  {
    if tokens != [] {
      AddTokensSolid(if tokens[0] == "" then q else AddParam(q, ParseToken(tokens[0])), tokens[1..]);
    }
  }

  // ----- what the functions mean -----

  ghost predicate Has(q: Query, p: Param) {
    p.name in q && p.value in q[p.name]
  }

  lemma AddParamMeans(q: Query, p: Param, x: Param)
    ensures Has(AddParam(q, p), x) <==> Has(q, x) || (p.name != "" && x == p)
  {
  }

  lemma RemoveValueMeans(q: Query, name: string, value: string, x: Param)
    ensures Has(RemoveValue(q, name, value), x) <==> Has(q, x) && (name == "" || x != Param(name, value))
  {
    if name in q && x.name == name && x.value in q[name] && x.value != value {
      assert x.value in q[name] - {value};
    }
  }

  lemma RemoveNameMeans(q: Query, name: string, x: Param)
    ensures Has(RemoveName(q, name), x) <==> Has(q, x) && (name == "" || x.name != name)
  {
  }

  /** Removing a parameter undoes its addition, also when it was the first value of its name. */
  lemma RemoveUndoesAdd(q: Query, p: Param)
    requires Solid(q) && !Has(q, p)
    ensures RemoveValue(AddParam(q, p), p.name, p.value) == q
  {
    AddParamSolid(q, p);
    var back := RemoveValue(AddParam(q, p), p.name, p.value);
    forall x ensures Has(back, x) <==> Has(q, x) {
      AddParamMeans(q, p, x);
      RemoveValueMeans(AddParam(q, p), p.name, p.value, x);
    }
    SameQuery(back, q);
  }

  /** Adding tokens adds exactly the named parameters they denote. */
  lemma {:induction false} AddTokensMeans(q: Query, tokens: seq<string>, p: Param)
    ensures Has(AddTokens(q, tokens), p) <==>
      Has(q, p) || (p.name != "" && exists i :: 0 <= i < |tokens| && ParseToken(tokens[i]) == p && tokens[i] != "")
    decreases |tokens|
  {
    if tokens != [] {
      var q' := if tokens[0] == "" then q else AddParam(q, ParseToken(tokens[0]));
      AddTokensMeans(q', tokens[1..], p);
      AddParamMeans(q, ParseToken(tokens[0]), p);
      if i :| 0 <= i < |tokens| && ParseToken(tokens[i]) == p && tokens[i] != "" {
        assert i > 0 ==> tokens[1..][i - 1] == tokens[i];
      }
      if j :| 0 <= j < |tokens[1..]| && ParseToken(tokens[1..][j]) == p && tokens[1..][j] != "" {
        assert tokens[j + 1] == tokens[1..][j];
      }
    }
  }

  lemma {:induction false} EntryParamsMeans(es: seq<Entry>, p: Param)
    ensures p in EntryParams(es) <==> exists i :: 0 <= i < |es| && es[i].name == p.name && p.value in es[i].values
  {
    if es != [] {
      var here, rest := ParamsOf(es[0].name, es[0].values), es[1..];
      EntryParamsMeans(rest, p);
      if p.name == es[0].name && p.value in es[0].values {
        var j :| 0 <= j < |es[0].values| && es[0].values[j] == p.value;
        assert here[j] == p;
      }
      if i :| 0 <= i < |rest| && rest[i].name == p.name && p.value in rest[i].values {
        assert es[i + 1] == rest[i];
      }
      if i :| 0 < i < |es| && es[i].name == p.name && p.value in es[i].values {
        assert rest[i - 1] == es[i];
      }
    }
  }

  /** The printer lists exactly the stored pairs. */
  lemma ParamsMeans(q: Query, p: Param)
    ensures p in Params(q) <==> Has(q, p)
  {
    var names := Sorted(q.Keys);
    EntryParamsMeans(Entries(q), p);
    if Has(q, p) {
      assert p.name in names;
      var i :| 0 <= i < |names| && names[i] == p.name;
      assert Entries(q)[i].name == p.name && p.value in Entries(q)[i].values;
    }
  }

  lemma ParseOfRender(p: Param)
    requires '=' !in p.name
    ensures ParseToken(RenderParam(p)) == p
  {
    FindAt(p.name, '=', p.value);
    assert RenderParam(p) == p.name + ['='] + p.value;
  }

  lemma SameQuery(q: Query, r: Query)
    requires Solid(q) && Solid(r)
    requires forall p :: Has(q, p) <==> Has(r, p)
    ensures q == r
  {
    forall n | n in q ensures n in r {
      var v :| v in q[n];
      assert Has(q, Param(n, v));
    }
    forall n | n in r ensures n in q {
      var v :| v in r[n];
      assert Has(r, Param(n, v));
    }
    forall n | n in q ensures q[n] == r[n] {
      forall v ensures v in q[n] <==> v in r[n] {
        assert Has(q, Param(n, v)) <==> Has(r, Param(n, v));
      }
    }
  }

  /** Names and values free of the characters that delimit them. */
  ghost predicate Printable(q: Query) {
    && Solid(q)
    && (forall n :: n in q ==> '=' !in n)
    && QueryFree(q, '&') && QueryFree(q, '#')
  }

  ghost predicate QueryFree(q: Query, c: char) {
    && (forall n :: n in q ==> c !in n)
    && (forall n, v :: n in q && v in q[n] ==> c !in v)
  }

  lemma RenderFree(q: Query, p: Param, c: char)
    requires QueryFree(q, c) && Has(q, p) && c != '='
    ensures c !in RenderParam(p)
  {
  }

  /** A character that no name and no value contains is in no printed pair. */
  lemma TokensFree(q: Query, ps: seq<Param>, c: char)
    requires QueryFree(q, c) && c != '=' && forall i :: 0 <= i < |ps| ==> Has(q, ps[i])
    ensures forall i :: 0 <= i < |ps| ==> c !in RenderAll(ps)[i]
  {
    forall i | 0 <= i < |ps| ensures c !in RenderAll(ps)[i] { RenderFree(q, ps[i], c); }
  }

  lemma AllStored(q: Query)
    ensures forall i :: 0 <= i < |Params(q)| ==> Has(q, Params(q)[i])
  {
    var ps := Params(q);
    forall i | 0 <= i < |ps| ensures Has(q, ps[i]) {
      assert ps[i] in ps;
      ParamsMeans(q, ps[i]);
    }
  }

  lemma ParamsNonEmpty(q: Query)
    requires Solid(q) && q != map[]
    ensures Params(q) != []
  {
    var n :| n in q;
    var v :| v in q[n];
    ParamsMeans(q, Param(n, v));
  }

  lemma RenderedTokens(q: Query)
    requires Printable(q) && q != map[]
    ensures Split(QueryText(q), '&') == RenderAll(Params(q))
  {
    ParamsNonEmpty(q);
    AllStored(q);
    TokensFree(q, Params(q), '&');
    SplitOfJoin(RenderAll(Params(q)), '&');
  }

  /** Printing a query and parsing it gives the query back. */
  lemma QueryRoundTrip(q: Query)
    requires Printable(q) && q != map[]
    ensures ParseQuery(QueryText(q)) == q
  {
    RenderedTokens(q);
    var ps, tokens := Params(q), RenderAll(Params(q));
    AddTokensSolid(map[], tokens);
    forall p ensures Has(ParseQuery(QueryText(q)), p) <==> Has(q, p) {
      AddTokensMeans(map[], tokens, p);
      ParamsMeans(q, p);
      if p in ps {
        var i :| 0 <= i < |ps| && ps[i] == p;
        ParseOfRender(p);
        assert ParseToken(tokens[i]) == p && tokens[i] != "";
      }
      if i :| 0 <= i < |tokens| && ParseToken(tokens[i]) == p && tokens[i] != "" {
        ParamsMeans(q, ps[i]);
        ParseOfRender(ps[i]);
        assert p == ps[i];
      }
    }
    SameQuery(ParseQuery(QueryText(q)), q);
  }

  // ----- the printing loops -----

  /** The pairs of one name, separated by '&'. */
  function PrintValues(name: string, values: seq<string>): string {
    Join(RenderAll(ParamsOf(name, values)), '&')
  }

  /** The loops of `ToString`: a separator follows every name but the last one, and a name with no
      values is printed bare and not counted. */
  function PrintEntries(es: seq<Entry>, paramIndex: nat, total: nat): string {
    if es == [] then ""
    else if es[0].values == [] then es[0].name + PrintEntries(es[1..], paramIndex, total)
    else
      PrintValues(es[0].name, es[0].values) + (if paramIndex + 1 < total then "&" else "")
      + PrintEntries(es[1..], paramIndex + 1, total)
  }

  lemma {:induction false} JoinConcat(a: seq<string>, b: seq<string>, sep: char)
    requires a != [] && b != []
    ensures Join(a + b, sep) == Join(a, sep) + [sep] + Join(b, sep)
  {
    if |a| == 1 {
      assert (a + b)[1..] == b;
    } else {
      assert (a + b)[1..] == a[1..] + b;
      JoinConcat(a[1..], b, sep);
    }
  }

  lemma RenderAllConcat(a: seq<Param>, b: seq<Param>)
    ensures RenderAll(a + b) == RenderAll(a) + RenderAll(b)
  {
  }

  lemma JoinPair(a: seq<Param>, b: seq<Param>)
    requires a != []
    ensures Join(RenderAll(a + b), '&')
         == Join(RenderAll(a), '&') + (if b == [] then "" else "&") + Join(RenderAll(b), '&')
  {
    RenderAllConcat(a, b);
    if b == [] {
      assert a + b == a && RenderAll(b) == [];
    } else {
      JoinConcat(RenderAll(a), RenderAll(b), '&');
    }
  }

  predicate AllHaveValues(es: seq<Entry>) {
    forall i :: 0 <= i < |es| ==> es[i].values != []
  }

  lemma {:induction false} PrintedIsJoin(es: seq<Entry>, paramIndex: nat, total: nat)
    requires AllHaveValues(es) && paramIndex + |es| == total
    ensures PrintEntries(es, paramIndex, total) == Join(RenderAll(EntryParams(es)), '&')
    decreases |es|
  {
    if es == [] {
      assert RenderAll(EntryParams(es)) == [];
    } else {
      PrintedIsJoin(es[1..], paramIndex + 1, total);
      assert |es| > 1 ==> EntryParams(es[1..]) != [];
      JoinPair(ParamsOf(es[0].name, es[0].values), EntryParams(es[1..]));
    }
  }

  /** The loops print exactly the '&'-join of the stored pairs, without a stray separator. */
  lemma PrintsQueryText(q: Query)
    requires Solid(q)
    ensures PrintEntries(Entries(q), 0, |q|) == QueryText(q)
  {
    var es, names := Entries(q), Sorted(q.Keys);
    forall i | 0 <= i < |es| ensures es[i].values != [] {
      assert names[i] in names;
      assert |Sorted(q[names[i]])| == |q[names[i]]|;
    }
    PrintedIsJoin(es, 0, |q|);
  }

  lemma {:induction false} SortedIncreasing(s: set<string>)
    ensures forall i, j :: 0 <= i < j < |Sorted(s)| ==> Less(Sorted(s)[i], Sorted(s)[j])
    decreases |s|
  {
    if s != {} {
      var rest := Sorted(s - {Least(s)});
      SortedIncreasing(s - {Least(s)});
      forall j | 0 <= j < |rest| ensures Less(Least(s), rest[j]) {
        assert rest[j] in rest;
      }
    }
  }

  predicate Distinct(ps: seq<Param>) {
    forall i, j :: 0 <= i < j < |ps| ==> ps[i] != ps[j]
  }

  predicate NoRepeats(xs: seq<string>) {
    forall i, j :: 0 <= i < j < |xs| ==> xs[i] != xs[j]
  }

  lemma {:induction false} EntryParamsDistinct(es: seq<Entry>)
    requires forall i, j :: 0 <= i < j < |es| ==> es[i].name != es[j].name
    requires forall i :: 0 <= i < |es| ==> NoRepeats(es[i].values)
    ensures Distinct(EntryParams(es))
  {
    if es != [] {
      var here, rest := ParamsOf(es[0].name, es[0].values), EntryParams(es[1..]);
      EntryParamsDistinct(es[1..]);
      assert NoRepeats(es[0].values);
      forall i, j | 0 <= i < |here| && 0 <= j < |rest| ensures here[i] != rest[j] {
        EntryParamsMeans(es[1..], rest[j]);
      }
      DistinctConcat(here, rest);
    }
  }

  lemma SortedNoRepeats(s: set<string>)
    ensures NoRepeats(Sorted(s))
  {
    var xs := Sorted(s);
    SortedIncreasing(s);
    forall i, j | 0 <= i < j < |xs| ensures xs[i] != xs[j] {
      assert Less(xs[i], xs[j]);
      LessIrreflexive(xs[i]);
    }
  }

  lemma DistinctConcat(a: seq<Param>, b: seq<Param>)
    requires Distinct(a) && Distinct(b)
    requires forall i, j :: 0 <= i < |a| && 0 <= j < |b| ==> a[i] != b[j]
    ensures Distinct(a + b)
  {
  }

  /** The printer names every stored pair once. */
  lemma ParamsListStoredPairsOnce(q: Query)
    ensures Distinct(Params(q))
    ensures forall p :: p in Params(q) <==> Has(q, p)
  {
    forall p ensures p in Params(q) <==> Has(q, p) { ParamsMeans(q, p); }
    var es, names := Entries(q), Sorted(q.Keys);
    SortedNoRepeats(q.Keys);
    forall i | 0 <= i < |es| ensures NoRepeats(es[i].values) {
      assert names[i] in names;
      SortedNoRepeats(q[names[i]]);
    }
    EntryParamsDistinct(es);
  }
  /** Names are printed in ascending order, and so are the values of each name. */
  lemma PrintedAscending(q: Query, i: nat, j: nat)
    requires i < j < |Entries(q)|
    ensures exists k :: SmallerAt(Entries(q)[i].name, Entries(q)[j].name, k)
  {
    SortedIncreasing(q.Keys);
    LessIff(Sorted(q.Keys)[i], Sorted(q.Keys)[j]);
  }

  lemma ValuesAscending(q: Query, e: nat, i: nat, j: nat)
    requires e < |Entries(q)| && i < j < |Entries(q)[e].values|
    ensures exists k :: SmallerAt(Entries(q)[e].values[i], Entries(q)[e].values[j], k)
  {
    var name := Sorted(q.Keys)[e];
    SortedIncreasing(q[name]);
    LessIff(Sorted(q[name])[i], Sorted(q[name])[j]);
  }
}
