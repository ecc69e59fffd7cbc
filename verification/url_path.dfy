/** Path segments of messenger/http_url.cc: `Push`, `Pop`, `AddEncodedPathSegments`, and what they
    have to do with remove_dot_segments of section 5.2.4 of RFC 3986.  */
module UrlPath {
  import opened Text

  /** `Pop` keeps an empty list empty. */
  function Pop(segments: seq<string>): seq<string> {
    if segments == [] then [] else segments[..|segments| - 1]
  }

  function Push(segments: seq<string>, segment: string): seq<string> {
    if segment == "" || segment == "." then segments
    else if segment == ".." then Pop(segments)
    else segments + [segment]
  }

  function PushAll(segments: seq<string>, more: seq<string>): seq<string>
    decreases |more|
  {
    if more == [] then segments else PushAll(Push(segments, more[0]), more[1..])
  }

  /** `AddEncodedPathSegments`: split at every slash and push each piece. */
  function AddPath(segments: seq<string>, path: string): seq<string> {
    PushAll(segments, Split(path, '/'))
  }

  lemma EmptyPath(segments: seq<string>)
    ensures AddPath(segments, "") == segments
  {
    assert Split("", '/') == [""];
    assert PushAll(segments, [""]) == PushAll(Push(segments, ""), []);
  }

  predicate Normal(segment: string) {
    segment != "" && segment != "." && segment != ".."
  }

  predicate AllNormal(segments: seq<string>) {
    forall i :: 0 <= i < |segments| ==> Normal(segments[i])
  }

  lemma {:induction false} PushAllNormal(segments: seq<string>, more: seq<string>)
    requires AllNormal(segments)
    ensures AllNormal(PushAll(segments, more))
    decreases |more|
  {
    if more != [] { PushAllNormal(Push(segments, more[0]), more[1..]); }
  }

  lemma {:induction false} PushAllConcat(segments: seq<string>, a: seq<string>, b: seq<string>)
    ensures PushAll(segments, a + b) == PushAll(PushAll(segments, a), b)
    decreases |a|
  {
    if a == [] {
      assert a + b == b;
    } else {
      assert (a + b)[1..] == a[1..] + b;
      PushAllConcat(Push(segments, a[0]), a[1..], b);
    }
  }

  lemma {:induction false} PushAllOfNormal(segments: seq<string>, more: seq<string>)
    requires AllNormal(more)
    ensures PushAll(segments, more) == segments + more
    decreases |more|
  {
    if more != [] {
      PushAllOfNormal(segments + [more[0]], more[1..]);
      assert more == [more[0]] + more[1..];
    }
  }

  lemma {:induction false} PushAllFree(segments: seq<string>, more: seq<string>, c: char)
    requires forall i :: 0 <= i < |segments| ==> c !in segments[i]
    requires forall i :: 0 <= i < |more| ==> c !in more[i]
    ensures forall i :: 0 <= i < |PushAll(segments, more)| ==> c !in PushAll(segments, more)[i]
    decreases |more|
  {
    if more != [] { PushAllFree(Push(segments, more[0]), more[1..], c); }
  }

  /** Adding p, a slash and q is adding p and then q, for all texts. */
  lemma AddPathConcat(segments: seq<string>, p: string, q: string)
    ensures AddPath(segments, p + "/" + q) == AddPath(AddPath(segments, p), q)
  {
    SplitConcat(p, '/', q);
    PushAllConcat(segments, Split(p, '/'), Split(q, '/'));
  }

  // ----- RFC 3986 -----

  function LastSlashBefore(s: string, k: nat): (i: int)
    requires k <= |s|
    ensures -1 <= i < k
  {
    if k == 0 then -1 else if s[k - 1] == '/' then k - 1 else LastSlashBefore(s, k - 1)
  }

  function LastSlash(s: string): (i: int)
    ensures -1 <= i < |s|
  {
    LastSlashBefore(s, |s|)
  }

  /** Removes the last segment and its preceding slash, if any, from the output buffer. */
  function DropLastSegment(output: string): string {
    if LastSlash(output) == -1 then "" else output[..LastSlash(output)]
  }

  /** The length of the first path segment, including an initial slash, up to the next slash. */
  function FirstSegment(input: string): (n: nat)
    requires input != ""
    ensures 0 < n <= |input|
  {
    var next := Find(input[1..], '/');
    if next == -1 then |input| else next + 1
  }

  datatype Buffers = Buffers(input: string, output: string)

  /** One step of the algorithm of section 5.2.4: its rules 2A to 2E on the input and output buffers. */
  function RemovalStep(b: Buffers): (r: Buffers)
    requires b.input != ""
    ensures |r.input| < |b.input|
  {
    var s, n := b.input, |b.input|;
    if n >= 3 && s[0] == '.' && s[1] == '.' && s[2] == '/' then Buffers(s[3..], b.output)
    else if n >= 2 && s[0] == '.' && s[1] == '/' then Buffers(s[2..], b.output)
    else if n >= 3 && s[0] == '/' && s[1] == '.' && s[2] == '/' then Buffers(s[2..], b.output)
    else if n == 2 && s[0] == '/' && s[1] == '.' then Buffers("/", b.output)
    else if n >= 4 && s[0] == '/' && s[1] == '.' && s[2] == '.' && s[3] == '/' then
      Buffers(s[3..], DropLastSegment(b.output))
    else if n == 3 && s[0] == '/' && s[1] == '.' && s[2] == '.' then Buffers("/", DropLastSegment(b.output))
    else if n <= 2 && s[0] == '.' && s[n - 1] == '.' then Buffers("", b.output)
    else Buffers(s[FirstSegment(s)..], b.output + s[..FirstSegment(s)])
  }

  function RemoveDotSegments(b: Buffers): string
    decreases |b.input|
  {
    if b.input == "" then b.output else RemoveDotSegments(RemovalStep(b))
  }

  /** A slash before every segment. */
  function Render(segments: seq<string>): string {
    if segments == [] then "" else "/" + segments[0] + Render(segments[1..])
  }

  function NonEmpty(tokens: seq<string>): seq<string> {
    if tokens == [] then []
    else if tokens[0] == "" then NonEmpty(tokens[1..])
    else [tokens[0]] + NonEmpty(tokens[1..])
  }

  predicate SlashFree(segments: seq<string>) {
    forall i :: 0 <= i < |segments| ==> '/' !in segments[i]
  }

  /** The stack semantics of the algorithm: unlike the builder it keeps empty segments. */
  function RfcPush(stack: seq<string>, segment: string): seq<string> {
    if segment == "." then stack else if segment == ".." then Pop(stack) else stack + [segment]
  }

  function RfcAll(stack: seq<string>, more: seq<string>): seq<string>
    decreases |more|
  {
    if more == [] then stack else RfcAll(RfcPush(stack, more[0]), more[1..])
  }

  lemma {:induction false} RenderConcat(a: seq<string>, b: seq<string>)
    ensures Render(a + b) == Render(a) + Render(b)
  {
    if a == [] {
      assert a + b == b;
    } else {
      assert (a + b)[1..] == a[1..] + b;
      RenderConcat(a[1..], b);
    }
  }

  lemma RenderLast(a: seq<string>, x: string)
    ensures Render(a + [x]) == Render(a) + ("/" + x)
  {
    RenderConcat(a, [x]);
    assert [x][1..] == [];
  }

  lemma {:induction false} NonEmptyConcat(a: seq<string>, b: seq<string>)
    ensures NonEmpty(a + b) == NonEmpty(a) + NonEmpty(b)
  {
    if a == [] {
      assert a + b == b;
    } else {
      assert (a + b)[1..] == a[1..] + b;
      NonEmptyConcat(a[1..], b);
    }
  }

  lemma {:induction false} TokensOfRender(segments: seq<string>)
    requires SlashFree(segments)
    ensures NonEmpty(Split(Render(segments), '/')) == NonEmpty(segments)
    decreases |segments|
  {
    if segments == [] {
      SplitOfNothing();
    } else {
      var front, last := segments[..|segments| - 1], segments[|segments| - 1];
      assert segments == front + [last];
      TokensOfRender(front);
      RenderLast(front, last);
      assert Render(segments) == Render(front) + ['/'] + last;
      SplitConcat(Render(front), '/', last);
      NonEmptyConcat(Split(Render(front), '/'), [last]);
      NonEmptyConcat(front, [last]);
    }
  }

  lemma SplitOfNothing()
    ensures Split("", '/') == [""] && NonEmpty([""]) == []
  {
    assert [""][1..] == [];
  }

  lemma TrailingSlash(x: string)
    ensures NonEmpty(Split(x + "/", '/')) == NonEmpty(Split(x, '/'))
  {
    SplitConcat(x, '/', "");
    SplitOfNothing();
    NonEmptyConcat(Split(x, '/'), [""]);
    assert x + ['/'] + "" == x + "/";
  }

  lemma DropOfRender(segments: seq<string>)
    requires SlashFree(segments)
    ensures DropLastSegment(Render(segments)) == Render(Pop(segments))
  {
    if segments != [] {
      var front, last := segments[..|segments| - 1], segments[|segments| - 1];
      assert segments == front + [last];
      RenderLast(front, last);
      LastSlashIs(Render(front), last);
    }
  }

  lemma {:induction false} LastSlashSkips(a: string, last: string, k: nat)
    requires '/' !in last && k <= |last|
    ensures LastSlashBefore(a + ("/" + last), |a| + 1 + k) == |a|
  {
    var s := a + ("/" + last);
    if k > 0 {
      assert s[|a| + k] == last[k - 1];
      LastSlashSkips(a, last, k - 1);
    } else {
      assert s[|a|] == '/';
    }
  }

  lemma LastSlashIs(a: string, last: string)
    requires '/' !in last
    ensures LastSlash(a + ("/" + last)) == |a|
    ensures (a + ("/" + last))[..|a|] == a
  {
    LastSlashSkips(a, last, |last|);
  }

  predicate EndsInDots(tokens: seq<string>) {
    tokens != [] && (tokens[|tokens| - 1] == "." || tokens[|tokens| - 1] == "..")
  }

  /** One ordinary segment moves to the output buffer. */
  lemma MovesSegment(t: string, rest: string, output: string)
    requires Normal(t) && '/' !in t && (rest == "" || rest[0] == '/')
    ensures RemovalStep(Buffers("/" + (t + rest), output)) == Buffers(rest, output + ("/" + t))
  {
    var s := "/" + (t + rest);
    FirstSegmentIs(t, rest);
    assert s[0] == '/' && s[1] == t[0];
    assert |t| >= 2 ==> s[2] == t[1];
    assert |t| >= 3 ==> s[3] == t[2];
  }

  lemma FirstSegmentIs(t: string, rest: string)
    requires '/' !in t && (rest == "" || rest[0] == '/')
    ensures var s := "/" + (t + rest);
      FirstSegment(s) == |t| + 1 && s[|t| + 1..] == rest && s[..|t| + 1] == "/" + t
  {
    var s := "/" + (t + rest);
    assert s[1..] == t + rest;
    FindSkips(t, rest, '/');
  }

  lemma DotStep(rest: string, output: string)
    requires rest == "" || rest[0] == '/'
    ensures RemovalStep(Buffers("/" + ("." + rest), output)) == Buffers(if rest == "" then "/" else rest, output)
  {
    var s := "/" + ("." + rest);
    assert s[0] == '/' && s[1] == '.' && (rest != "" ==> s[2] == rest[0]);
    assert s[2..] == rest;
  }

  lemma DotDotStep(rest: string, output: string)
    requires rest == "" || rest[0] == '/'
    ensures RemovalStep(Buffers("/" + (".." + rest), output))
         == Buffers(if rest == "" then "/" else rest, DropLastSegment(output))
  {
    var s := "/" + (".." + rest);
    assert s[0] == '/' && s[1] == '.' && s[2] == '.' && (rest != "" ==> s[3] == rest[0]);
    assert s[3..] == rest;
  }

  lemma SlashMoves(output: string)
    ensures RemoveDotSegments(Buffers("/", output)) == output + "/"
  {
    assert "/"[1..] == "" && FirstSegment("/") == 1;
    assert RemovalStep(Buffers("/", output)) == Buffers("", output + "/");
  }

  lemma EmptyStep(rest: string, output: string)
    requires rest == "" || rest[0] == '/'
    ensures RemovalStep(Buffers("/" + rest, output)) == Buffers(rest, output + "/")
  {
    FirstSegmentIs("", rest);
    assert "" + rest == rest && "/" + "" == "/";
    assert rest != "" ==> ("/" + rest)[1] == '/';
  }

  lemma RfcPushSlashFree(stack: seq<string>, t: string)
    requires SlashFree(stack) && '/' !in t
    ensures SlashFree(RfcPush(stack, t))
  {
  }

  lemma {:induction false} RfcAllSlashFree(stack: seq<string>, tokens: seq<string>)
    requires SlashFree(stack) && SlashFree(tokens)
    ensures SlashFree(RfcAll(stack, tokens))
    decreases |tokens|
  {
    if tokens != [] {
      RfcPushSlashFree(stack, tokens[0]);
      RfcAllSlashFree(RfcPush(stack, tokens[0]), tokens[1..]);
    }
  }

  function Trailing(tokens: seq<string>): string {
    if EndsInDots(tokens) then "/" else ""
  }

  lemma RemovesFirst(stack: seq<string>, t: string, rest: seq<string>)
    requires SlashFree(stack) && '/' !in t
    requires RemoveDotSegments(Buffers(Render(rest), Render(RfcPush(stack, t))))
          == Render(RfcAll(RfcPush(stack, t), rest)) + Trailing(rest)
    ensures RemoveDotSegments(Buffers("/" + (t + Render(rest)), Render(stack)))
         == Render(RfcAll(RfcPush(stack, t), rest)) + Trailing([t] + rest)
  {
    FirstStep(stack, t, rest);
    if rest == [] {
      LastToken(RfcPush(stack, t), t);
    } else {
      assert ([t] + rest)[|rest|] == rest[|rest| - 1];
    }
  }

  /** The algorithm on rendered segments is the stack semantics; a final "." or ".." leaves a slash. */
  lemma {:induction false} RemovesLikeStack(stack: seq<string>, tokens: seq<string>)
    requires SlashFree(stack) && SlashFree(tokens)
    ensures RemoveDotSegments(Buffers(Render(tokens), Render(stack))) == Render(RfcAll(stack, tokens)) + Trailing(tokens)
    decreases |tokens|
  {
    if tokens == [] {
      assert Render(stack) + "" == Render(stack);
    } else {
      var t, rest := tokens[0], tokens[1..];
      RfcPushSlashFree(stack, t);
      RemovesLikeStack(RfcPush(stack, t), rest);
      assert Render(tokens) == "/" + (t + Render(rest)) && tokens == [t] + rest;
      RemovesFirst(stack, t, rest);
    }
  }

  lemma LastToken(stack: seq<string>, t: string)
    ensures var trailing := t == "." || t == "..";
      RemoveDotSegments(Buffers(if trailing then "/" else "", Render(stack)))
        == Render(stack) + if trailing then "/" else ""
  {
    if t == "." || t == ".." {
      SlashMoves(Render(stack));
    } else {
      assert Render(stack) + "" == Render(stack);
    }
  }

  lemma FirstStep(stack: seq<string>, t: string, rest: seq<string>)
    requires SlashFree(stack) && '/' !in t
    ensures var trailing := rest == [] && (t == "." || t == "..");
      RemovalStep(Buffers("/" + (t + Render(rest)), Render(stack)))
        == Buffers(if trailing then "/" else Render(rest), Render(RfcPush(stack, t)))
  {
    assert rest != [] ==> Render(rest)[0] == '/';
    if t == "." {
      DotStep(Render(rest), Render(stack));
    } else if t == ".." {
      DotDotStep(Render(rest), Render(stack));
      DropOfRender(stack);
    } else if t == "" {
      assert t + Render(rest) == Render(rest) && "/" + t == "/";
      EmptyStep(Render(rest), Render(stack));
      RenderLast(stack, t);
    } else {
      MovesSegment(t, Render(rest), Render(stack));
      RenderLast(stack, t);
    }
  }

  /** What the algorithm leaves of rendered segments, without empty ones. */
  function RfcSegments(tokens: seq<string>): seq<string> {
    NonEmpty(Split(RemoveDotSegments(Buffers(Render(tokens), "")), '/'))
  }

  lemma RfcSegmentsAre(tokens: seq<string>)
    requires SlashFree(tokens)
    ensures RfcSegments(tokens) == NonEmpty(RfcAll([], tokens))
  {
    RemovesLikeStack([], tokens);
    RfcAllSlashFree([], tokens);
    var segments := RfcAll([], tokens);
    TokensOfRender(segments);
    if EndsInDots(tokens) {
      TrailingSlash(Render(segments));
    } else {
      assert Render(segments) + "" == Render(segments);
    }
  }

  lemma {:induction false} SkippingEmpty(segments: seq<string>, tokens: seq<string>)
    ensures PushAll(segments, NonEmpty(tokens)) == PushAll(segments, tokens)
    decreases |tokens|
  {
    if tokens != [] {
      SkippingEmpty(Push(segments, tokens[0]), tokens[1..]);
      assert tokens[0] != "" ==> NonEmpty(tokens)[1..] == NonEmpty(tokens[1..]);
    }
  }

  lemma {:induction false} NonEmptyMeans(tokens: seq<string>)
    requires SlashFree(tokens)
    ensures SlashFree(NonEmpty(tokens)) && forall i :: 0 <= i < |NonEmpty(tokens)| ==> NonEmpty(tokens)[i] != ""
  {
    if tokens != [] { NonEmptyMeans(tokens[1..]); }
  }

  lemma {:induction false} NonEmptyFixed(tokens: seq<string>)
    requires forall i :: 0 <= i < |tokens| ==> tokens[i] != ""
    ensures NonEmpty(tokens) == tokens
  {
    if tokens != [] {
      NonEmptyFixed(tokens[1..]);
      assert tokens == [tokens[0]] + tokens[1..];
    }
  }

  /** Without empty segments the two stacks are the same. */
  lemma {:induction false} SameStack(stack: seq<string>, tokens: seq<string>)
    requires forall i :: 0 <= i < |tokens| ==> tokens[i] != ""
    requires forall i :: 0 <= i < |stack| ==> stack[i] != ""
    ensures RfcAll(stack, tokens) == PushAll(stack, tokens)
    ensures forall i :: 0 <= i < |RfcAll(stack, tokens)| ==> RfcAll(stack, tokens)[i] != ""
    decreases |tokens|
  {
    if tokens != [] { SameStack(RfcPush(stack, tokens[0]), tokens[1..]); }
  }

  lemma PushesLikeRfc(tokens: seq<string>)
    requires SlashFree(tokens) && forall i :: 0 <= i < |tokens| ==> tokens[i] != ""
    ensures PushAll([], tokens) == RfcSegments(tokens)
  {
    RfcSegmentsAre(tokens);
    SameStack([], tokens);
    NonEmptyFixed(RfcAll([], tokens));
  }

  /** Normalisation is remove_dot_segments of RFC 3986 on the path without its empty segments: for
      every text the stored segments are the non-empty segments of the algorithm's result. */
  lemma NormalisesLikeRfc3986(path: string)
    ensures AddPath([], path) == RfcSegments(NonEmpty(Split(path, '/')))
  {
    NonEmptyMeans(Split(path, '/'));
    PushesLikeRfc(NonEmpty(Split(path, '/')));
    SkippingEmpty([], Split(path, '/'));
  }

  lemma BothNonEmpty(segments: seq<string>, more: seq<string>)
    requires AllNormal(segments) && SlashFree(segments) && SlashFree(more)
    requires forall i :: 0 <= i < |more| ==> more[i] != ""
    ensures SlashFree(segments + more) && forall i :: 0 <= i < |segments + more| ==> (segments + more)[i] != ""
  {
  }

  lemma GoesOnLikeRfc(segments: seq<string>, more: seq<string>)
    requires AllNormal(segments) && SlashFree(segments) && SlashFree(more)
    requires forall i :: 0 <= i < |more| ==> more[i] != ""
    ensures PushAll(segments, more) == RfcSegments(segments + more)
  {
    PushAllConcat([], segments, more);
    PushAllOfNormal([], segments);
    assert [] + segments == segments;
    BothNonEmpty(segments, more);
    PushesLikeRfc(segments + more);
  }

  /** Adding to segments that are there goes on where the algorithm would be after them. */
  lemma AddPathLikeRfc3986(segments: seq<string>, path: string)
    requires AllNormal(segments) && SlashFree(segments)
    ensures AddPath(segments, path) == RfcSegments(segments + NonEmpty(Split(path, '/')))
  {
    NonEmptyMeans(Split(path, '/'));
    SkippingEmpty(segments, Split(path, '/'));
    GoesOnLikeRfc(segments, NonEmpty(Split(path, '/')));
  }

  // ----- the algorithm on the path as it is -----

  /** A ".." would remove an empty segment while there is a non-empty one below it. */
  predicate Snag(stack: seq<string>, segment: string) {
    segment == ".." && stack != [] && stack[|stack| - 1] == "" && NonEmpty(stack) != []
  }

  /** No ".." of the path meets an empty segment that hides a non-empty one. */
  predicate Clear(stack: seq<string>, tokens: seq<string>)
    decreases |tokens|
  {
    tokens != [] ==> !Snag(stack, tokens[0]) && Clear(RfcPush(stack, tokens[0]), tokens[1..])
  }

  lemma PopLast(front: seq<string>, last: string)
    ensures Pop(front + [last]) == front
  {
  }

  lemma NonEmptyLast(front: seq<string>, last: string)
    ensures NonEmpty(front + [last]) == if last == "" then NonEmpty(front) else NonEmpty(front) + [last]
  {
    NonEmptyConcat(front, [last]);
    assert [last][1..] == [];
    assert NonEmpty([last]) == if last == "" then [] else [last];
    assert NonEmpty(front) + [] == NonEmpty(front);
  }

  lemma LastPart(stack: seq<string>) returns (front: seq<string>, last: string)
    requires stack != []
    ensures stack == front + [last] && Pop(stack) == front && stack[|stack| - 1] == last
  {
    front, last := stack[..|stack| - 1], stack[|stack| - 1];
  }

  lemma DotDotAgrees(front: seq<string>, last: string)
    ensures var below := NonEmpty(front + [last]);
      NonEmpty(front) == Pop(below) <==> last != "" || below == []
  {
    NonEmptyLast(front, last);
    if last != "" { PopLast(NonEmpty(front), last); }
  }

  /** One segment: the two stacks, compared by their non-empty segments, part exactly at a snag. */
  lemma StepAgrees(stack: seq<string>, segment: string)
    ensures NonEmpty(RfcPush(stack, segment)) == Push(NonEmpty(stack), segment) <==> !Snag(stack, segment)
  {
    if segment == ".." {
      if stack != [] {
        var front, last := LastPart(stack);
        DotDotAgrees(front, last);
      }
    } else if segment != "." {
      NonEmptyLast(stack, segment);
    }
  }

  lemma {:induction false} RfcAllLast(stack: seq<string>, tokens: seq<string>, t: string)
    ensures RfcAll(stack, tokens + [t]) == RfcPush(RfcAll(stack, tokens), t)
    ensures Clear(stack, tokens + [t]) <==> Clear(stack, tokens) && !Snag(RfcAll(stack, tokens), t)
    decreases |tokens|
  {
    if tokens == [] {
      assert tokens + [t] == [t] && [t][1..] == [];
      assert RfcAll(RfcPush(stack, t), []) == RfcPush(stack, t);
    } else {
      assert (tokens + [t])[1..] == tokens[1..] + [t];
      RfcAllLast(RfcPush(stack, tokens[0]), tokens[1..], t);
    }
  }

  lemma PushAllLast(segments: seq<string>, tokens: seq<string>, t: string)
    ensures PushAll(segments, tokens + [t]) == Push(PushAll(segments, tokens), t)
  {
    PushAllConcat(segments, tokens, [t]);
    assert [t][1..] == [];
  }

  ghost predicate AllPrefixesAgree(tokens: seq<string>) {
    forall k :: 0 <= k <= |tokens| ==> RfcSegments(tokens[..k]) == PushAll([], tokens[..k])
  }

  lemma PrefixesSplit(tokens: seq<string>, t: string)
    ensures AllPrefixesAgree(tokens + [t]) <==>
      AllPrefixesAgree(tokens) && RfcSegments(tokens + [t]) == PushAll([], tokens + [t])
  {
    var all := tokens + [t];
    assert forall k :: 0 <= k <= |tokens| ==> all[..k] == tokens[..k];
    assert all[..|all|] == all;
    if AllPrefixesAgree(all) {
      forall k | 0 <= k <= |tokens| ensures RfcSegments(tokens[..k]) == PushAll([], tokens[..k]) {
        assert RfcSegments(all[..k]) == PushAll([], all[..k]);
      }
    } else if AllPrefixesAgree(tokens) && RfcSegments(all) == PushAll([], all) {
      forall k | 0 <= k <= |all| ensures RfcSegments(all[..k]) == PushAll([], all[..k]) {
        assert k <= |tokens| ==> RfcSegments(tokens[..k]) == PushAll([], tokens[..k]);
      }
    }
  }

  /** The builder and remove_dot_segments agree on a path, segment by segment as it is added, if and only
      if no ".." meets an empty segment that hides a non-empty one. */
  lemma {:induction false} AgreesWithRfc3986Iff(tokens: seq<string>)
    requires SlashFree(tokens)
    ensures Clear([], tokens) <==> AllPrefixesAgree(tokens)
  {
    if tokens == [] {
      RfcSegmentsAre(tokens);
      assert tokens[..0] == [];
    } else {
      var front, last := tokens[..|tokens| - 1], tokens[|tokens| - 1];
      assert tokens == front + [last];
      AgreesWithRfc3986Iff(front);
      PrefixesSplit(front, last);
      RfcAllLast([], front, last);
      if Clear([], front) {
        assert front[..|front|] == front;
        assert RfcSegments(front) == PushAll([], front);
        RfcSegmentsAre(front);
        RfcSegmentsAre(tokens);
        PushAllLast([], front, last);
        StepAgrees(RfcAll([], front), last);
      }
    }
  }

  lemma RenderFirst(head: string, rest: seq<string>, text: string)
    requires Render(rest) == "/" + text
    ensures Render([head] + rest) == "/" + (head + ['/'] + text)
  {
    assert ([head] + rest)[1..] == rest;
    assert "/" + head + ("/" + text) == "/" + (head + ['/'] + text);
  }

  lemma {:induction false} RenderOfSplit(path: string)
    ensures Render(Split(path, '/')) == "/" + path
    decreases |path|
  {
    var i := Find(path, '/');
    if i == -1 {
      assert Render([path]) == "/" + path + Render([]);
    } else {
      FindFirst(path, '/');
      Regroup(path, i, '/', "");
      var head, rest := path[..i], path[i + 1..];
      RenderOfSplit(rest);
      RenderFirst(head, Split(rest, '/'), rest);
    }
  }

  /** On texts: a path that meets no snag is stored as remove_dot_segments leaves it. */
  lemma ClearPathMatchesRfc3986(path: string)
    requires Clear([], Split(path, '/'))
    ensures AddPath([], path) == NonEmpty(Split(RemoveDotSegments(Buffers("/" + path, "")), '/'))
  {
    var tokens := Split(path, '/');
    AgreesWithRfc3986Iff(tokens);
    assert tokens[..|tokens|] == tokens;
    RenderOfSplit(path);
  }

  /** The failing input: on t, "", ".." the algorithm keeps t and the builder removes it. */
  lemma EmptySegmentsMatter(t: string)
    requires Normal(t) && '/' !in t
    ensures !Clear([], [t, "", ".."])
    ensures PushAll([], [t, "", ".."]) == [] && RfcSegments([t, "", ".."]) == [t]
  {
    var tokens := [t, "", ".."];
    assert tokens[1..] == ["", ".."] && tokens[1..][1..] == [".."] && tokens[1..][1..][1..] == [];
    assert [] + [t] == [t] && [t] + [""] == [t, ""] && Pop([t, ""]) == [t];
    assert RfcAll([], tokens) == RfcAll([t], ["", ".."]) == RfcAll([t, ""], [".."]) == RfcAll([t], []);
    assert NonEmpty([t]) == [t] && NonEmpty([t, ""]) == [t] + NonEmpty([""]);
    assert PushAll([], tokens) == PushAll([t], ["", ".."]) == PushAll([t], [".."]) == PushAll([], []);
    RfcSegmentsAre(tokens);
    assert Snag([t, ""], "..");
    assert Clear([t, ""], [".."]) ==> !Snag([t, ""], "..");
    assert Clear([t], ["", ".."]) ==> Clear([t, ""], [".."]);
  }
}
