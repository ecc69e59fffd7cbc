/** The string operations the URL code relies on.  A position is an int, and -1 stands for npos: in
    the modular arithmetic of size_t, npos + 1 is 0 and a negative length is a huge one.  */
module Text {

  // ----- find and substr -----

  function Scan(s: string, c: char, k: nat): (i: int)
    requires k <= |s|
    ensures i == -1 || k <= i < |s|
    decreases |s| - k
  {
    if k == |s| then -1 else if s[k] == c then k else Scan(s, c, k + 1)
  }

  lemma {:induction false} ScanFinds(s: string, c: char, k: nat)
    requires k <= |s|
    ensures Scan(s, c, k) >= 0 ==> s[Scan(s, c, k)] == c
    ensures forall j :: k <= j < |s| && (Scan(s, c, k) == -1 || j < Scan(s, c, k)) ==> s[j] != c
    decreases |s| - k
  {
    if k < |s| && s[k] != c { ScanFinds(s, c, k + 1); }
  }

  function Find(s: string, c: char): (i: int)
    ensures -1 <= i < |s|
    ensures i == -1 <==> c !in s
  {
    ScanFinds(s, c, 0);
    Scan(s, c, 0)
  }

  /** `s.substr(pos, n)`; it throws if `pos` is beyond the end. */
  function Substr(s: string, pos: int, n: int): (r: string)
    requires 0 <= pos <= |s|
    ensures |r| <= |s| - pos
  {
    if 0 <= n < |s| - pos then s[pos..pos + n] else s[pos..]
  }

  lemma FindFirst(s: string, c: char)
    requires c in s
    ensures s[Find(s, c)] == c && c !in s[..Find(s, c)]
  {
    ScanFinds(s, c, 0);
  }

  lemma {:induction false} ScanSkips(a: string, b: string, c: char, k: nat)
    requires k <= |a| && c !in a
    ensures Scan(a + b, c, k) == Scan(a + b, c, |a|)
    decreases |a| - k
  {
    if k < |a| {
      assert (a + b)[k] == a[k];
      ScanSkips(a, b, c, k + 1);
    }
  }

  lemma {:induction false} ScanShifts(a: string, b: string, c: char, k: nat)
    requires k <= |b|
    ensures Scan(a + b, c, |a| + k) == if Scan(b, c, k) == -1 then -1 else |a| + Scan(b, c, k)
    decreases |b| - k
  {
    if k < |b| { ScanShifts(a, b, c, k + 1); }
  }

  lemma FindSkips(a: string, b: string, c: char)
    requires c !in a
    ensures Find(a + b, c) == if Find(b, c) == -1 then -1 else |a| + Find(b, c)
  {
    ScanSkips(a, b, c, 0);
    ScanShifts(a, b, c, 0);
  }

  lemma FindAt(a: string, c: char, b: string)
    requires c !in a
    ensures Find(a + [c] + b, c) == |a|
  {
    assert a + [c] + b == a + ([c] + b);
    FindSkips(a, [c] + b, c);
  }

  // ----- trimming -----

  function TrimLeft(s: string, c: char): string {
    if s != "" && s[0] == c then TrimLeft(s[1..], c) else s
  }

  function TrimRight(s: string, c: char): string {
    if s != "" && s[|s| - 1] == c then TrimRight(s[..|s| - 1], c) else s
  }

  /** The characters that are trimmed, in the order of the passes. */
  const BLANKS := " \t\n\U{c}\r"

  function LeftPasses(s: string, k: nat): string
    requires k <= 5
    decreases 5 - k
  {
    if k == 5 then s else LeftPasses(TrimLeft(s, BLANKS[k]), k + 1)
  }

  function RightPasses(s: string, k: nat): string
    requires k <= 5
    decreases 5 - k
  {
    if k == 5 then s else RightPasses(TrimRight(s, BLANKS[k]), k + 1)
  }

  /** Five passes from the left, then five from the right, one character each. */
  function Trim(s: string): string {
    RightPasses(LeftPasses(s, 0), 0)
  }

  predicate IsBlank(c: char) {
    c == ' ' || c == '\t' || c == '\n' || c == '\U{c}' || c == '\r'
  }

  lemma PassesAreBlank(k: nat)
    requires k < 5
    ensures IsBlank(BLANKS[k]) && Rank(BLANKS[k]) == k
  {
  }

  /** The pass that removes a blank. */
  function Rank(c: char): (k: nat)
    requires IsBlank(c)
    ensures k < 5 && BLANKS[k] == c
  {
    if c == ' ' then 0 else if c == '\t' then 1 else if c == '\n' then 2 else if c == '\U{c}' then 3 else 4
  }

  predicate AllBlank(s: string) {
    forall i :: 0 <= i < |s| ==> IsBlank(s[i])
  }

  /** Blanks in the order of the passes, none of them due before pass k. */
  predicate Ascending(s: string, k: nat)
    requires AllBlank(s)
  {
    (forall i :: 0 <= i < |s| ==> k <= Rank(s[i])) && forall i, j :: 0 <= i < j < |s| ==> Rank(s[i]) <= Rank(s[j])
  }

  predicate Descending(s: string, k: nat)
    requires AllBlank(s)
  {
    (forall i :: 0 <= i < |s| ==> k <= Rank(s[i])) && forall i, j :: 0 <= i < j < |s| ==> Rank(s[j]) <= Rank(s[i])
  }

  lemma {:induction false} TrimLeftStops(l: string, core: string, c: char)
    requires core != "" && core[0] != c
    ensures TrimLeft(l + core, c) == TrimLeft(l, c) + core
  {
    if l == "" {
      assert l + core == core;
    } else if l[0] == c {
      assert (l + core)[1..] == l[1..] + core;
      TrimLeftStops(l[1..], core, c);
    }
  }

  lemma {:induction false} TrimRightStops(core: string, r: string, c: char)
    requires core != "" && core[|core| - 1] != c
    ensures TrimRight(core + r, c) == core + TrimRight(r, c)
  {
    if r == "" {
      assert core + r == core;
    } else if r[|r| - 1] == c {
      assert (core + r)[..|core + r| - 1] == core + r[..|r| - 1];
      TrimRightStops(core, r[..|r| - 1], c);
    }
  }

  lemma {:induction false} LeftPassesStop(l: string, core: string, k: nat)
    requires k <= 5 && core != "" && !IsBlank(core[0])
    ensures LeftPasses(l + core, k) == LeftPasses(l, k) + core
    decreases 5 - k
  {
    if k < 5 {
      PassesAreBlank(k);
      TrimLeftStops(l, core, BLANKS[k]);
      LeftPassesStop(TrimLeft(l, BLANKS[k]), core, k + 1);
    }
  }

  lemma {:induction false} RightPassesStop(core: string, r: string, k: nat)
    requires k <= 5 && core != "" && !IsBlank(core[|core| - 1])
    ensures RightPasses(core + r, k) == core + RightPasses(r, k)
    decreases 5 - k
  {
    if k < 5 {
      PassesAreBlank(k);
      TrimRightStops(core, r, BLANKS[k]);
      RightPassesStop(core, TrimRight(r, BLANKS[k]), k + 1);
    }
  }

  lemma LowestBefore(l: string, rest: string, k: nat)
    requires AllBlank(l) && AllBlank(rest) && l != "" && Rank(l[0]) == k && l == [l[0]] + rest && Ascending(rest, k)
    ensures Ascending(l, k)
  {
    forall i, j | 0 <= i < j < |l| ensures Rank(l[i]) <= Rank(l[j]) {
      assert l[j] == rest[j - 1] && (i > 0 ==> l[i] == rest[i - 1]);
    }
    forall i | 0 <= i < |l| ensures k <= Rank(l[i]) {
      assert i > 0 ==> l[i] == rest[i - 1];
    }
  }

  lemma LowestFirst(l: string, rest: string, k: nat)
    requires AllBlank(l) && k < 5 && l != "" && l[0] == BLANKS[k] && l == [l[0]] + rest
    ensures AllBlank(rest) && (Ascending(rest, k) <==> Ascending(l, k))
  {
    PassesAreBlank(k);
    forall i | 0 <= i < |rest| ensures IsBlank(rest[i]) {
      assert rest[i] == l[i + 1];
    }
    if Ascending(rest, k) {
      LowestBefore(l, rest, k);
    } else if Ascending(l, k) {
      forall i, j | 0 <= i < j < |rest| ensures Rank(rest[i]) <= Rank(rest[j]) {
        assert rest[i] == l[i + 1] && rest[j] == l[j + 1];
      }
      forall i | 0 <= i < |rest| ensures k <= Rank(rest[i]) {
        assert rest[i] == l[i + 1];
      }
    }
  }

  lemma LowestLast(r: string, front: string, k: nat)
    requires AllBlank(r) && k < 5 && r != "" && r[|r| - 1] == BLANKS[k] && r == front + [r[|r| - 1]]
    ensures AllBlank(front) && (Descending(front, k) <==> Descending(r, k))
  {
    PassesAreBlank(k);
    assert forall i :: 0 <= i < |front| ==> front[i] == r[i];
  }

  /** One pass removes the blanks of its rank from the front and leaves an order as it is. */
  lemma {:induction false} TrimLeftOrder(l: string, k: nat)
    requires AllBlank(l) && k < 5
    ensures AllBlank(TrimLeft(l, BLANKS[k]))
    ensures Ascending(TrimLeft(l, BLANKS[k]), k + 1) <==> Ascending(l, k)
  {
    if l != "" {
      if l[0] == BLANKS[k] {
        TrimLeftOrder(l[1..], k);
        LowestFirst(l, l[1..], k);
      } else {
        assert Rank(l[0]) != k;
      }
    }
  }

  lemma {:induction false} TrimRightOrder(r: string, k: nat)
    requires AllBlank(r) && k < 5
    ensures AllBlank(TrimRight(r, BLANKS[k]))
    ensures Descending(TrimRight(r, BLANKS[k]), k + 1) <==> Descending(r, k)
  {
    if r != "" {
      var front, last := r[..|r| - 1], r[|r| - 1];
      if last == BLANKS[k] {
        TrimRightOrder(front, k);
        LowestLast(r, front, k);
      } else {
        assert Rank(last) != k;
      }
    }
  }

  lemma {:induction false} LeftPassesIff(l: string, k: nat)
    requires AllBlank(l) && k <= 5
    ensures LeftPasses(l, k) == "" <==> Ascending(l, k)
    ensures AllBlank(LeftPasses(l, k))
    decreases 5 - k
  {
    if k == 5 {
      assert l != "" ==> Rank(l[0]) < 5;
    } else {
      TrimLeftOrder(l, k);
      LeftPassesIff(TrimLeft(l, BLANKS[k]), k + 1);
    }
  }

  lemma {:induction false} RightPassesIff(r: string, k: nat)
    requires AllBlank(r) && k <= 5
    ensures RightPasses(r, k) == "" <==> Descending(r, k)
    ensures AllBlank(RightPasses(r, k))
    decreases 5 - k
  {
    if k == 5 {
      assert r != "" ==> Rank(r[0]) < 5;
    } else {
      TrimRightOrder(r, k);
      RightPassesIff(TrimRight(r, BLANKS[k]), k + 1);
    }
  }

  /** What is left of a padded text: its core, and those blanks the passes met in the wrong order. */
  lemma TrimPadded(l: string, core: string, r: string)
    requires AllBlank(l) && AllBlank(r)
    requires core != "" && !IsBlank(core[0]) && !IsBlank(core[|core| - 1])
    ensures Trim(l + core + r) == LeftPasses(l, 0) + core + RightPasses(r, 0)
  {
    var front := LeftPasses(l, 0) + core;
    assert l + core + r == l + (core + r) && (core + r)[0] == core[0];
    LeftPassesStop(l, core + r, 0);
    assert LeftPasses(l, 0) + (core + r) == front + r && front[|front| - 1] == core[|core| - 1];
    RightPassesStop(front, r, 0);
  }

  /** Trimming a padded text gives its core if and only if the blanks in front come in the order of the
      passes and those behind in the reverse order; otherwise an end stays blank. */
  lemma TrimIff(l: string, core: string, r: string)
    requires AllBlank(l) && AllBlank(r)
    requires core != "" && !IsBlank(core[0]) && !IsBlank(core[|core| - 1])
    ensures Trim(l + core + r) == core <==> Ascending(l, 0) && Descending(r, 0)
    ensures Trim(l + core + r) != "" && (IsBlank(Trim(l + core + r)[0]) <==> !Ascending(l, 0))
    ensures IsBlank(Trim(l + core + r)[|Trim(l + core + r)| - 1]) <==> !Descending(r, 0)
  {
    var l', r' := LeftPasses(l, 0), RightPasses(r, 0);
    TrimPadded(l, core, r);
    LeftPassesIff(l, 0);
    RightPassesIff(r, 0);
    var t := l' + core + r';
    assert t[0] == if l' != "" then l'[0] else core[0];
    assert t[|t| - 1] == if r' != "" then r'[|r'| - 1] else core[|core| - 1];
    assert l' == "" && r' == "" ==> t == core;
  }

  lemma TrimNothing(s: string)
    requires s != "" && !IsBlank(s[0]) && !IsBlank(s[|s| - 1])
    ensures Trim(s) == s
  {
    TrimIff("", s, "");
    assert "" + s + "" == s;
  }

  // ----- letter case -----

  function LowerChar(c: char): char {
    if 'A' <= c <= 'Z' then (c as int + 32) as char else c
  }

  function Lower(s: string): (r: string)
    ensures |r| == |s|
    ensures forall i :: 0 <= i < |s| ==> r[i] == LowerChar(s[i])
  {
    seq(|s|, i requires 0 <= i < |s| => LowerChar(s[i]))
  }

  predicate EitherCase(c: char, low: char) {
    c == low || ('a' <= low <= 'z' && c as int == low as int - 32)
  }

  /** A text is lowered to a lower-case one exactly if each character is the same letter in either case. */
  lemma LowerIff(s: string, low: string)
    requires forall i :: 0 <= i < |low| ==> 'a' <= low[i] <= 'z'
    ensures Lower(s) == low <==> |s| == |low| && forall i :: 0 <= i < |s| ==> EitherCase(s[i], low[i])
  {
    if |s| == |low| && forall i :: 0 <= i < |s| ==> EitherCase(s[i], low[i]) {
      forall i | 0 <= i < |s| ensures Lower(s)[i] == low[i] {
        assert EitherCase(s[i], low[i]);
      }
    }
  }

  // ----- decimal numbers -----

  function DigitChar(d: nat): char
    requires d < 10
  {
    ('0' as int + d) as char
  }

  predicate IsDigit(c: char) {
    '0' <= c <= '9'
  }

  function Dec(n: nat): (s: string)
    ensures s != "" && forall i :: 0 <= i < |s| ==> IsDigit(s[i])
  {
    if n < 10 then [DigitChar(n)] else Dec(n / 10) + [DigitChar(n % 10)]
  }

  /** Output of an int by a stream or by std::to_string. */
  function DecInt(n: int): (s: string)
    ensures s != "" && (IsDigit(s[0]) || s[0] == '-')
    ensures forall i :: 0 <= i < |s| ==> IsDigit(s[i]) || s[i] == '-'
  {
    if n < 0 then "-" + Dec(-n) else Dec(n)
  }

  function Digits(s: string, k: nat, acc: nat): nat
    requires k <= |s|
    decreases |s| - k
  {
    if k == |s| || !IsDigit(s[k]) then acc
    else Digits(s, k + 1, 10 * acc + (s[k] as int - '0' as int))
  }

  function SkipSpace(s: string, k: nat): (r: nat)
    requires k <= |s|
    ensures k <= r <= |s|
    decreases |s| - k
  {
    if k < |s| && (IsBlank(s[k]) || s[k] == '\U{b}') then SkipSpace(s, k + 1) else k
  }

  /** std::atoi: leading white space, a sign, then digits; anything else stops the conversion. */
  function Atoi(s: string): int {
    var k := SkipSpace(s, 0);
    if k < |s| && s[k] == '-' then 0 - Digits(s, k + 1, 0) as int
    else if k < |s| && s[k] == '+' then Digits(s, k + 1, 0)
    else Digits(s, k, 0)
  }

  lemma {:induction false} DigitsAppend(s: string, d: nat, k: nat, acc: nat)
    requires d < 10 && k <= |s| && forall i :: 0 <= i < |s| ==> IsDigit(s[i])
    ensures Digits(s + [DigitChar(d)], k, acc) == 10 * Digits(s, k, acc) + d
    decreases |s| - k
  {
    var t := s + [DigitChar(d)];
    if k == |s| {
      assert t[k] == DigitChar(d);
      assert Digits(t, k + 1, 10 * acc + d) == 10 * acc + d;
    } else {
      assert t[k] == s[k];
      DigitsAppend(s, d, k + 1, 10 * acc + (s[k] as int - '0' as int));
    }
  }

  lemma {:induction false} DigitsBehind(a: string, b: string, k: nat, acc: nat)
    requires k <= |b|
    ensures Digits(a + b, |a| + k, acc) == Digits(b, k, acc)
    decreases |b| - k
  {
    if k < |b| && IsDigit(b[k]) {
      DigitsBehind(a, b, k + 1, 10 * acc + (b[k] as int - '0' as int));
    }
  }

  lemma {:induction false} DigitsOfDec(n: nat)
    ensures Digits(Dec(n), 0, 0) == n
  {
    if n < 10 {
      assert Digits(Dec(n), 1, n) == n;
    } else {
      DigitsOfDec(n / 10);
      DigitsAppend(Dec(n / 10), n % 10, 0, 0);
    }
  }

  lemma {:induction false} DigitsStop(s: string, rest: string, k: nat, acc: nat)
    requires k <= |s| && (forall i :: 0 <= i < |s| ==> IsDigit(s[i])) && (rest == "" || !IsDigit(rest[0]))
    ensures Digits(s + rest, k, acc) == Digits(s, k, acc)
    decreases |s| - k
  {
    if k < |s| {
      assert (s + rest)[k] == s[k];
      DigitsStop(s, rest, k + 1, 10 * acc + (s[k] as int - '0' as int));
    } else if rest != "" {
      assert (s + rest)[k] == rest[0];
    }
  }

  /** The conversion stops at the first character that is not a digit. */
  lemma AtoiStops(n: nat, rest: string)
    requires rest == "" || !IsDigit(rest[0])
    ensures Atoi(Dec(n) + rest) == n
  {
    assert (Dec(n) + rest)[0] == Dec(n)[0];
    DigitsStop(Dec(n), rest, 0, 0);
    DigitsOfDec(n);
  }

  lemma AtoiOfDecInt(n: int)
    ensures Atoi(DecInt(n)) == n
  {
    if n < 0 {
      DigitsBehind("-", Dec(-n), 0, 0);
      DigitsOfDec(-n);
    } else {
      DigitsOfDec(n);
    }
  }

  // ----- split and join -----

  /** The tokens between separators; std::sregex_token_iterator yields the same non-empty ones. */
  function Split(s: string, sep: char): (tokens: seq<string>)
    ensures tokens != []
    ensures forall i :: 0 <= i < |tokens| ==> sep !in tokens[i]
    decreases |s|
  {
    var i := Find(s, sep);
    if i == -1 then [s] else
      FindFirst(s, sep);
      [s[..i]] + Split(s[i + 1..], sep)
  }

  function Join(tokens: seq<string>, sep: char): string {
    if tokens == [] then ""
    else if |tokens| == 1 then tokens[0]
    else tokens[0] + [sep] + Join(tokens[1..], sep)
  }

  lemma SplitFirst(a: string, sep: char, b: string)
    requires sep !in a
    ensures Split(a + [sep] + b, sep) == [a] + Split(b, sep)
  {
    var s := a + [sep] + b;
    FindAt(a, sep, b);
    assert s[..|a|] == a && s[|a| + 1..] == b;
  }

  lemma Regroup(a: string, i: nat, sep: char, b: string)
    requires i < |a| && a[i] == sep
    ensures a == a[..i] + [sep] + a[i + 1..]
    ensures a + [sep] + b == a[..i] + [sep] + (a[i + 1..] + [sep] + b)
  {
  }

  lemma Associate(x: seq<string>, y: seq<string>, z: seq<string>)
    ensures (x + y) + z == x + (y + z)
  {
  }

  lemma {:induction false} SplitConcat(a: string, sep: char, b: string)
    ensures Split(a + [sep] + b, sep) == Split(a, sep) + Split(b, sep)
    decreases |a|
  {
    var i := Find(a, sep);
    if i == -1 {
      SplitFirst(a, sep, b);
    } else {
      var head, tail := a[..i], a[i + 1..];
      FindFirst(a, sep);
      Regroup(a, i, sep, b);
      SplitFirst(head, sep, tail + [sep] + b);
      SplitFirst(head, sep, tail);
      SplitConcat(tail, sep, b);
      Associate([head], Split(tail, sep), Split(b, sep));
    }
  }

  lemma {:induction false} SplitOfJoin(tokens: seq<string>, sep: char)
    requires tokens != [] && forall i :: 0 <= i < |tokens| ==> sep !in tokens[i]
    ensures Split(Join(tokens, sep), sep) == tokens
  {
    if |tokens| > 1 {
      SplitFirst(tokens[0], sep, Join(tokens[1..], sep));
      SplitOfJoin(tokens[1..], sep);
    }
  }

  lemma {:induction false} JoinFree(tokens: seq<string>, sep: char, c: char)
    requires c != sep && forall i :: 0 <= i < |tokens| ==> c !in tokens[i]
    ensures c !in Join(tokens, sep)
  {
    if |tokens| > 1 { JoinFree(tokens[1..], sep, c); }
  }

  lemma {:induction false} SplitFree(s: string, sep: char, c: char)
    requires c !in s
    ensures forall i :: 0 <= i < |Split(s, sep)| ==> c !in Split(s, sep)[i]
    decreases |s|
  {
    var i := Find(s, sep);
    if i != -1 {
      var head, rest := s[..i], s[i + 1..];
      SplitFree(rest, sep, c);
      assert Split(s, sep) == [head] + Split(rest, sep);
    }
  }
}
