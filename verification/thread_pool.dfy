/** The least-used choice of thread/thread_pool.cc.  `counts[i]` is the use count of worker i apart
    from the local handle `better`, which adds one to the worker it refers to. */
module ThreadPool {

  function UseCount(counts: seq<nat>, better: nat, i: nat): nat
    requires i < |counts|
  {
    counts[i] + if i == better then 1 else 0
  }

  predicate IsLastMinimum(counts: seq<nat>, b: nat) {
    && b < |counts|
    && (forall i :: 0 <= i < |counts| ==> counts[b] <= counts[i])
    && (forall i :: b < i < |counts| ==> counts[b] < counts[i])
  }

  /** Because the handle counts itself, a tie goes to the later worker. */
  method GetLessUsedWorker(counts: seq<nat>) returns (better: nat)
    requires counts != []
    ensures IsLastMinimum(counts, better)
  {
    better := 0;
    for i := 0 to |counts|
      invariant better < |counts| && (i == 0 ==> better == 0) && (i > 0 ==> better < i)
      invariant forall j :: 0 <= j < i ==> counts[better] <= counts[j]
      invariant forall j :: better < j < i ==> counts[better] < counts[j]
    {
      if UseCount(counts, better, better) > UseCount(counts, better, i) {
        better := i;
      }
    }
  }

  lemma LastMinimumUnique(counts: seq<nat>, a: nat, b: nat)
    requires IsLastMinimum(counts, a) && IsLastMinimum(counts, b)
    ensures a == b
  {
    assert counts[a] == counts[b];
  }

  /** Picks made in a row, each retained by its caller: every pick is the last worker of minimal use
      count at that time and adds one to it. */
  ghost predicate Picks(start: seq<nat>, picks: seq<nat>, end: seq<nat>)
    decreases |picks|
  {
    if picks == [] then end == start
    else
      var n := |picks| - 1;
      exists mid :: Picks(start, picks[..n], mid) && IsLastMinimum(mid, picks[n])
                 && end == mid[picks[n] := mid[picks[n]] + 1]
  }

  /** Use counts after i retained picks from n workers with c uses each: the last i mod n workers are
      one round ahead. */
  function After(c: nat, n: nat, i: nat): (counts: seq<nat>)
    requires n > 0
  {
    seq(n, j => c + i / n + if j >= n - i % n then 1 else 0)
  }

  lemma NextRound(n: nat, i: nat)
    requires n > 0
    ensures if i % n == n - 1 then (i + 1) / n == i / n + 1 && (i + 1) % n == 0
            else (i + 1) / n == i / n && (i + 1) % n == i % n + 1
  {
    var q, r := i / n, i % n;
    assert i == q * n + r;
    if r == n - 1 {
      assert i + 1 == (q + 1) * n;
      DivMod(q + 1, n, 0);
    } else {
      assert i + 1 == q * n + (r + 1);
      DivMod(q, n, r + 1);
    }
  }

  lemma DivMod(q: nat, n: nat, r: nat)
    requires r < n
    ensures (q * n + r) / n == q && (q * n + r) % n == r
  {
    var x := q * n + r;
    var d := q - x / n;
    assert x == n * (x / n) + x % n;
    assert d * n == q * n - n * (x / n);
    if d >= 1 {
      AtLeastOnce(d, n);
      assert false;
    } else if d <= -1 {
      AtLeastOnce(-d, n);
      assert false;
    }
  }

  lemma AtLeastOnce(d: int, n: nat)
    requires d >= 1
    ensures d * n >= n
  {
  }

  lemma PickAfter(c: nat, n: nat, i: nat)
    requires n > 0
    ensures IsLastMinimum(After(c, n, i), n - 1 - i % n)
    ensures var p := n - 1 - i % n; After(c, n, i)[p := After(c, n, i)[p] + 1] == After(c, n, i + 1)
  {
    NextRound(n, i);
  }

  /** From equal use counts, pick number i is worker n - 1 - (i mod n): strict round robin from the
      back, so the counts never differ by more than one. */
  lemma {:induction false} RoundRobin(c: nat, n: nat, picks: seq<nat>, end: seq<nat>)
    requires n > 0 && Picks(After(c, n, 0), picks, end)
    ensures end == After(c, n, |picks|)
    ensures forall i :: 0 <= i < |picks| ==> picks[i] == n - 1 - i % n
    ensures forall a, b :: 0 <= a < n && 0 <= b < n ==> end[a] <= end[b] + 1
    decreases |picks|
  {
    if picks != [] {
      var last := |picks| - 1;
      var mid :| Picks(After(c, n, 0), picks[..last], mid) && IsLastMinimum(mid, picks[last])
              && end == mid[picks[last] := mid[picks[last]] + 1];
      RoundRobin(c, n, picks[..last], mid);
      PickAfter(c, n, last);
      LastMinimumUnique(mid, picks[last], n - 1 - last % n);
      forall i | 0 <= i < |picks| ensures picks[i] == n - 1 - i % n {
        if i < last { assert picks[i] == picks[..last][i]; }
      }
    }
  }

  lemma StartIsEqual(c: nat, n: nat)
    requires n > 0
    ensures After(c, n, 0) == seq(n, _ => c)
  {
  }
}
