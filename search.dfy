/** The brute-force search over transposition offsets, stated on the sequence of
    counts it sees: `s[k]` is the count of the offset `first + k`. Both
    implementations scan the offsets upwards and keep the lowest count so far; they
    differ in what happens to the list of tied offsets when a lower count appears. */
module Search {

  /** The offsets both searches try, in the order they try them. */
  const LOWEST_OFFSET: int := -12
  const HIGHEST_OFFSET: int := 12
  const OFFSET_COUNT: int := HIGHEST_OFFSET - LOWEST_OFFSET + 1

  /** `None` stands for the start value `INT_MAX` / `Number.MAX_SAFE_INTEGER`,
      which no count reaches: the first count seen is always an improvement. */
  datatype Option<T> = None | Some(value: T)

  /** The C++ loop state: `solutions`, `indexOfLowestCount`, `lowestCount`. */
  datatype Tally = Tally(solutions: seq<int>, indexOfLowest: int, lowest: Option<int>)

  /** The JavaScript loop state: `bestIndices`, `bestCount`. */
  datatype Ranking = Ranking(bestIndices: seq<int>, bestCount: Option<int>)

  /** The values of `f` at `first`, `first + 1`, ..., `first + n - 1`. */
  function Table(f: int -> int, first: int, n: nat): (r: seq<int>)
    ensures |r| == n
  {
    if n == 0 then [] else Table(f, first, n - 1) + [f(first + n - 1)]
  }

  /** Entry `k` of a table is the value at `first + k`. */
  lemma {:induction false} TableAt(f: int -> int, first: int, n: nat, k: int)
    requires 0 <= k < n
    ensures Table(f, first, n)[k] == f(first + k)
  {
    if k < n - 1 {
      TableAt(f, first, n - 1, k);
    }
  }

  predicate StrictlyAscending(s: seq<int>) {
    forall i, j :: 0 <= i < j < |s| ==> s[i] < s[j]
  }

  /** The least count. */
  function MinOf(s: seq<int>): (m: int)
    requires |s| > 0
    ensures forall k :: 0 <= k < |s| ==> m <= s[k]
    ensures exists k :: 0 <= k < |s| && s[k] == m
  {
    if |s| == 1 then s[0]
    else
      var m := MinOf(s[..|s| - 1]);
      assert forall k :: 0 <= k < |s| - 1 ==> s[..|s| - 1][k] == s[k];
      if s[|s| - 1] < m then s[|s| - 1] else m
  }

  /** The offsets, in ascending order, whose count is `v`. */
  function OffsetsWith(s: seq<int>, v: int, first: int): (r: seq<int>)
    ensures StrictlyAscending(r)
    ensures forall x :: x in r <==> first <= x < first + |s| && s[x - first] == v
  {
    if |s| == 0 then []
    else
      var r := OffsetsWith(s[..|s| - 1], v, first);
      assert forall k :: 0 <= k < |s| - 1 ==> s[..|s| - 1][k] == s[k];
      assert forall i :: 0 <= i < |r| ==> r[i] in r && r[i] < first + |s| - 1;
      if s[|s| - 1] == v then r + [first + |s| - 1] else r
  }

  /** The C++ scan (vp-utils.cpp:87-105) as written: on a strict improvement only the
      first listed offset is erased before the new one is appended. */
  function CppScan(s: seq<int>, first: int): (r: Tally) {
    if |s| == 0 then Tally([], 0, None)
    else CppStep(CppScan(s[..|s| - 1], first), first + |s| - 1, s[|s| - 1])
  }

  /** One iteration of the C++ loop, for `offset` with count `count`. */
  function CppStep(t: Tally, offset: int, count: int): (r: Tally) {
    if t.lowest.None? || count < t.lowest.value then
      Tally((if |t.solutions| > 0 then t.solutions[1..] else []) + [offset], offset, Some(count))
    else if count == t.lowest.value then
      Tally(t.solutions + [offset], t.indexOfLowest, t.lowest)
    else
      t
  }

  /** Scanning one more count is one more step of the loop. */
  lemma CppScanSnoc(s: seq<int>, x: int, first: int)
    ensures CppScan(s + [x], first) == CppStep(CppScan(s, first), first + |s|, x)
  {
    assert (s + [x])[..|s|] == s;
  }

  /** The body of the C++ loop (vp-utils.cpp:92-104) on its three variables. */
  method CppRecord(solutions: seq<int>, indexOfLowestCount: int, lowest: Option<int>, i: int, currentCount: int)
    returns (solutions': seq<int>, indexOfLowestCount': int, lowest': Option<int>)
    ensures Tally(solutions', indexOfLowestCount', lowest') == CppStep(Tally(solutions, indexOfLowestCount, lowest), i, currentCount)
  {
    solutions', indexOfLowestCount', lowest' := solutions, indexOfLowestCount, lowest;
    if lowest.None? || currentCount < lowest.value {
      if |solutions'| > 0 {
        solutions' := solutions'[1..];
      }
      indexOfLowestCount' := i;
      lowest' := Some(currentCount);
      solutions' := solutions' + [i];
    } else if currentCount == lowest.value {
      solutions' := solutions' + [i];
    }
  }

  /** The JavaScript scan (app.js:122-145): on a strict improvement the list is
      cleared before the new offset is appended. */
  function ClearedScan(s: seq<int>, first: int): (r: Ranking) {
    if |s| == 0 then Ranking([], None)
    else ClearedStep(ClearedScan(s[..|s| - 1], first), first + |s| - 1, s[|s| - 1])
  }

  /** One iteration of the JavaScript loop, for `offset` with count `count`. */
  function ClearedStep(t: Ranking, offset: int, count: int): (r: Ranking) {
    if t.bestCount.None? || count < t.bestCount.value then
      Ranking([offset], Some(count))
    else if count == t.bestCount.value then
      Ranking(t.bestIndices + [offset], t.bestCount)
    else
      t
  }

  lemma ClearedScanSnoc(s: seq<int>, x: int, first: int)
    ensures ClearedScan(s + [x], first) == ClearedStep(ClearedScan(s, first), first + |s|, x)
  {
    assert (s + [x])[..|s|] == s;
  }

  /** The body of the JavaScript loop (app.js:131-141) on its two variables. */
  method ClearedRecord(bestIndices: seq<int>, bestCount: Option<int>, transposeAmt: int, count: int)
    returns (bestIndices': seq<int>, bestCount': Option<int>)
    ensures Ranking(bestIndices', bestCount') == ClearedStep(Ranking(bestIndices, bestCount), transposeAmt, count)
  {
    bestIndices', bestCount' := bestIndices, bestCount;
    if bestCount.None? || count < bestCount.value {
      bestIndices' := [];
      bestIndices' := bestIndices' + [transposeAmt];
      bestCount' := Some(count);
    } else if count == bestCount.value {
      bestIndices' := bestIndices' + [transposeAmt];
    }
  }

  /** Scanning a table one entry further is one more step of the JavaScript loop. */
  lemma ClearedTableStep(f: int -> int, first: int, n: nat)
    ensures ClearedScan(Table(f, first, n + 1), first)
      == ClearedStep(ClearedScan(Table(f, first, n), first), first + n, f(first + n))
  {
    ClearedScanSnoc(Table(f, first, n), f(first + n), first);
  }

  /** The C++ scan ends with the least count and, as `indexOfLowestCount`, the
      smallest offset that attains it (only a strict `<` moves it). */
  lemma {:induction false} CppScanFindsMinimum(s: seq<int>, first: int)
    requires |s| > 0
    ensures CppScan(s, first).lowest == Some(MinOf(s))
    ensures var best := CppScan(s, first).indexOfLowest;
      && first <= best < first + |s|
      && s[best - first] == MinOf(s)
      && forall k :: 0 <= k < best - first ==> s[k] > MinOf(s)
  {
    var p := s[..|s| - 1];
    assert forall k :: 0 <= k < |p| ==> p[k] == s[k];
    if |s| > 1 {
      CppScanFindsMinimum(p, first);
    }
  }

  /** Everything the C++ search promises about its final state, in one place. */
  lemma CppScanOutcome(s: seq<int>, first: int)
    requires |s| > 0
    ensures var t := CppScan(s, first);
      && t.lowest == Some(MinOf(s))
      && first <= t.indexOfLowest < first + |s|
      && s[t.indexOfLowest - first] == MinOf(s)
      && (forall k :: 0 <= k < t.indexOfLowest - first ==> MinOf(s) < s[k])
      && EndsWith(t.solutions, OffsetsWith(s, MinOf(s), first))
  {
    CppScanFindsMinimum(s, first);
    CppScanEndsWithTies(s, first);
  }

  /** `b` is a suffix of `a`. */
  predicate EndsWith(a: seq<int>, b: seq<int>) {
    |a| >= |b| && a[|a| - |b|..] == b
  }

  /** The C++ list holds ascending offsets of the scanned range. */
  lemma {:induction false} CppScanAscending(s: seq<int>, first: int)
    ensures var sol := CppScan(s, first).solutions;
      && StrictlyAscending(sol)
      && (forall x :: x in sol ==> first <= x < first + |s|)
  {
    if |s| > 0 {
      var p, last := s[..|s| - 1], first + |s| - 1;
      var t := CppScan(p, first);
      assert CppScan(s, first) == CppStep(t, last, s[|s| - 1]);
      CppScanAscending(p, first);
      var sol := t.solutions;
      assert forall i :: 0 <= i < |sol| ==> sol[i] in sol;
      if t.lowest.None? || s[|s| - 1] < t.lowest.value {
        var rest := if |sol| > 0 then sol[1..] else [];
        assert forall i :: 0 <= i < |rest| ==> rest[i] in sol;
        AppendAscending(rest, last);
      } else if s[|s| - 1] == t.lowest.value {
        AppendAscending(sol, last);
      }
    }
  }

  /** Appending a value above every element keeps a list ascending. */
  lemma AppendAscending(r: seq<int>, x: int)
    requires StrictlyAscending(r) && forall y :: y in r ==> y < x
    ensures StrictlyAscending(r + [x])
  {
    assert forall i :: 0 <= i < |r| ==> r[i] in r;
  }

  /** No offset has a count that does not occur. */
  lemma {:induction false} NoOffsetWith(s: seq<int>, v: int, first: int)
    requires forall k :: 0 <= k < |s| ==> s[k] > v
    ensures OffsetsWith(s, v, first) == []
  {
    if |s| > 0 {
      NoOffsetWith(s[..|s| - 1], v, first);
    }
  }

  /** How the list of tied offsets changes when one more count is scanned. */
  lemma TiesStep(s: seq<int>, first: int)
    requires |s| > 1
    ensures var p, last := s[..|s| - 1], first + |s| - 1;
      && (s[|s| - 1] < MinOf(p) ==> MinOf(s) == s[|s| - 1] && OffsetsWith(s, MinOf(s), first) == [last])
      && (s[|s| - 1] == MinOf(p) ==> MinOf(s) == MinOf(p) && OffsetsWith(s, MinOf(s), first) == OffsetsWith(p, MinOf(p), first) + [last])
      && (s[|s| - 1] > MinOf(p) ==> MinOf(s) == MinOf(p) && OffsetsWith(s, MinOf(s), first) == OffsetsWith(p, MinOf(p), first))
  {
    var p := s[..|s| - 1];
    var m := MinOf(p);
    if s[|s| - 1] < m {
      NoOffsetWith(p, s[|s| - 1], first);
    }
  }

  /** The C++ list ends with every offset that attains the least count, ascending.
      The entries before them are left over from earlier, higher counts. */
  lemma {:induction false} CppScanEndsWithTies(s: seq<int>, first: int)
    requires |s| > 0
    ensures EndsWith(CppScan(s, first).solutions, OffsetsWith(s, MinOf(s), first))
  {
    var ties := OffsetsWith(s, MinOf(s), first);
    if |s| == 1 {
      OnlyElement(ties, first);
    } else {
      var p, last := s[..|s| - 1], first + |s| - 1;
      var t := CppScan(p, first);
      assert CppScan(s, first) == CppStep(t, last, s[|s| - 1]);
      CppScanEndsWithTies(p, first);
      CppScanFindsMinimum(p, first);
      TiesStep(s, first);
      var a, b := t.solutions, OffsetsWith(p, MinOf(p), first);
      if s[|s| - 1] < MinOf(p) {
        var rest := if |a| > 0 then a[1..] else [];
        assert (rest + [last])[|rest + [last]| - 1..] == [last];
      } else if s[|s| - 1] == MinOf(p) {
        assert (a + [last])[|a + [last]| - |b + [last]|..] == a[|a| - |b|..] + [last];
      }
    }
  }

  /** A concrete scan that leaves a stale offset in the C++ list: counts 1, 1, 0 for
      the offsets -12, -11, -10 leave `[-11, -10]`, although only -10 attains the
      least count. */
  lemma CppScanKeepsStale()
    ensures CppScan([1, 1, 0], LOWEST_OFFSET).solutions == [-11, -10]
    ensures OffsetsWith([1, 1, 0], MinOf([1, 1, 0]), LOWEST_OFFSET) == [-10]
  {
    assert [1, 1, 0][..2] == [1, 1];
    assert [1, 1][..1] == [1];
    assert [1][..0] == [];
    assert CppScan([1], LOWEST_OFFSET) == Tally([-12], -12, Some(1));
    assert CppScan([1, 1], LOWEST_OFFSET) == Tally([-12, -11], -12, Some(1));
    var ties := OffsetsWith([1, 1, 0], MinOf([1, 1, 0]), LOWEST_OFFSET);
    assert MinOf([1, 1, 0]) == 0;
    assert -10 in ties;
    assert forall x :: x in ties ==> x == -10;
  }

  /** The JavaScript scan ends with exactly the offsets that attain the least count,
      ascending, and with that count. */
  lemma {:induction false} ClearedScanExact(s: seq<int>, first: int)
    requires |s| > 0
    ensures ClearedScan(s, first).bestCount == Some(MinOf(s))
    ensures ClearedScan(s, first).bestIndices == OffsetsWith(s, MinOf(s), first)
  {
    if |s| == 1 {
      OnlyElement(OffsetsWith(s, MinOf(s), first), first);
    } else {
      ClearedScanExact(s[..|s| - 1], first);
      TiesStep(s, first);
    }
  }

  /** Everything the JavaScript search promises about its result, in one place: the
      least count, and a non-empty ascending list of exactly the offsets that
      attain it. */
  lemma ClearedScanOutcome(s: seq<int>, first: int)
    requires |s| > 0
    ensures var r := ClearedScan(s, first);
      && r.bestCount == Some(MinOf(s))
      && r.bestIndices == OffsetsWith(s, MinOf(s), first)
      && |r.bestIndices| > 0 && StrictlyAscending(r.bestIndices)
      && (forall x :: x in r.bestIndices <==> first <= x < first + |s| && s[x - first] == MinOf(s))
  {
    ClearedScanExact(s, first);
    TiesNonEmpty(s, first);
  }

  /** An ascending list whose only value is `x`, and which holds it, is `[x]`. */
  lemma OnlyElement(r: seq<int>, x: int)
    requires StrictlyAscending(r) && x in r
    requires forall y :: y in r ==> y == x
    ensures r == [x]
  {
    assert r[0] in r && r[|r| - 1] in r;
  }

  /** The least count is attained somewhere, so the list of ties is never empty. */
  lemma TiesNonEmpty(s: seq<int>, first: int)
    requires |s| > 0
    ensures |OffsetsWith(s, MinOf(s), first)| > 0
  {
    var k :| 0 <= k < |s| && s[k] == MinOf(s);
    assert first + k in OffsetsWith(s, MinOf(s), first);
  }
}
