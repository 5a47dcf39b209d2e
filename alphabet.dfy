/** The piano-key alphabet of VP sheets, the string searches both implementations
    use on it, and the character counts the scorers are built from. */
module Alphabet {

  /** One character per piano key, lowest key first: a key's position is its index. */
  const VP_CHARS: string := "1!2@34$5%6^78*9(0qQwWeErtTyYuiIoOpPasSdDfgGhHjJklLzZxcCvVbBnm"

  /** The keys that need a sharp or a flat. */
  const ACCIDENTALS: string := "!@$%^*(QWETYIOPSDGHJLZCVB"

  /** Index of the highest key. */
  const TOP_KEY: int := |VP_CHARS| - 1

  /** Lines holding this marker are never transposed. */
  const TRANSPOSE_MARKER: string := "Transp"

  /** Lines holding this marker are skipped by the accidental counter. */
  const ACCIDENTAL_MARKER: string := "Transpos"

  /** No character occurs twice in `s`. */
  predicate Distinct(s: string) {
    forall i, j :: 0 <= i < j < |s| ==> s[i] != s[j]
  }

  /** `s.find(c)` / `s.indexOf(c)`: the first position of `c` in `s`, or -1. */
  function IndexOf(s: string, c: char): (r: int)
    ensures -1 <= r < |s|
    ensures 0 <= r ==> s[r] == c
  {
    IndexFrom(s, c, 0)
  }

  /** `s.find(c, from)`: the first position at or after `from` holding `c`, or -1. */
  function IndexFrom(s: string, c: char, from: nat): (r: int)
    ensures r == -1 || (from <= r < |s| && s[r] == c)
    decreases |s| - from
  {
    if from >= |s| then -1
    else if s[from] == c then from
    else IndexFrom(s, c, from + 1)
  }

  /** `IndexOf` finds `c` exactly when it occurs, and then at its first occurrence.
      (Kept out of the function's contract: on the 61-key alphabet it is costly to
      have at every lookup.) */
  lemma IndexOfFirst(s: string, c: char)
    ensures IndexOf(s, c) == -1 <==> c !in s
    ensures 0 <= IndexOf(s, c) ==> c !in s[..IndexOf(s, c)]
  {
    IndexFromFirst(s, c, 0);
  }

  lemma {:induction false} IndexFromFirst(s: string, c: char, from: nat)
    ensures var r := IndexFrom(s, c, from);
      && (r == -1 <==> forall k :: from <= k < |s| ==> s[k] != c)
      && (0 <= r ==> forall k :: from <= k < r ==> s[k] != c)
    decreases |s| - from
  {
    if from < |s| && s[from] != c {
      IndexFromFirst(s, c, from + 1);
    }
  }

  /** The substring search succeeds: `pat` occurs in `s` as a contiguous substring. */
  predicate Contains(s: string, pat: string) {
    ContainsFrom(s, pat, 0)
  }

  /** `pat` occurs in `s` at some position at or after `from`. */
  predicate ContainsFrom(s: string, pat: string, from: nat)
    decreases |s| - from
  {
    from + |pat| <= |s| && (OccursAt(s, pat, from) || ContainsFrom(s, pat, from + 1))
  }

  /** `pat` occurs in `s` starting at position `i`. */
  predicate OccursAt(s: string, pat: string, i: int) {
    0 <= i <= |s| - |pat| && forall k :: 0 <= k < |pat| ==> s[i + k] == pat[k]
  }

  /** The search finds `pat` exactly when it occurs somewhere. */
  lemma ContainsOccurs(s: string, pat: string)
    ensures Contains(s, pat) <==> exists i :: OccursAt(s, pat, i)
  {
    ContainsFromOccurs(s, pat, 0);
  }

  lemma {:induction false} ContainsFromOccurs(s: string, pat: string, from: nat)
    ensures ContainsFrom(s, pat, from) <==> exists i :: from <= i && OccursAt(s, pat, i)
    decreases |s| - from
  {
    if from + |pat| <= |s| {
      ContainsFromOccurs(s, pat, from + 1);
      if !OccursAt(s, pat, from) {
        forall i | from <= i && OccursAt(s, pat, i) ensures from + 1 <= i {}
      }
    } else {
      forall i | from <= i ensures !OccursAt(s, pat, i) {}
    }
  }

  /** Number of occurrences of `c` in `s`. */
  function CountChar(s: string, c: char): (n: nat)
    ensures n <= |s|
  {
    if |s| == 0 then 0
    else CountChar(s[..|s| - 1], c) + (if s[|s| - 1] == c then 1 else 0)
  }

  /** A non-empty sequence is its front followed by its last element. */
  lemma SplitLast<T>(s: seq<T>)
    requires |s| > 0
    ensures s == s[..|s| - 1] + [s[|s| - 1]]
  {
  }

  /** The character plays a key: looking it up in `VP_CHARS` finds it. */
  predicate IsKey(c: char) {
    IndexOf(VP_CHARS, c) != -1
  }

  /** The index lookup recognises exactly the characters of `VP_CHARS`. */
  lemma IsKeyMeans(c: char)
    ensures IsKey(c) <==> c in VP_CHARS
  {
    IndexOfFirst(VP_CHARS, c);
  }

  /** The placeholder `?` and the line break are not keys: a placeholder never
      stands for a note, and no key is ever written as a line break. */
  lemma LayoutIsNotKey(c: char)
    requires c == '?' || c == '\n'
    ensures !IsKey(c)
    ensures forall j :: 0 <= j < |VP_CHARS| ==> VP_CHARS[j] != c
  {
    LowHalfLacks(c);
    HighHalfLacks(c);
    VpCharsHalves();
    IsKeyMeans(c);
  }

  lemma LowHalfLacks(c: char)
    requires c == '?' || c == '\n'
    ensures c !in "1!2@34$5%6^78*9(0qQwWeErtTyYuiIo"
  {}

  lemma HighHalfLacks(c: char)
    requires c == '?' || c == '\n'
    ensures c !in "OpPasSdDfgGhHjJklLzZxcCvVbBnm"
  {}

  /** The character is a sharp or flat key: looking it up in `ACCIDENTALS` finds it. */
  predicate IsAccidental(c: char) {
    IndexOf(ACCIDENTALS, c) != -1
  }

  /** Number of characters of `s` that are accidentals. */
  function AccidentalChars(s: string): (n: nat)
    ensures n <= |s|
  {
    if |s| == 0 then 0
    else AccidentalChars(s[..|s| - 1]) + (if IsAccidental(s[|s| - 1]) then 1 else 0)
  }

  /** `c` is counted in `s` exactly when it occurs there. */
  lemma {:induction false} CountCharZero(s: string, c: char)
    ensures CountChar(s, c) == 0 <==> c !in s
  {
    if |s| > 0 {
      CountCharZero(s[..|s| - 1], c);
      assert s == s[..|s| - 1] + [s[|s| - 1]];
    }
  }

  /** The index lookup recognises exactly the characters of `ACCIDENTALS`. */
  lemma IsAccidentalMeans(c: char)
    ensures IsAccidental(c) <==> c in ACCIDENTALS
  {
    IndexOfFirst(ACCIDENTALS, c);
  }

  /** A string has no accidental exactly when none of its characters is one. */
  lemma {:induction false} AccidentalCharsZero(s: string)
    ensures AccidentalChars(s) == 0 <==> forall k :: 0 <= k < |s| ==> !IsAccidental(s[k])
  {
    if |s| > 0 {
      AccidentalCharsZero(s[..|s| - 1]);
      assert forall k :: 0 <= k < |s| - 1 ==> s[..|s| - 1][k] == s[k];
    }
  }

  lemma {:induction false} CountCharAppend(a: string, b: string, c: char)
    ensures CountChar(a + b, c) == CountChar(a, c) + CountChar(b, c)
    decreases |b|
  {
    if |b| == 0 {
      assert a + b == a;
    } else {
      assert (a + b)[..|a + b| - 1] == a + b[..|b| - 1];
      CountCharAppend(a, b[..|b| - 1], c);
    }
  }

  lemma {:induction false} AccidentalCharsAppend(a: string, b: string)
    ensures AccidentalChars(a + b) == AccidentalChars(a) + AccidentalChars(b)
    decreases |b|
  {
    if |b| == 0 {
      assert a + b == a;
    } else {
      assert (a + b)[..|a + b| - 1] == a + b[..|b| - 1];
      AccidentalCharsAppend(a, b[..|b| - 1]);
    }
  }

  // ---------------------------------------------------------------------------
  // The alphabet has no repeated character, so `find` is a bijection onto 0..60.
  // The solver cannot take all 1830 pairs at once; the literal is cut into
  // pieces whose pairs it can check.

  predicate Apart(a: string, b: string) {
    forall i, j :: 0 <= i < |a| && 0 <= j < |b| ==> a[i] != b[j]
  }

  lemma DistinctConcat(a: string, b: string)
    requires Distinct(a) && Distinct(b) && Apart(a, b)
    ensures Distinct(a + b)
  {
    forall i, j | 0 <= i < j < |a + b| ensures (a + b)[i] != (a + b)[j] {
      if j >= |a| {
        assert (a + b)[j] == b[j - |a|];
        if i >= |a| {
          assert (a + b)[i] == b[i - |a|];
        }
      }
    }
  }

  lemma ApartConcat(a: string, b: string, c: string, d: string)
    requires Apart(a, c) && Apart(a, d) && Apart(b, c) && Apart(b, d)
    ensures Apart(a + b, c + d)
  {
    forall i, j | 0 <= i < |a + b| && 0 <= j < |c + d| ensures (a + b)[i] != (c + d)[j] {
      if j >= |c| {
        assert (c + d)[j] == d[j - |c|];
      }
      if i >= |a| {
        assert (a + b)[i] == b[i - |a|];
      }
    }
  }

  lemma Chunk0Distinct() ensures Distinct("1!2@34$5%6^78*9(") {}
  lemma Chunk1Distinct() ensures Distinct("0qQwWeErtTyYuiIo") {}
  lemma Apart01() ensures Apart("1!2@34$5%6^78*9(", "0qQwWeErtTyYuiIo") {}

  lemma LowHalfDistinct() ensures Distinct("1!2@34$5%6^78*9(0qQwWeErtTyYuiIo") {
    Chunk0Distinct(); Chunk1Distinct(); Apart01();
    assert "1!2@34$5%6^78*9(0qQwWeErtTyYuiIo" == "1!2@34$5%6^78*9(" + "0qQwWeErtTyYuiIo";
    DistinctConcat("1!2@34$5%6^78*9(", "0qQwWeErtTyYuiIo");
  }
  lemma HighHalfDistinct() ensures Distinct("OpPasSdDfgGhHjJklLzZxcCvVbBnm") {}
  lemma Apart02() ensures Apart("1!2@34$5%6^78*9(", "OpPasSdDfgGhHjJk") {}
  lemma Apart03() ensures Apart("1!2@34$5%6^78*9(", "lLzZxcCvVbBnm") {}
  lemma Apart12() ensures Apart("0qQwWeErtTyYuiIo", "OpPasSdDfgGhHjJk") {}
  lemma Apart13() ensures Apart("0qQwWeErtTyYuiIo", "lLzZxcCvVbBnm") {}

  lemma HalvesApart() ensures Apart("1!2@34$5%6^78*9(0qQwWeErtTyYuiIo", "OpPasSdDfgGhHjJklLzZxcCvVbBnm") {
    Apart02(); Apart03(); Apart12(); Apart13();
    assert "1!2@34$5%6^78*9(0qQwWeErtTyYuiIo" == "1!2@34$5%6^78*9(" + "0qQwWeErtTyYuiIo";
    assert "OpPasSdDfgGhHjJklLzZxcCvVbBnm" == "OpPasSdDfgGhHjJk" + "lLzZxcCvVbBnm";
    ApartConcat("1!2@34$5%6^78*9(", "0qQwWeErtTyYuiIo", "OpPasSdDfgGhHjJk", "lLzZxcCvVbBnm");
  }

  lemma VpCharsHalves() ensures VP_CHARS == "1!2@34$5%6^78*9(0qQwWeErtTyYuiIo" + "OpPasSdDfgGhHjJklLzZxcCvVbBnm" {}

  lemma VpCharsDistinct()
    ensures |VP_CHARS| == 61 && Distinct(VP_CHARS)
  {
    LowHalfDistinct(); HighHalfDistinct(); HalvesApart(); VpCharsHalves();
    DistinctConcat("1!2@34$5%6^78*9(0qQwWeErtTyYuiIo", "OpPasSdDfgGhHjJklLzZxcCvVbBnm");
  }

  /** Looking a key's character up again gives back the key's index. */
  lemma KeyIndex(j: int)
    requires 0 <= j < |VP_CHARS|
    ensures IndexOf(VP_CHARS, VP_CHARS[j]) == j
  {
    VpCharsDistinct();
    IndexOfFirst(VP_CHARS, VP_CHARS[j]);
  }

  lemma Accidentals0() ensures forall c :: c in "!@$%^*(" ==> c in "1!2@34$5%6^78*9(0qQwWeErtTyYuiIo" {}
  lemma Accidentals1() ensures forall c :: c in "QWETYI" ==> c in "1!2@34$5%6^78*9(0qQwWeErtTyYuiIo" {}

  lemma LowHalfAreKeys() ensures forall c :: c in "1!2@34$5%6^78*9(0qQwWeErtTyYuiIo" ==> c in VP_CHARS {
    VpCharsHalves();
    PrefixMembers("1!2@34$5%6^78*9(0qQwWeErtTyYuiIo", "OpPasSdDfgGhHjJklLzZxcCvVbBnm");
  }

  lemma PrefixMembers(a: string, b: string)
    ensures forall c :: c in a ==> c in a + b
  {
    assert forall i :: 0 <= i < |a| ==> (a + b)[i] == a[i];
  }
  lemma Accidentals2() ensures forall c :: c in "OPSDGHJ" ==> c in VP_CHARS {}
  lemma Accidentals3() ensures forall c :: c in "LZCVB" ==> c in VP_CHARS {}

  /** Every accidental is itself a key. */
  lemma AccidentalsAreKeys()
    ensures forall c :: c in ACCIDENTALS ==> c in VP_CHARS
  {
    Accidentals0(); Accidentals1(); Accidentals2(); Accidentals3(); LowHalfAreKeys();
    assert ACCIDENTALS == "!@$%^*(" + "QWETYI" + "OPSDGHJ" + "LZCVB";
  }

  /** A line skipped by the accidental counter is also one the transposer leaves alone. */
  lemma AccidentalMarkerHasTransposeMarker(s: string)
    requires Contains(s, ACCIDENTAL_MARKER)
    ensures Contains(s, TRANSPOSE_MARKER)
  {
    MarkerFrom(s, 0);
  }

  lemma {:induction false} MarkerFrom(s: string, from: nat)
    requires ContainsFrom(s, ACCIDENTAL_MARKER, from)
    ensures ContainsFrom(s, TRANSPOSE_MARKER, from)
    decreases |s| - from
  {
    if OccursAt(s, ACCIDENTAL_MARKER, from) {
      assert forall k :: 0 <= k < |TRANSPOSE_MARKER| ==> TRANSPOSE_MARKER[k] == ACCIDENTAL_MARKER[k];
    } else {
      MarkerFrom(s, from + 1);
    }
  }
}
