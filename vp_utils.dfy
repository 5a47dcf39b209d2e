/** The command-line transposer (vp-utils.cpp). The per-line and per-file operations
    take the range `[minKey, maxKey]` and the out-of-range policy `oobHandling` as
    parameters; `Session` below holds them as the program's globals, together with
    the lines of the input sheet and of the output file. Policy 1 drops an
    out-of-range note (as does any value the switch has no case for), 2 moves it to
    the nearest octave, 3 writes `?` in its place. */
module VpUtils {
  import opened Alphabet
  import opened Octaves
  import opened Search

  /** What every `VP_CHARS[...]` access of the transposer needs: the range holds
      only real keys, and for policy 2 it spans more than an octave (all the ranges
      the program sets, full and 3-octave, do). */
  predicate Playable(minKey: int, maxKey: int, oobHandling: int) {
    0 <= minKey && maxKey <= TOP_KEY && (oobHandling == 2 ==> minKey + 12 <= maxKey)
  }

  // ---------------------------------------------------------------------------
  // transposeLine (vp-utils.cpp:192-240)

  /** What one key at `index` becomes. */
  function KeyImage(index: int, noteAmount: int, minKey: int, maxKey: int, oobHandling: int): (r: string)
    requires Playable(minKey, maxKey, oobHandling)
  {
    var newIndex := index + noteAmount;
    if minKey <= newIndex <= maxKey then [VP_CHARS[newIndex]]
    else if oobHandling == 2 then
      CppWrapLands(newIndex, minKey, maxKey);
      [VP_CHARS[CppWrap(newIndex, minKey, maxKey)]]
    else if oobHandling == 3 then "?"
    else ""
  }

  /** What one character becomes: a non-key is copied. */
  function CharImage(c: char, noteAmount: int, minKey: int, maxKey: int, oobHandling: int): (r: string)
    requires Playable(minKey, maxKey, oobHandling)
  {
    var indexInPiano := IndexOf(VP_CHARS, c);
    if indexInPiano == -1 then [c]
    else KeyImage(indexInPiano, noteAmount, minKey, maxKey, oobHandling)
  }

  /** The characters of `s` transposed one after the other. */
  function TransposedChars(s: string, noteAmount: int, minKey: int, maxKey: int, oobHandling: int): (r: string)
    requires Playable(minKey, maxKey, oobHandling)
  {
    if |s| == 0 then ""
    else TransposedChars(s[..|s| - 1], noteAmount, minKey, maxKey, oobHandling)
         + CharImage(s[|s| - 1], noteAmount, minKey, maxKey, oobHandling)
  }

  /** A line transposed by `noteAmount`; an annotation line is kept as it is. */
  function TransposedLine(noteAmount: int, line: string, minKey: int, maxKey: int, oobHandling: int): (r: string)
    requires Playable(minKey, maxKey, oobHandling)
  {
    if Contains(line, TRANSPOSE_MARKER) then line
    else TransposedChars(line, noteAmount, minKey, maxKey, oobHandling)
  }

  method TransposeLine(noteAmount: int, line: string, minKey: int, maxKey: int, oobHandling: int)
    returns (result: string)
    requires Playable(minKey, maxKey, oobHandling)
    ensures result == TransposedLine(noteAmount, line, minKey, maxKey, oobHandling)
    ensures Contains(line, TRANSPOSE_MARKER) ==> result == line
  {
    result := "";
    if Contains(line, TRANSPOSE_MARKER) {
      return line;
    }
    for i := 0 to |line|
      invariant result == TransposedChars(line[..i], noteAmount, minKey, maxKey, oobHandling)
    {
      assert line[..i + 1][..i] == line[..i];
      var image := TransposeChar(line[i], noteAmount, minKey, maxKey, oobHandling);
      result := result + image;
    }
    assert line[..|line|] == line;
  }

  /** The body of `transposeLine`'s loop: what it appends for one character. */
  method TransposeChar(c: char, noteAmount: int, minKey: int, maxKey: int, oobHandling: int)
    returns (image: string)
    requires Playable(minKey, maxKey, oobHandling)
    ensures image == CharImage(c, noteAmount, minKey, maxKey, oobHandling)
  {
    var indexInPiano := IndexOf(VP_CHARS, c);
    if indexInPiano == -1 {
      return [c];
    }
    image := TransposeKey(indexInPiano, noteAmount, minKey, maxKey, oobHandling);
  }

  /** The rest of the loop body, for a key at `indexInPiano`. */
  method TransposeKey(indexInPiano: int, noteAmount: int, minKey: int, maxKey: int, oobHandling: int)
    returns (image: string)
    requires Playable(minKey, maxKey, oobHandling) && 0 <= indexInPiano < |VP_CHARS|
    ensures image == KeyImage(indexInPiano, noteAmount, minKey, maxKey, oobHandling)
  {
    var newIndex := indexInPiano + noteAmount;
    if newIndex >= minKey && newIndex <= maxKey {
      image := [VP_CHARS[newIndex]];
    } else {
      image := "";
      match oobHandling {
        case 2 =>
          newIndex := NearestOctave(newIndex, minKey, maxKey);
          image := [VP_CHARS[newIndex]];
        case 3 =>
          image := "?";
        case _ =>
      }
    }
  }

  /** The two loops of policy 2: step down an octave while the index is at or above
      `maxKey`, then up while it is below `minKey`. */
  method NearestOctave(index: int, minKey: int, maxKey: int) returns (newIndex: int)
    requires minKey + 12 <= maxKey && (index < minKey || index > maxKey)
    ensures newIndex == CppWrap(index, minKey, maxKey)
    ensures minKey <= newIndex < maxKey && (newIndex - index) % 12 == 0
  {
    CppWrapLands(index, minKey, maxKey);
    newIndex := index;
    while newIndex >= maxKey
      invariant StepDown(newIndex, maxKey) == StepDown(index, maxKey)
      decreases newIndex - maxKey
    {
      newIndex := newIndex - 12;
    }
    while newIndex < minKey
      invariant StepUp(newIndex, minKey) == CppWrap(index, minKey, maxKey)
      decreases minKey - newIndex
    {
      newIndex := newIndex + 12;
    }
  }

  // ---------------------------------------------------------------------------
  // transposeFile (vp-utils.cpp:243-259), with the file as its list of lines

  /** `std::to_string` of a natural number: its decimal digits, most significant
      first, with no leading zero. */
  function NatToString(n: nat): (r: string)
  {
    (if n < 10 then "" else NatToString(n / 10)) + [Digit(n % 10)]
  }

  /** The character of decimal digit `d`. */
  function Digit(d: int): (r: char)
    requires 0 <= d < 10
  {
    ('0' as int + d) as char
  }

  /** `std::to_string` of an integer. */
  function IntToString(i: int): (r: string) {
    if i < 0 then "-" + NatToString(-i) else NatToString(i)
  }

  /** The number written in the header: a `+` when it is positive, then `to_string`. */
  function SignedText(v: int): (r: string) {
    (if v > 0 then "+" else "") + IntToString(v)
  }

  /** The two lines written before the sheet (`"<signed -amt> Transposition\n\n"`),
      none when `amt` is 0. */
  function HeaderLines(amt: int): (r: seq<string>) {
    if amt != 0 then [SignedText(-amt) + " Transposition", ""] else []
  }

  /** The output file written for `sheet`: the header, then each line transposed. */
  function TransposedFile(sheet: seq<string>, amt: int, minKey: int, maxKey: int, oobHandling: int): (out: seq<string>)
    requires Playable(minKey, maxKey, oobHandling)
  {
    if |sheet| == 0 then HeaderLines(amt)
    else TransposedFile(sheet[..|sheet| - 1], amt, minKey, maxKey, oobHandling)
         + [TransposedLine(amt, sheet[|sheet| - 1], minKey, maxKey, oobHandling)]
  }

  method TransposeFile(sheet: seq<string>, amt: int, minKey: int, maxKey: int, oobHandling: int)
    returns (output: seq<string>)
    requires Playable(minKey, maxKey, oobHandling)
    ensures output == TransposedFile(sheet, amt, minKey, maxKey, oobHandling)
  {
    output := HeaderLines(amt);
    for k := 0 to |sheet|
      invariant output == TransposedFile(sheet[..k], amt, minKey, maxKey, oobHandling)
    {
      assert sheet[..k + 1][..k] == sheet[..k];
      var line := TransposeLine(amt, sheet[k], minKey, maxKey, oobHandling);
      output := output + [line];
    }
    assert sheet[..|sheet|] == sheet;
  }

  /** The output file starts with the header and then has one line per input line. */
  lemma {:induction false} TransposedFileHeader(sheet: seq<string>, amt: int, minKey: int, maxKey: int, oobHandling: int)
    requires Playable(minKey, maxKey, oobHandling)
    ensures var out, h := TransposedFile(sheet, amt, minKey, maxKey, oobHandling), HeaderLines(amt);
      |out| == |h| + |sheet| && out[..|h|] == h
  {
    if |sheet| > 0 {
      var p := sheet[..|sheet| - 1];
      TransposedFileHeader(p, amt, minKey, maxKey, oobHandling);
      var q := TransposedFile(p, amt, minKey, maxKey, oobHandling);
      var x := TransposedLine(amt, sheet[|sheet| - 1], minKey, maxKey, oobHandling);
      assert TransposedFile(sheet, amt, minKey, maxKey, oobHandling) == q + [x];
      assert (q + [x])[..|HeaderLines(amt)|] == q[..|HeaderLines(amt)|];
    }
  }

  /** Line `k` of the sheet comes out, transposed, right after the header. */
  lemma {:induction false} TransposedFileLine(sheet: seq<string>, k: int, amt: int, minKey: int, maxKey: int, oobHandling: int)
    requires Playable(minKey, maxKey, oobHandling) && 0 <= k < |sheet|
    ensures |TransposedFile(sheet, amt, minKey, maxKey, oobHandling)| == |HeaderLines(amt)| + |sheet|
    ensures TransposedFile(sheet, amt, minKey, maxKey, oobHandling)[|HeaderLines(amt)| + k]
      == TransposedLine(amt, sheet[k], minKey, maxKey, oobHandling)
    decreases |sheet|
  {
    TransposedFileHeader(sheet, amt, minKey, maxKey, oobHandling);
    var p := sheet[..|sheet| - 1];
    TransposedFileHeader(p, amt, minKey, maxKey, oobHandling);
    if k < |p| {
      TransposedFileLine(p, k, amt, minKey, maxKey, oobHandling);
      TransposedFileFront(sheet, k, amt, minKey, maxKey, oobHandling);
    } else {
      TransposedFileLast(sheet, amt, minKey, maxKey, oobHandling);
    }
  }

  lemma TransposedFileLast(sheet: seq<string>, amt: int, minKey: int, maxKey: int, oobHandling: int)
    requires Playable(minKey, maxKey, oobHandling) && |sheet| > 0
    requires |TransposedFile(sheet[..|sheet| - 1], amt, minKey, maxKey, oobHandling)| == |HeaderLines(amt)| + |sheet| - 1
    ensures var out := TransposedFile(sheet, amt, minKey, maxKey, oobHandling);
      |HeaderLines(amt)| + |sheet| - 1 < |out|
      && out[|HeaderLines(amt)| + |sheet| - 1] == TransposedLine(amt, sheet[|sheet| - 1], minKey, maxKey, oobHandling)
  {
    var q := TransposedFile(sheet[..|sheet| - 1], amt, minKey, maxKey, oobHandling);
    var x := TransposedLine(amt, sheet[|sheet| - 1], minKey, maxKey, oobHandling);
    assert TransposedFile(sheet, amt, minKey, maxKey, oobHandling) == q + [x];
    assert (q + [x])[|q|] == x;
  }

  lemma TransposedFileFront(sheet: seq<string>, k: int, amt: int, minKey: int, maxKey: int, oobHandling: int)
    requires Playable(minKey, maxKey, oobHandling) && 0 <= k < |sheet| - 1
    requires var q := TransposedFile(sheet[..|sheet| - 1], amt, minKey, maxKey, oobHandling);
      |HeaderLines(amt)| + k < |q| && q[|HeaderLines(amt)| + k] == TransposedLine(amt, sheet[..|sheet| - 1][k], minKey, maxKey, oobHandling)
    ensures var out := TransposedFile(sheet, amt, minKey, maxKey, oobHandling);
      |HeaderLines(amt)| + k < |out| && out[|HeaderLines(amt)| + k] == TransposedLine(amt, sheet[k], minKey, maxKey, oobHandling)
  {
    var q := TransposedFile(sheet[..|sheet| - 1], amt, minKey, maxKey, oobHandling);
    var x := TransposedLine(amt, sheet[|sheet| - 1], minKey, maxKey, oobHandling);
    assert TransposedFile(sheet, amt, minKey, maxKey, oobHandling) == q + [x];
    assert (q + [x])[|HeaderLines(amt)| + k] == q[|HeaderLines(amt)| + k];
    assert sheet[..|sheet| - 1][k] == sheet[k];
  }

  // ---------------------------------------------------------------------------
  // What the header states

  predicate AllDigits(s: string) {
    forall k :: 0 <= k < |s| ==> '0' <= s[k] <= '9'
  }

  /** The value of a string of decimal digits. */
  function DigitsValue(s: string): (r: int) {
    if |s| == 0 then 0
    else 10 * DigitsValue(s[..|s| - 1]) + (s[|s| - 1] as int - '0' as int)
  }

  /** The form `to_string` writes, after an optional `+` or `-` sign: at least one
      digit, only digits, and no leading zero unless the number is 0. */
  predicate SignedDecimal(s: string) {
    var d := if |s| > 0 && (s[0] == '+' || s[0] == '-') then s[1..] else s;
    |d| > 0 && AllDigits(d) && (d[0] == '0' ==> |d| == 1)
  }

  /** The value of a decimal number with an optional `+` or `-` sign. */
  function SignedValue(s: string): (r: int) {
    if |s| > 0 && s[0] == '-' then -DigitsValue(s[1..])
    else if |s| > 0 && s[0] == '+' then DigitsValue(s[1..])
    else DigitsValue(s)
  }

  /** `to_string` writes at least one digit, and only digits. */
  lemma {:induction false} NatToStringDigits(n: nat)
    ensures |NatToString(n)| > 0 && AllDigits(NatToString(n))
    ensures NatToString(n)[0] == '0' ==> n == 0
  {
    if n >= 10 {
      NatToStringDigits(n / 10);
      var p := NatToString(n / 10);
      assert NatToString(n) == p + [Digit(n % 10)];
      assert forall k :: 0 <= k < |p| ==> (p + [Digit(n % 10)])[k] == p[k];
    }
  }

  /** The digits `to_string` writes read back as the number. */
  lemma {:induction false} NatToStringValue(n: nat)
    ensures DigitsValue(NatToString(n)) == n
  {
    if n >= 10 {
      NatToStringValue(n / 10);
      DigitsValueSnoc(NatToString(n / 10), Digit(n % 10));
    } else {
      DigitsValueSnoc("", Digit(n));
    }
  }

  lemma DigitsValueSnoc(p: string, c: char)
    ensures DigitsValue(p + [c]) == 10 * DigitsValue(p) + (c as int - '0' as int)
  {
    assert (p + [c])[..|p|] == p;
  }

  /** The signed number of the header is a decimal number in `to_string`'s form
      that reads back as the value it was written for; it starts with `+` exactly
      when the value is positive and with `-` exactly when it is negative. */
  lemma SignedTextValue(v: int)
    ensures var t := SignedText(v);
      && |t| > 0 && SignedDecimal(t) && SignedValue(t) == v
      && (t[0] == '+' <==> v > 0) && (t[0] == '-' <==> v < 0)
  {
    var a: nat := if v < 0 then -v else v;
    var sign := if v < 0 then "-" else if v > 0 then "+" else "";
    NatToStringValue(a);
    NatToStringDigits(a);
    assert NatToString(0) == "0";
    assert SignedText(v) == sign + NatToString(a);
    SignedParse(sign, NatToString(a));
  }

  lemma SignedParse(sign: string, s: string)
    requires |s| > 0 && AllDigits(s) && (s[0] == '0' ==> |s| == 1)
    requires sign == "" || sign == "+" || sign == "-"
    ensures |sign + s| > 0 && (sign + s)[0] == (if sign == "" then s[0] else sign[0])
    ensures SignedDecimal(sign + s)
    ensures SignedValue(sign + s) == if sign == "-" then -DigitsValue(s) else DigitsValue(s)
  {
    if sign != "" {
      assert (sign + s)[1..] == s;
    } else {
      assert sign + s == s;
    }
  }

  /** Digits have a value of at least 0, and at least 1 when the first is not `0`. */
  lemma {:induction false} DigitsValueBounds(s: string)
    requires AllDigits(s)
    ensures DigitsValue(s) >= 0
    ensures |s| > 0 && s[0] != '0' ==> DigitsValue(s) >= 1
  {
    if |s| > 0 {
      var p := s[..|s| - 1];
      assert AllDigits(p) by {
        assert forall k :: 0 <= k < |p| ==> p[k] == s[k];
      }
      DigitsValueBounds(p);
      if |p| > 0 {
        assert p[0] == s[0];
      }
    }
  }

  /** Digits without a leading zero are the only text `to_string` writes for
      their value. */
  lemma {:induction false} DigitsAreNatToString(d: string)
    requires |d| > 0 && AllDigits(d) && (d[0] == '0' ==> |d| == 1)
    ensures DigitsValue(d) >= 0 && d == NatToString(DigitsValue(d))
  {
    DigitsValueBounds(d);
    var a := DigitsValue(d);
    var c := d[|d| - 1];
    if |d| == 1 {
      assert d == [c] && a == c as int - '0' as int;
      assert NatToString(a) == [Digit(a)];
    } else {
      var p := d[..|d| - 1];
      assert p[0] == d[0] && AllDigits(p) by {
        assert forall k :: 0 <= k < |p| ==> p[k] == d[k];
      }
      DigitsValueBounds(p);
      DigitsAreNatToString(p);
      assert a == 10 * DigitsValue(p) + (c as int - '0' as int);
      assert a / 10 == DigitsValue(p) && a % 10 == c as int - '0' as int;
      assert NatToString(a) == NatToString(a / 10) + [Digit(a % 10)];
      assert d == p + [c];
    }
  }

  /** A signed decimal in `to_string`'s form, signed as the header signs (`+`
      exactly for a positive value, `-` exactly for a negative one), is the text
      the header writes for its value: nothing else reads back as `v`. */
  lemma SignedTextUnique(t: string, v: int)
    requires SignedDecimal(t) && SignedValue(t) == v
    requires |t| > 0 && (t[0] == '+' <==> v > 0) && (t[0] == '-' <==> v < 0)
    ensures t == SignedText(v)
  {
    if t[0] == '+' || t[0] == '-' {
      var d := t[1..];
      DigitsAreNatToString(d);
      assert t == [t[0]] + d;
    } else {
      DigitsAreNatToString(t);
    }
  }

  /** The header is written exactly when the offset is not 0. Its first line is
      the inverse offset, signed and in `to_string`'s decimal form, followed by ` Transposition` (so it carries the
      marker that makes the accidental counter skip it), and then an empty line. */
  lemma HeaderStatesInverse(amt: int)
    ensures |HeaderLines(amt)| == (if amt == 0 then 0 else 2)
    ensures amt != 0 ==>
      var h := HeaderLines(amt)[0];
      && (exists n :: 0 < n < |h| && SignedDecimal(h[..n]) && SignedValue(h[..n]) == -amt && h[n..] == " Transposition")
      && (h[0] == '+' <==> -amt > 0)
      && Contains(h, ACCIDENTAL_MARKER)
      && HeaderLines(amt)[1] == ""
  {
    if amt != 0 {
      var t := SignedText(-amt);
      SignedTextValue(-amt);
      TitleLine(t);
    }
  }

  /** A number followed by ` Transposition`: where each part is, and the marker. */
  lemma TitleLine(t: string)
    requires |t| > 0
    ensures var h := t + " Transposition";
      && h[..|t|] == t && h[|t|..] == " Transposition" && h[0] == t[0]
      && Contains(h, ACCIDENTAL_MARKER)
  {
    var h := t + " Transposition";
    assert h[..|t|] == t && h[|t|..] == " Transposition";
    assert forall k :: 0 <= k < |ACCIDENTAL_MARKER| ==> h[|t| + 1 + k] == ACCIDENTAL_MARKER[k];
    assert OccursAt(h, ACCIDENTAL_MARKER, |t| + 1);
    ContainsOccurs(h, ACCIDENTAL_MARKER);
  }

  /** The header's two lines hold no line break. */
  lemma HeaderHasNoBreak(amt: int)
    ensures GetlineLines(HeaderLines(amt))
  {
    if amt != 0 {
      var v := -amt;
      NatToStringDigits(if v < 0 then -v else v);
      var t := SignedText(v);
      assert '\n' !in t;
      assert '\n' !in t + " Transposition";
    }
  }

  /** Transposing writes no line break where there was none. */
  lemma {:induction false} CharsHaveNoBreak(s: string, noteAmount: int, minKey: int, maxKey: int, oobHandling: int)
    requires Playable(minKey, maxKey, oobHandling) && '\n' !in s
    ensures '\n' !in TransposedChars(s, noteAmount, minKey, maxKey, oobHandling)
  {
    if |s| > 0 {
      var p, c := s[..|s| - 1], s[|s| - 1];
      assert forall x :: x in p ==> x in s;
      CharsHaveNoBreak(p, noteAmount, minKey, maxKey, oobHandling);
      LayoutIsNotKey('\n');
      assert '\n' !in CharImage(c, noteAmount, minKey, maxKey, oobHandling);
    }
  }

  /** The lines written to the output file hold no line break when the sheet's
      lines hold none, so reading the file back with `getline` gives back exactly
      these lines. */
  lemma {:induction false} OutputHasNoBreak(sheet: seq<string>, amt: int, minKey: int, maxKey: int, oobHandling: int)
    requires Playable(minKey, maxKey, oobHandling) && GetlineLines(sheet)
    ensures GetlineLines(TransposedFile(sheet, amt, minKey, maxKey, oobHandling))
  {
    if |sheet| == 0 {
      HeaderHasNoBreak(amt);
    } else {
      var p, line := sheet[..|sheet| - 1], sheet[|sheet| - 1];
      assert GetlineLines(p) by {
        assert forall k :: 0 <= k < |p| ==> p[k] == sheet[k];
      }
      OutputHasNoBreak(p, amt, minKey, maxKey, oobHandling);
      if !Contains(line, TRANSPOSE_MARKER) {
        CharsHaveNoBreak(line, amt, minKey, maxKey, oobHandling);
      }
      var q := TransposedFile(p, amt, minKey, maxKey, oobHandling);
      var x := TransposedLine(amt, line, minKey, maxKey, oobHandling);
      assert TransposedFile(sheet, amt, minKey, maxKey, oobHandling) == q + [x];
      assert forall k :: 0 <= k < |q| ==> (q + [x])[k] == q[k];
    }
  }

  // ---------------------------------------------------------------------------
  // What the transposer promises

  /** A key whose shifted index `i + noteAmount` falls outside `[minKey, maxKey]`. */
  predicate LeavesRange(c: char, noteAmount: int, minKey: int, maxKey: int) {
    IsKey(c) && !(minKey <= IndexOf(VP_CHARS, c) + noteAmount <= maxKey)
  }

  /** A character that is not a key is copied, whatever the offset and policy. */
  lemma NonKeyCopied(c: char, noteAmount: int, minKey: int, maxKey: int, oobHandling: int)
    requires Playable(minKey, maxKey, oobHandling) && c !in VP_CHARS
    ensures CharImage(c, noteAmount, minKey, maxKey, oobHandling) == [c]
  {
    IsKeyMeans(c);
  }

  /** A line without keys comes back unchanged. */
  lemma {:induction false} KeylessLineUnchanged(line: string, noteAmount: int, minKey: int, maxKey: int, oobHandling: int)
    requires Playable(minKey, maxKey, oobHandling)
    requires forall k :: 0 <= k < |line| ==> line[k] !in VP_CHARS
    ensures TransposedLine(noteAmount, line, minKey, maxKey, oobHandling) == line
  {
    KeylessCharsUnchanged(line, noteAmount, minKey, maxKey, oobHandling);
  }

  lemma {:induction false} KeylessCharsUnchanged(s: string, noteAmount: int, minKey: int, maxKey: int, oobHandling: int)
    requires Playable(minKey, maxKey, oobHandling)
    requires forall k :: 0 <= k < |s| ==> s[k] !in VP_CHARS
    ensures TransposedChars(s, noteAmount, minKey, maxKey, oobHandling) == s
  {
    if |s| > 0 {
      var p := s[..|s| - 1];
      assert forall k :: 0 <= k < |p| ==> p[k] == s[k];
      KeylessCharsUnchanged(p, noteAmount, minKey, maxKey, oobHandling);
      NonKeyCopied(s[|s| - 1], noteAmount, minKey, maxKey, oobHandling);
      SplitLast(s);
    }
  }

  /** A line holding the transpose marker is kept, at every offset and under every
      policy. */
  lemma MarkedLineKept(line: string, noteAmount: int, minKey: int, maxKey: int, oobHandling: int)
    requires Playable(minKey, maxKey, oobHandling) && Contains(line, TRANSPOSE_MARKER)
    ensures TransposedLine(noteAmount, line, minKey, maxKey, oobHandling) == line
  {
  }

  /** Policy 3 on one character: exactly one character comes out; it is `?` exactly
      when the input was `?` or a key leaving the range, and otherwise the shifted key
      or the copied character. */
  lemma MarkChar(c: char, noteAmount: int, minKey: int, maxKey: int)
    requires Playable(minKey, maxKey, 3)
    ensures var r := CharImage(c, noteAmount, minKey, maxKey, 3);
      && |r| == 1
      && (r[0] == '?' <==> c == '?' || LeavesRange(c, noteAmount, minKey, maxKey))
      && (!IsKey(c) ==> r[0] == c)
      && (IsKey(c) && !LeavesRange(c, noteAmount, minKey, maxKey) ==> r[0] == VP_CHARS[IndexOf(VP_CHARS, c) + noteAmount])
  {
    LayoutIsNotKey('?');
  }

  /** Policy 3 on a line: the output is as long as the input, and position by position
      a `?` marks exactly the placeholders already there and the keys that left the
      range; every other key is shifted and every other character copied. */
  lemma {:induction false} MarkPolicyLine(line: string, noteAmount: int, minKey: int, maxKey: int)
    requires Playable(minKey, maxKey, 3) && !Contains(line, TRANSPOSE_MARKER)
    ensures var r := TransposedLine(noteAmount, line, minKey, maxKey, 3);
      && |r| == |line|
      && (forall k :: 0 <= k < |line| ==> (r[k] == '?' <==> line[k] == '?' || LeavesRange(line[k], noteAmount, minKey, maxKey)))
      && (forall k :: 0 <= k < |line| && !IsKey(line[k]) ==> r[k] == line[k])
      && (forall k :: 0 <= k < |line| && IsKey(line[k]) && !LeavesRange(line[k], noteAmount, minKey, maxKey) ==>
            r[k] == VP_CHARS[IndexOf(VP_CHARS, line[k]) + noteAmount])
  {
    MarkPolicyChars(line, noteAmount, minKey, maxKey);
  }

  lemma MarkPolicyChars(s: string, noteAmount: int, minKey: int, maxKey: int)
    requires Playable(minKey, maxKey, 3)
    ensures var r := TransposedChars(s, noteAmount, minKey, maxKey, 3);
      && |r| == |s|
      && (forall k :: 0 <= k < |s| ==> (r[k] == '?' <==> s[k] == '?' || LeavesRange(s[k], noteAmount, minKey, maxKey)))
      && (forall k :: 0 <= k < |s| && !IsKey(s[k]) ==> r[k] == s[k])
      && (forall k :: 0 <= k < |s| && IsKey(s[k]) && !LeavesRange(s[k], noteAmount, minKey, maxKey) ==>
            r[k] == VP_CHARS[IndexOf(VP_CHARS, s[k]) + noteAmount])
  {
    SingleImageLength(s, noteAmount, minKey, maxKey, 3);
    var r := TransposedChars(s, noteAmount, minKey, maxKey, 3);
    forall k | 0 <= k < |s|
      ensures r[k] == '?' <==> s[k] == '?' || LeavesRange(s[k], noteAmount, minKey, maxKey)
      ensures !IsKey(s[k]) ==> r[k] == s[k]
      ensures IsKey(s[k]) && !LeavesRange(s[k], noteAmount, minKey, maxKey) ==> r[k] == VP_CHARS[IndexOf(VP_CHARS, s[k]) + noteAmount]
    {
      SingleImageAt(s, k, noteAmount, minKey, maxKey, 3);
      MarkChar(s[k], noteAmount, minKey, maxKey);
    }
  }

  /** Policies 2 and 3 put exactly one character in place of each character. */
  lemma SingleImage(c: char, noteAmount: int, minKey: int, maxKey: int, oobHandling: int)
    requires Playable(minKey, maxKey, oobHandling) && (oobHandling == 2 || oobHandling == 3)
    ensures |CharImage(c, noteAmount, minKey, maxKey, oobHandling)| == 1
  {
  }

  lemma {:induction false} SingleImageLength(s: string, noteAmount: int, minKey: int, maxKey: int, oobHandling: int)
    requires Playable(minKey, maxKey, oobHandling) && (oobHandling == 2 || oobHandling == 3)
    ensures |TransposedChars(s, noteAmount, minKey, maxKey, oobHandling)| == |s|
  {
    if |s| > 0 {
      SingleImageLength(s[..|s| - 1], noteAmount, minKey, maxKey, oobHandling);
      SingleImage(s[|s| - 1], noteAmount, minKey, maxKey, oobHandling);
    }
  }

  /** Under policies 2 and 3, position `k` of the output is the image of position `k`
      of the input. */
  lemma {:induction false} SingleImageAt(s: string, k: int, noteAmount: int, minKey: int, maxKey: int, oobHandling: int)
    requires Playable(minKey, maxKey, oobHandling) && (oobHandling == 2 || oobHandling == 3)
    requires 0 <= k < |s|
    ensures |TransposedChars(s, noteAmount, minKey, maxKey, oobHandling)| == |s|
    ensures TransposedChars(s, noteAmount, minKey, maxKey, oobHandling)[k] == CharImage(s[k], noteAmount, minKey, maxKey, oobHandling)[0]
    decreases |s|
  {
    SingleImageLength(s, noteAmount, minKey, maxKey, oobHandling);
    if k < |s| - 1 {
      SingleImageAt(s[..|s| - 1], k, noteAmount, minKey, maxKey, oobHandling);
      SingleImageFront(s, k, noteAmount, minKey, maxKey, oobHandling);
    } else {
      SingleImageLast(s, noteAmount, minKey, maxKey, oobHandling);
    }
  }

  /** The step of `SingleImageAt` for a position before the last one. */
  lemma SingleImageFront(s: string, k: int, noteAmount: int, minKey: int, maxKey: int, oobHandling: int)
    requires Playable(minKey, maxKey, oobHandling) && (oobHandling == 2 || oobHandling == 3)
    requires 0 <= k < |s| - 1
    requires |TransposedChars(s[..|s| - 1], noteAmount, minKey, maxKey, oobHandling)| == |s| - 1
    requires TransposedChars(s[..|s| - 1], noteAmount, minKey, maxKey, oobHandling)[k] == CharImage(s[k], noteAmount, minKey, maxKey, oobHandling)[0]
    ensures |TransposedChars(s, noteAmount, minKey, maxKey, oobHandling)| >= |s| - 1
    ensures TransposedChars(s, noteAmount, minKey, maxKey, oobHandling)[k] == CharImage(s[k], noteAmount, minKey, maxKey, oobHandling)[0]
  {
    var q := TransposedChars(s[..|s| - 1], noteAmount, minKey, maxKey, oobHandling);
    var m := CharImage(s[|s| - 1], noteAmount, minKey, maxKey, oobHandling);
    assert TransposedChars(s, noteAmount, minKey, maxKey, oobHandling) == q + m;
    assert (q + m)[k] == q[k];
  }

  /** The step of `SingleImageAt` for the last position. */
  lemma SingleImageLast(s: string, noteAmount: int, minKey: int, maxKey: int, oobHandling: int)
    requires Playable(minKey, maxKey, oobHandling) && (oobHandling == 2 || oobHandling == 3)
    requires |s| > 0
    ensures |TransposedChars(s, noteAmount, minKey, maxKey, oobHandling)| == |s|
    ensures TransposedChars(s, noteAmount, minKey, maxKey, oobHandling)[|s| - 1] == CharImage(s[|s| - 1], noteAmount, minKey, maxKey, oobHandling)[0]
  {
    SingleImageLength(s, noteAmount, minKey, maxKey, oobHandling);
    SingleImageLength(s[..|s| - 1], noteAmount, minKey, maxKey, oobHandling);
    SingleImage(s[|s| - 1], noteAmount, minKey, maxKey, oobHandling);
    var q := TransposedChars(s[..|s| - 1], noteAmount, minKey, maxKey, oobHandling);
    var m := CharImage(s[|s| - 1], noteAmount, minKey, maxKey, oobHandling);
    assert TransposedChars(s, noteAmount, minKey, maxKey, oobHandling) == q + m;
    assert (q + m)[|s| - 1] == m[0];
  }

  /** Policy 2 on one character: one character comes out; a non-key is copied, and a
      key lands on a key of the range with the same pitch class as the shifted index,
      strictly below `maxKey` when it overshot the top. */
  lemma WrapChar(c: char, noteAmount: int, minKey: int, maxKey: int)
    requires Playable(minKey, maxKey, 2)
    ensures var r := CharImage(c, noteAmount, minKey, maxKey, 2);
      && |r| == 1
      && (!IsKey(c) ==> r[0] == c)
      && (IsKey(c) ==> WrappedKey(c, r[0], noteAmount, minKey, maxKey))
  {
    if IsKey(c) {
      if LeavesRange(c, noteAmount, minKey, maxKey) {
        WrapOutside(c, noteAmount, minKey, maxKey);
      } else {
        WrapInside(c, noteAmount, minKey, maxKey);
      }
    }
  }

  lemma WrapInside(c: char, noteAmount: int, minKey: int, maxKey: int)
    requires Playable(minKey, maxKey, 2) && IsKey(c) && !LeavesRange(c, noteAmount, minKey, maxKey)
    ensures var r := CharImage(c, noteAmount, minKey, maxKey, 2);
      |r| == 1 && WrappedKey(c, r[0], noteAmount, minKey, maxKey)
  {
    var j := IndexOf(VP_CHARS, c) + noteAmount;
    assert CharImage(c, noteAmount, minKey, maxKey, 2) == [VP_CHARS[j]];
    KeyIndex(j);
  }

  lemma WrapOutside(c: char, noteAmount: int, minKey: int, maxKey: int)
    requires Playable(minKey, maxKey, 2) && LeavesRange(c, noteAmount, minKey, maxKey)
    ensures var r := CharImage(c, noteAmount, minKey, maxKey, 2);
      |r| == 1 && WrappedKey(c, r[0], noteAmount, minKey, maxKey)
  {
    var j := IndexOf(VP_CHARS, c) + noteAmount;
    CppWrapLands(j, minKey, maxKey);
    var t := CppWrap(j, minKey, maxKey);
    assert CharImage(c, noteAmount, minKey, maxKey, 2) == [VP_CHARS[t]];
    KeyIndex(t);
  }

  /** Key `c` shifted by `noteAmount` became key `d` under policy 2: a shifted index
      inside the range is kept; one above it is moved down by whole octaves into
      the octave below `maxKey` (never onto `maxKey` itself), one below it up into
      the octave above `minKey`. */
  predicate WrappedKey(c: char, d: char, noteAmount: int, minKey: int, maxKey: int) {
    var i, n := IndexOf(VP_CHARS, c) + noteAmount, IndexOf(VP_CHARS, d);
    && IsKey(d)
    && minKey <= n <= maxKey
    && (n - i) % 12 == 0
    && (minKey <= i <= maxKey ==> n == i)
    && (i > maxKey ==> maxKey - 12 <= n < maxKey)
    && (i < minKey ==> n < minKey + 12)
  }

  /** Policy 2 on a line: the output is as long as the input, no `?` is written, a
      non-key is copied and every key lands in the range on its own pitch class. */
  lemma WrapPolicyLine(line: string, noteAmount: int, minKey: int, maxKey: int)
    requires Playable(minKey, maxKey, 2) && !Contains(line, TRANSPOSE_MARKER)
    ensures var r := TransposedLine(noteAmount, line, minKey, maxKey, 2);
      && |r| == |line|
      && (forall k :: 0 <= k < |line| && r[k] == '?' ==> line[k] == '?')
      && (forall k :: 0 <= k < |line| && !IsKey(line[k]) ==> r[k] == line[k])
      && (forall k :: 0 <= k < |line| && IsKey(line[k]) ==> WrappedKey(line[k], r[k], noteAmount, minKey, maxKey))
  {
    SingleImageLength(line, noteAmount, minKey, maxKey, 2);
    var r := TransposedChars(line, noteAmount, minKey, maxKey, 2);
    LayoutIsNotKey('?');
    forall k | 0 <= k < |line|
      ensures !IsKey(line[k]) ==> r[k] == line[k]
      ensures IsKey(line[k]) ==> WrappedKey(line[k], r[k], noteAmount, minKey, maxKey)
    {
      SingleImageAt(line, k, noteAmount, minKey, maxKey, 2);
      WrapChar(line[k], noteAmount, minKey, maxKey);
    }
  }

  /** Under policy 2 a key shifted whole octaves above `maxKey` comes back one octave
      below `maxKey`, never as `maxKey` itself. */
  lemma WrapMissesMaxKey(c: char, noteAmount: int, minKey: int, maxKey: int, k: int)
    requires Playable(minKey, maxKey, 2) && IsKey(c) && k >= 1
    requires IndexOf(VP_CHARS, c) + noteAmount == maxKey + 12 * k
    ensures CharImage(c, noteAmount, minKey, maxKey, 2) == [VP_CHARS[maxKey - 12]]
  {
    var j := IndexOf(VP_CHARS, c) + noteAmount;
    CppWrapMissesMaxKey(k, minKey, maxKey);
    assert KeyImage(IndexOf(VP_CHARS, c), noteAmount, minKey, maxKey, 2) == [VP_CHARS[CppWrap(j, minKey, maxKey)]];
  }

  /** The characters of `s` other than `?`, in order. */
  function WithoutPlaceholders(s: string): (r: string)
    ensures |r| <= |s|
  {
    if |s| == 0 then ""
    else WithoutPlaceholders(s[..|s| - 1]) + (if s[|s| - 1] == '?' then "" else [s[|s| - 1]])
  }

  /** Removing the placeholders takes out exactly the `?` characters. */
  lemma {:induction false} WithoutPlaceholdersCount(s: string)
    ensures |WithoutPlaceholders(s)| == |s| - CountChar(s, '?')
    ensures '?' !in WithoutPlaceholders(s)
  {
    if |s| > 0 {
      WithoutPlaceholdersCount(s[..|s| - 1]);
    }
  }

  /** A policy other than 2 and 3 (1 in particular) on one character other than `?`:
      what policy 3 writes, with its placeholder left out. */
  lemma DropChar(c: char, noteAmount: int, minKey: int, maxKey: int, oobHandling: int)
    requires Playable(minKey, maxKey, 3) && oobHandling != 2 && oobHandling != 3 && c != '?'
    ensures var m := CharImage(c, noteAmount, minKey, maxKey, 3);
      CharImage(c, noteAmount, minKey, maxKey, oobHandling) == if m == "?" then "" else m
  {
    LayoutIsNotKey('?');
  }

  /** Dropping: policy 1 (or any policy the switch has no case for) writes what
      policy 3 writes for the line with its out-of-range notes taken out; on a line
      without placeholders, that is policy 3's output without its `?` marks. */
  lemma DropPolicyLine(line: string, noteAmount: int, minKey: int, maxKey: int, oobHandling: int)
    requires Playable(minKey, maxKey, 3) && oobHandling != 2 && oobHandling != 3
    requires !Contains(line, TRANSPOSE_MARKER)
    ensures TransposedLine(noteAmount, line, minKey, maxKey, oobHandling)
      == TransposedChars(KeptNotes(line, noteAmount, minKey, maxKey), noteAmount, minKey, maxKey, 3)
    ensures '?' !in line ==>
      TransposedLine(noteAmount, line, minKey, maxKey, oobHandling)
        == WithoutPlaceholders(TransposedLine(noteAmount, line, minKey, maxKey, 3))
  {
    DropKeptChars(line, noteAmount, minKey, maxKey, oobHandling);
    if '?' !in line {
      DropPolicyChars(line, noteAmount, minKey, maxKey, oobHandling);
    }
  }

  lemma {:induction false} DropPolicyChars(s: string, noteAmount: int, minKey: int, maxKey: int, oobHandling: int)
    requires Playable(minKey, maxKey, 3) && oobHandling != 2 && oobHandling != 3 && '?' !in s
    ensures TransposedChars(s, noteAmount, minKey, maxKey, oobHandling)
      == WithoutPlaceholders(TransposedChars(s, noteAmount, minKey, maxKey, 3))
  {
    if |s| > 0 {
      var p, c := s[..|s| - 1], s[|s| - 1];
      assert forall k :: 0 <= k < |p| ==> p[k] == s[k];
      DropPolicyChars(p, noteAmount, minKey, maxKey, oobHandling);
      DropChar(c, noteAmount, minKey, maxKey, oobHandling);
      SingleImage(c, noteAmount, minKey, maxKey, 3);
      var q := TransposedChars(p, noteAmount, minKey, maxKey, 3);
      var m := CharImage(c, noteAmount, minKey, maxKey, 3);
      assert (q + m)[..|q|] == q;
    }
  }

  /** The characters of `s` without the keys the shift by `noteAmount` takes out of
      `[minKey, maxKey]`, in order. */
  function KeptNotes(s: string, noteAmount: int, minKey: int, maxKey: int): (r: string)
    ensures |r| <= |s|
    ensures forall k :: 0 <= k < |r| ==> !LeavesRange(r[k], noteAmount, minKey, maxKey)
  {
    if |s| == 0 then ""
    else
      var p := KeptNotes(s[..|s| - 1], noteAmount, minKey, maxKey);
      var c := s[|s| - 1];
      if LeavesRange(c, noteAmount, minKey, maxKey) then p
      else
        assert forall k :: 0 <= k < |p| ==> (p + [c])[k] == p[k];
        p + [c]
  }

  /** Under a dropping policy a character's image is empty when its note leaves the
      range, and otherwise what policy 3 writes. */
  lemma KeptChar(c: char, noteAmount: int, minKey: int, maxKey: int, oobHandling: int)
    requires Playable(minKey, maxKey, 3) && oobHandling != 2 && oobHandling != 3
    ensures CharImage(c, noteAmount, minKey, maxKey, oobHandling)
      == if LeavesRange(c, noteAmount, minKey, maxKey) then "" else CharImage(c, noteAmount, minKey, maxKey, 3)
  {
  }

  /** Dropping on any text: the out-of-range notes are taken out and the rest is
      transposed as under policy 3 (`?` already in the text included). */
  lemma {:induction false} DropKeptChars(s: string, noteAmount: int, minKey: int, maxKey: int, oobHandling: int)
    requires Playable(minKey, maxKey, 3) && oobHandling != 2 && oobHandling != 3
    ensures TransposedChars(s, noteAmount, minKey, maxKey, oobHandling)
      == TransposedChars(KeptNotes(s, noteAmount, minKey, maxKey), noteAmount, minKey, maxKey, 3)
  {
    if |s| > 0 {
      var p, c := s[..|s| - 1], s[|s| - 1];
      DropKeptChars(p, noteAmount, minKey, maxKey, oobHandling);
      KeptChar(c, noteAmount, minKey, maxKey, oobHandling);
      var kp := KeptNotes(p, noteAmount, minKey, maxKey);
      if !LeavesRange(c, noteAmount, minKey, maxKey) {
        assert (kp + [c])[..|kp|] == kp;
      }
    }
  }

  /** Dropping never makes a line longer. */
  lemma {:induction false} DropNeverLonger(line: string, noteAmount: int, minKey: int, maxKey: int, oobHandling: int)
    requires Playable(minKey, maxKey, oobHandling) && oobHandling != 2
    ensures |TransposedLine(noteAmount, line, minKey, maxKey, oobHandling)| <= |line|
  {
    if !Contains(line, TRANSPOSE_MARKER) {
      DropCharsNeverLonger(line, noteAmount, minKey, maxKey, oobHandling);
    }
  }

  lemma {:induction false} DropCharsNeverLonger(s: string, noteAmount: int, minKey: int, maxKey: int, oobHandling: int)
    requires Playable(minKey, maxKey, oobHandling) && oobHandling != 2
    ensures |TransposedChars(s, noteAmount, minKey, maxKey, oobHandling)| <= |s|
  {
    if |s| > 0 {
      DropCharsNeverLonger(s[..|s| - 1], noteAmount, minKey, maxKey, oobHandling);
    }
  }

  /** A character whose key stays in the range both before and after the shift comes
      back when shifted by `noteAmount` and then by `-noteAmount`. */
  lemma RoundTripChar(c: char, noteAmount: int, minKey: int, maxKey: int, oobHandling: int)
    requires Playable(minKey, maxKey, oobHandling)
    requires IsKey(c) ==> minKey <= IndexOf(VP_CHARS, c) <= maxKey && !LeavesRange(c, noteAmount, minKey, maxKey)
    ensures var r := CharImage(c, noteAmount, minKey, maxKey, oobHandling);
      |r| == 1 && CharImage(r[0], -noteAmount, minKey, maxKey, oobHandling) == [c]
  {
    if IsKey(c) {
      KeyIndex(IndexOf(VP_CHARS, c) + noteAmount);
    }
  }

  /** Transposing by `noteAmount` and then by `-noteAmount` restores a line whose keys
      all stay in the range, when neither version holds the transpose marker. */
  lemma RoundTrip(line: string, noteAmount: int, minKey: int, maxKey: int, oobHandling: int)
    requires Playable(minKey, maxKey, oobHandling)
    requires forall k :: 0 <= k < |line| && IsKey(line[k]) ==>
      minKey <= IndexOf(VP_CHARS, line[k]) <= maxKey && !LeavesRange(line[k], noteAmount, minKey, maxKey)
    requires !Contains(line, TRANSPOSE_MARKER)
    requires !Contains(TransposedLine(noteAmount, line, minKey, maxKey, oobHandling), TRANSPOSE_MARKER)
    ensures TransposedLine(-noteAmount, TransposedLine(noteAmount, line, minKey, maxKey, oobHandling), minKey, maxKey, oobHandling) == line
  {
    RoundTripChars(line, noteAmount, minKey, maxKey, oobHandling);
  }

  lemma {:induction false} RoundTripChars(s: string, noteAmount: int, minKey: int, maxKey: int, oobHandling: int)
    requires Playable(minKey, maxKey, oobHandling)
    requires forall k :: 0 <= k < |s| && IsKey(s[k]) ==>
      minKey <= IndexOf(VP_CHARS, s[k]) <= maxKey && !LeavesRange(s[k], noteAmount, minKey, maxKey)
    ensures TransposedChars(TransposedChars(s, noteAmount, minKey, maxKey, oobHandling), -noteAmount, minKey, maxKey, oobHandling) == s
  {
    if |s| > 0 {
      var p, c := s[..|s| - 1], s[|s| - 1];
      assert forall k :: 0 <= k < |p| ==> p[k] == s[k];
      RoundTripChars(p, noteAmount, minKey, maxKey, oobHandling);
      RoundTripChar(c, noteAmount, minKey, maxKey, oobHandling);
      var q := TransposedChars(p, noteAmount, minKey, maxKey, oobHandling);
      var m := CharImage(c, noteAmount, minKey, maxKey, oobHandling);
      assert TransposedChars(s, noteAmount, minKey, maxKey, oobHandling) == q + m;
      assert (q + m)[..|q + m| - 1] == q && (q + m)[|q + m| - 1] == m[0];
      assert TransposedChars(q + m, -noteAmount, minKey, maxKey, oobHandling)
        == TransposedChars(q, -noteAmount, minKey, maxKey, oobHandling) + CharImage(m[0], -noteAmount, minKey, maxKey, oobHandling);
      SplitLast(s);
    }
  }

  /** With the full range, offset 0 reproduces every line, under every policy. */
  lemma {:induction false} IdentityAtZero(line: string, oobHandling: int)
    requires Playable(0, TOP_KEY, oobHandling)
    ensures TransposedLine(0, line, 0, TOP_KEY, oobHandling) == line
  {
    if !Contains(line, TRANSPOSE_MARKER) {
      IdentityChars(line, oobHandling);
    }
  }

  lemma {:induction false} IdentityChars(s: string, oobHandling: int)
    requires Playable(0, TOP_KEY, oobHandling)
    ensures TransposedChars(s, 0, 0, TOP_KEY, oobHandling) == s
  {
    if |s| > 0 {
      IdentityChars(s[..|s| - 1], oobHandling);
      SplitLast(s);
    }
  }

  /** With the full range, the file written for offset 0 is the sheet itself: no
      header, and every line reproduced. */
  lemma {:induction false} FullRangeIdentity(sheet: seq<string>, oobHandling: int)
    requires Playable(0, TOP_KEY, oobHandling)
    ensures TransposedFile(sheet, 0, 0, TOP_KEY, oobHandling) == sheet
  {
    if |sheet| > 0 {
      FullRangeIdentity(sheet[..|sheet| - 1], oobHandling);
      IdentityAtZero(sheet[|sheet| - 1], oobHandling);
      SplitLast(sheet);
    }
  }

  // ---------------------------------------------------------------------------
  // sumOutOfBounds (vp-utils.cpp:262-281) and sumAccidentals (vp-utils.cpp:285-301),
  // reading the output file's lines

  /** Whether the out-of-range counter counts character `c`. */
  predicate CountsAsOutOfBounds(c: char, minKey: int, maxKey: int) {
    c == '?' || (IndexOf(VP_CHARS, c) != -1 && (IndexOf(VP_CHARS, c) < minKey || IndexOf(VP_CHARS, c) > maxKey))
  }

  /** Placeholders and keys outside `[minKey, maxKey]` on one line. */
  function LineOutOfBounds(line: string, minKey: int, maxKey: int): (n: nat)
    ensures n <= |line|
  {
    if |line| == 0 then 0
    else LineOutOfBounds(line[..|line| - 1], minKey, maxKey)
         + (if CountsAsOutOfBounds(line[|line| - 1], minKey, maxKey) then 1 else 0)
  }

  /** A line counts nothing exactly when no character of it is a placeholder or a
      key outside the range. */
  lemma {:induction false} LineOutOfBoundsZero(line: string, minKey: int, maxKey: int)
    ensures LineOutOfBounds(line, minKey, maxKey) == 0
      <==> forall k :: 0 <= k < |line| ==> !CountsAsOutOfBounds(line[k], minKey, maxKey)
  {
    if |line| > 0 {
      LineOutOfBoundsZero(line[..|line| - 1], minKey, maxKey);
      assert forall k :: 0 <= k < |line| - 1 ==> line[..|line| - 1][k] == line[k];
    }
  }

  function OutOfBoundsCount(lines: seq<string>, minKey: int, maxKey: int): (r: nat) {
    if |lines| == 0 then 0
    else OutOfBoundsCount(lines[..|lines| - 1], minKey, maxKey) + LineOutOfBounds(lines[|lines| - 1], minKey, maxKey)
  }

  /** Accidentals on one line; a line with the accidental marker counts none. */
  function LineAccidentals(line: string): (r: nat) {
    if Contains(line, ACCIDENTAL_MARKER) then 0 else AccidentalChars(line)
  }

  function AccidentalCount(lines: seq<string>): (r: nat) {
    if |lines| == 0 then 0
    else AccidentalCount(lines[..|lines| - 1]) + LineAccidentals(lines[|lines| - 1])
  }

  method SumOutOfBounds(output: seq<string>, minKey: int, maxKey: int) returns (sum: int)
    ensures sum == OutOfBoundsCount(output, minKey, maxKey)
  {
    sum := 0;
    for l := 0 to |output|
      invariant sum == OutOfBoundsCount(output[..l], minKey, maxKey)
    {
      assert output[..l + 1][..l] == output[..l];
      var line := output[l];
      ghost var before := sum;
      for i := 0 to |line|
        invariant sum == before + LineOutOfBounds(line[..i], minKey, maxKey)
      {
        assert line[..i + 1][..i] == line[..i];
        if line[i] == '?' {
          sum := sum + 1;
        } else if IndexOf(VP_CHARS, line[i]) != -1 {
          if IndexOf(VP_CHARS, line[i]) < minKey || IndexOf(VP_CHARS, line[i]) > maxKey {
            sum := sum + 1;
          }
        }
      }
      assert line[..|line|] == line;
    }
    assert output[..|output|] == output;
  }

  method SumAccidentals(output: seq<string>) returns (sum: int)
    ensures sum == AccidentalCount(output)
  {
    sum := 0;
    for l := 0 to |output|
      invariant sum == AccidentalCount(output[..l])
    {
      assert output[..l + 1][..l] == output[..l];
      var line := output[l];
      ghost var before := sum;
      ghost var skipped := Contains(line, ACCIDENTAL_MARKER);
      for i := 0 to |line|
        invariant sum == before + (if skipped then 0 else AccidentalChars(line[..i]))
      {
        assert line[..i + 1][..i] == line[..i];
        if IndexOf(ACCIDENTALS, line[i]) != -1 && !Contains(line, ACCIDENTAL_MARKER) {
          sum := sum + 1;
        }
      }
      assert line[..|line|] == line;
      assert LineAccidentals(line) == if skipped then 0 else AccidentalChars(line);
    }
    assert output[..|output|] == output;
  }

  /** The notes of `s` that policy 3 marks: placeholders already there and keys
      whose shifted index leaves the range. */
  function LostNotes(s: string, noteAmount: int, minKey: int, maxKey: int): (n: nat)
    ensures n <= |s|
  {
    if |s| == 0 then 0
    else LostNotes(s[..|s| - 1], noteAmount, minKey, maxKey)
         + (if s[|s| - 1] == '?' || LeavesRange(s[|s| - 1], noteAmount, minKey, maxKey) then 1 else 0)
  }

  /** Under policy 3 the out-of-range counter counts, on a transposed line, exactly
      the notes that were marked: every key written is inside the range. */
  lemma MarkedLineOutOfBounds(line: string, noteAmount: int, minKey: int, maxKey: int)
    requires Playable(minKey, maxKey, 3) && !Contains(line, TRANSPOSE_MARKER)
    ensures LineOutOfBounds(TransposedLine(noteAmount, line, minKey, maxKey, 3), minKey, maxKey)
      == LostNotes(line, noteAmount, minKey, maxKey)
  {
    MarkedCharsOutOfBounds(line, noteAmount, minKey, maxKey);
  }

  lemma {:induction false} MarkedCharsOutOfBounds(s: string, noteAmount: int, minKey: int, maxKey: int)
    requires Playable(minKey, maxKey, 3)
    ensures LineOutOfBounds(TransposedChars(s, noteAmount, minKey, maxKey, 3), minKey, maxKey)
      == LostNotes(s, noteAmount, minKey, maxKey)
  {
    if |s| > 0 {
      var p, c := s[..|s| - 1], s[|s| - 1];
      MarkedCharsOutOfBounds(p, noteAmount, minKey, maxKey);
      MarkedCharCounts(c, noteAmount, minKey, maxKey);
      var q := TransposedChars(p, noteAmount, minKey, maxKey, 3);
      var m := CharImage(c, noteAmount, minKey, maxKey, 3);
      assert TransposedChars(s, noteAmount, minKey, maxKey, 3) == q + [m[0]];
      LineOutOfBoundsSnoc(q, m[0], minKey, maxKey);
    }
  }

  /** The character policy 3 writes for `c` is counted exactly when `c` was lost. */
  lemma MarkedCharCounts(c: char, noteAmount: int, minKey: int, maxKey: int)
    requires Playable(minKey, maxKey, 3)
    ensures var r := CharImage(c, noteAmount, minKey, maxKey, 3);
      && |r| == 1 && r == [r[0]]
      && (CountsAsOutOfBounds(r[0], minKey, maxKey) <==> c == '?' || LeavesRange(c, noteAmount, minKey, maxKey))
  {
    MarkChar(c, noteAmount, minKey, maxKey);
    if IsKey(c) && !LeavesRange(c, noteAmount, minKey, maxKey) {
      KeyIndex(IndexOf(VP_CHARS, c) + noteAmount);
    }
  }

  lemma LineOutOfBoundsSnoc(q: string, x: char, minKey: int, maxKey: int)
    ensures LineOutOfBounds(q + [x], minKey, maxKey)
      == LineOutOfBounds(q, minKey, maxKey) + (if CountsAsOutOfBounds(x, minKey, maxKey) then 1 else 0)
  {
    assert (q + [x])[..|q|] == q;
  }

  /** The count the search minimises for one offset: what `sumOutOfBounds() +
      sumAccidentals()` return on the file written for it. */
  function Score(sheet: seq<string>, amt: int, minKey: int, maxKey: int, oobHandling: int): (r: nat)
    requires Playable(minKey, maxKey, oobHandling)
  {
    var output := TransposedFile(sheet, amt, minKey, maxKey, oobHandling);
    OutOfBoundsCount(output, minKey, maxKey) + AccidentalCount(output)
  }

  /** The counts of the first `n` offsets from -12 upwards, in that order: entry `k`
      is the count of offset `-12 + k`. */
  function ScoresUpTo(sheet: seq<string>, n: nat, minKey: int, maxKey: int, oobHandling: int): (r: seq<int>)
    requires Playable(minKey, maxKey, oobHandling)
    ensures |r| == n
  {
    if n == 0 then []
    else ScoresUpTo(sheet, n - 1, minKey, maxKey, oobHandling) + [Score(sheet, LOWEST_OFFSET + n - 1, minKey, maxKey, oobHandling)]
  }

  /** Entry `k` of the counts is the count of offset `-12 + k`. */
  lemma {:induction false} ScoresAt(sheet: seq<string>, n: nat, k: int, minKey: int, maxKey: int, oobHandling: int)
    requires Playable(minKey, maxKey, oobHandling) && 0 <= k < n
    ensures ScoresUpTo(sheet, n, minKey, maxKey, oobHandling)[k] == Score(sheet, LOWEST_OFFSET + k, minKey, maxKey, oobHandling)
  {
    if k < n - 1 {
      ScoresAt(sheet, n - 1, k, minKey, maxKey, oobHandling);
    }
  }

  /** The counts of the offsets -12..12, in that order. */
  function Scores(sheet: seq<string>, minKey: int, maxKey: int, oobHandling: int): (r: seq<int>)
    requires Playable(minKey, maxKey, oobHandling)
  {
    ScoresUpTo(sheet, OFFSET_COUNT, minKey, maxKey, oobHandling)
  }

  /** What the C++ search loop promises about its three variables, for a table
      of the 25 offsets' counts: the lowest count is the minimum, the index is the
      first offset that reaches it, and the list ends with the offsets that reach
      it. */
  predicate SearchResult(scores: seq<int>, solutions: seq<int>, indexOfLowestCount: int, lowestCount: int)
    requires |scores| == OFFSET_COUNT
  {
    && Tally(solutions, indexOfLowestCount, Some(lowestCount)) == CppScan(scores, LOWEST_OFFSET)
    && lowestCount == MinOf(scores)
    && LOWEST_OFFSET <= indexOfLowestCount <= HIGHEST_OFFSET
    && scores[indexOfLowestCount - LOWEST_OFFSET] == lowestCount
    && (forall k :: 0 <= k < indexOfLowestCount - LOWEST_OFFSET ==> lowestCount < scores[k])
    && EndsWith(solutions, OffsetsWith(scores, lowestCount, LOWEST_OFFSET))
  }

  /** What the search loop leaves behind, for a table of the 25 offsets' counts. */
  lemma SearchOutcome(t: Tally, scores: seq<int>)
    requires |scores| == OFFSET_COUNT && t == CppScan(scores, LOWEST_OFFSET)
    ensures t.lowest.Some? && SearchResult(scores, t.solutions, t.indexOfLowest, t.lowest.value)
  {
    CppScanOutcome(scores, LOWEST_OFFSET);
  }

  // ---------------------------------------------------------------------------
  // main and oobPrompt (vp-utils.cpp:25-169, 304-317): the global state

  /** The lines `getline` returns: none of them holds a line break. */
  predicate GetlineLines(lines: seq<string>) {
    forall k :: 0 <= k < |lines| ==> '\n' !in lines[k]
  }

  /** The program's globals: the range and policy, and the lines of the output
      file; `sheet` is the input file, which is never written. */
  class Session {
    const sheet: seq<string>
    var minKey: int
    var maxKey: int
    var oobHandling: int
    var output: seq<string>

    /** The configurations the program ever sets, over a sheet read with `getline`. */
    ghost predicate Valid()
      reads this
    {
      && Playable(minKey, maxKey, oobHandling) && minKey + 12 <= maxKey && 1 <= oobHandling <= 3
      && GetlineLines(sheet)
    }

    /** The globals' initial values (vp-utils.cpp:12-14). */
    constructor (sheet: seq<string>)
      requires GetlineLines(sheet)
      ensures Valid()
      ensures this.sheet == sheet && minKey == 0 && maxKey == TOP_KEY && oobHandling == 3
      ensures output == []
    {
      this.sheet := sheet;
      minKey, maxKey, oobHandling := 0, TOP_KEY, 3;
      output := [];
    }

    /** `transposeFile(&sheetPath, amt)`: overwrite the output file. */
    method WriteTransposed(amt: int)
      requires Valid()
      modifies this`output
      ensures output == TransposedFile(sheet, amt, minKey, maxKey, oobHandling)
    {
      output := TransposeFile(sheet, amt, minKey, maxKey, oobHandling);
    }

    /** One round of the scorer: write the output for `amt` and count its
        out-of-range notes and accidentals (vp-utils.cpp:88-90, 142-143). */
    method Evaluate(amt: int) returns (count: int)
      requires Valid()
      modifies this`output
      ensures output == TransposedFile(sheet, amt, minKey, maxKey, oobHandling)
      ensures count == Score(sheet, amt, minKey, maxKey, oobHandling)
    {
      WriteTransposed(amt);
      var a := SumOutOfBounds(output, minKey, maxKey);
      var b := SumAccidentals(output);
      count := a + b;
    }

    /** `oobPrompt(path, amt)`: if the output has out-of-range notes, the user's
        `answer` (1..3, as `readInt` guarantees) becomes the policy; then the sheet is
        transposed again unless the policy is 3. */
    method OobPrompt(amt: int, answer: int)
      requires Valid() && 1 <= answer <= 3
      modifies this`oobHandling, this`output
      ensures Valid()
      ensures oobHandling == if OutOfBoundsCount(old(output), minKey, maxKey) > 0 then answer else old(oobHandling)
      ensures output == if oobHandling != 3 then TransposedFile(sheet, amt, minKey, maxKey, oobHandling) else old(output)
    {
      var lost := SumOutOfBounds(output, minKey, maxKey);
      if lost > 0 {
        oobHandling := answer;
      }
      if oobHandling != 3 {
        WriteTransposed(amt);
      }
    }

    /** Menu choice 1, then 1: transpose by an amount the user typed. */
    method TransposeManually(transposeAmt: int, answer: int)
      requires Valid() && -12 <= transposeAmt <= 12 && 1 <= answer <= 3
      modifies this`oobHandling, this`output
      ensures Valid() && minKey == old(minKey) && maxKey == old(maxKey)
      ensures var first := TransposedFile(sheet, transposeAmt, minKey, maxKey, old(oobHandling));
        && oobHandling == (if OutOfBoundsCount(first, minKey, maxKey) > 0 then answer else old(oobHandling))
        && output == if oobHandling != 3 then TransposedFile(sheet, transposeAmt, minKey, maxKey, oobHandling) else first
    {
      WriteTransposed(transposeAmt);
      OobPrompt(transposeAmt, answer);
    }

    /** The loop of menu choice 1, then 2 (vp-utils.cpp:83-105): score every offset
        from -12 to 12 under the current range and policy, keeping the lowest count,
        the first offset that reaches it and the list of offsets the C++ code keeps
        as tied. */
    method SearchOffsets() returns (solutions: seq<int>, indexOfLowestCount: int, lowestCount: int)
      requires Valid()
      modifies this`output
      ensures output == TransposedFile(sheet, HIGHEST_OFFSET, minKey, maxKey, oobHandling)
      ensures SearchResult(Scores(sheet, minKey, maxKey, oobHandling), solutions, indexOfLowestCount, lowestCount)
    {
      var t := ScanOffsets();
      SearchOutcome(t, Scores(sheet, minKey, maxKey, oobHandling));
      solutions, indexOfLowestCount, lowestCount := t.solutions, t.indexOfLowest, t.lowest.value;
    }

    /** The loop itself, on the C++ loop's three variables. */
    method ScanOffsets() returns (t: Tally)
      requires Valid()
      modifies this`output
      ensures t == CppScan(Scores(sheet, minKey, maxKey, oobHandling), LOWEST_OFFSET)
      ensures output == TransposedFile(sheet, HIGHEST_OFFSET, minKey, maxKey, oobHandling)
    {
      t := Tally([], 0, None);
      ghost var seen: seq<int> := [];
      for i := LOWEST_OFFSET to HIGHEST_OFFSET + 1
        invariant i > LOWEST_OFFSET ==> output == TransposedFile(sheet, i - 1, minKey, maxKey, oobHandling)
        invariant seen == ScoresUpTo(sheet, i - LOWEST_OFFSET, minKey, maxKey, oobHandling)
        invariant t == CppScan(seen, LOWEST_OFFSET)
      {
        t, seen := ScanOffset(t, i, seen);
      }
    }

    /** One round of the loop: score offset `i` and record it; `seen` holds the
        counts of the offsets before `i`. */
    method ScanOffset(t: Tally, i: int, ghost seen: seq<int>) returns (t': Tally, ghost seen': seq<int>)
      requires Valid() && t == CppScan(seen, LOWEST_OFFSET) && |seen| == i - LOWEST_OFFSET
      modifies this`output
      ensures output == TransposedFile(sheet, i, minKey, maxKey, oobHandling)
      ensures seen' == seen + [Score(sheet, i, minKey, maxKey, oobHandling)]
      ensures t' == CppScan(seen', LOWEST_OFFSET)
    {
      var currentCount := Evaluate(i);
      seen' := seen + [currentCount];
      CppScanSnoc(seen, currentCount, LOWEST_OFFSET);
      var solutions, indexOfLowestCount, lowest := CppRecord(t.solutions, t.indexOfLowest, t.lowest, i, currentCount);
      t' := Tally(solutions, indexOfLowestCount, lowest);
    }

    /** Menu choice 1, then 2: search the offsets, transpose by the first one with
        the lowest count and ask about out-of-range notes (vp-utils.cpp:82-126). */
    method TransposeAutomatically(answer: int)
      returns (solutions: seq<int>, indexOfLowestCount: int, lowestCount: int)
      requires Valid() && 1 <= answer <= 3
      modifies this`oobHandling, this`output
      ensures Valid() && minKey == old(minKey) && maxKey == old(maxKey)
      ensures Tally(solutions, indexOfLowestCount, Some(lowestCount))
        == CppScan(Scores(sheet, minKey, maxKey, old(oobHandling)), LOWEST_OFFSET)
      ensures var first := TransposedFile(sheet, indexOfLowestCount, minKey, maxKey, old(oobHandling));
        && oobHandling == (if OutOfBoundsCount(first, minKey, maxKey) > 0 then answer else old(oobHandling))
        && output == if oobHandling != 3 then TransposedFile(sheet, indexOfLowestCount, minKey, maxKey, oobHandling) else first
    {
      solutions, indexOfLowestCount, lowestCount := SearchOffsets();
      WriteTransposed(indexOfLowestCount);
      OobPrompt(indexOfLowestCount, answer);
    }

    /** Menu choice 2: count the lost notes of each 3-octave range `[12i, 12i+36]`
        at offset 0, then set the range the user picked (`chosenRange`, 1..3),
        transpose into it and ask about out-of-range notes. */
    method Compress(chosenRange: int, answer: int) returns (oobPerOctave: seq<int>)
      requires Valid() && 1 <= chosenRange <= 3 && 1 <= answer <= 3
      modifies this`minKey, this`maxKey, this`oobHandling, this`output
      ensures Valid()
      ensures oobPerOctave == RangeScores(sheet, 3, old(oobHandling))
      ensures minKey == 12 * (chosenRange - 1) && maxKey == minKey + 36
      ensures var first := TransposedFile(sheet, 0, minKey, maxKey, old(oobHandling));
        && oobHandling == (if OutOfBoundsCount(first, minKey, maxKey) > 0 then answer else old(oobHandling))
        && output == if oobHandling != 3 then TransposedFile(sheet, 0, minKey, maxKey, oobHandling) else first
    {
      oobPerOctave := CountRanges();
      minKey := 12 * (chosenRange - 1);
      maxKey := minKey + 36;
      WriteTransposed(0);
      OobPrompt(0, answer);
    }

    /** The counting loop of menu choice 2 (vp-utils.cpp:139-144). */
    method CountRanges() returns (oobPerOctave: seq<int>)
      requires Valid()
      modifies this`minKey, this`maxKey, this`output
      ensures Valid()
      ensures oobPerOctave == RangeScores(sheet, 3, oobHandling)
      ensures minKey == 24 && maxKey == 60 && output == TransposedFile(sheet, 0, minKey, maxKey, oobHandling)
    {
      oobPerOctave := [];
      for i := 0 to 3
        invariant Valid()
        invariant 0 < i ==> minKey == 12 * (i - 1) && maxKey == minKey + 36
        invariant 0 < i ==> output == TransposedFile(sheet, 0, minKey, maxKey, oobHandling)
        invariant oobPerOctave == RangeScores(sheet, i, oobHandling)
      {
        oobPerOctave := RecordRange(oobPerOctave, i);
      }
    }

    /** One round of the compress loop, with its count appended to the earlier ones. */
    method RecordRange(oobPerOctave: seq<int>, i: int) returns (oobPerOctave': seq<int>)
      requires Valid() && 0 <= i < 3 && oobPerOctave == RangeScores(sheet, i, oobHandling)
      modifies this`minKey, this`maxKey, this`output
      ensures Valid() && minKey == 12 * i && maxKey == minKey + 36
      ensures output == TransposedFile(sheet, 0, minKey, maxKey, oobHandling)
      ensures oobPerOctave' == RangeScores(sheet, i + 1, oobHandling)
    {
      var count := ScoreRange(i);
      assert count == RangeScore(sheet, i, oobHandling);
      oobPerOctave' := oobPerOctave + [count];
    }

    /** One round of the compress loop: restrict the range to `[12i, 12i+36]` and
        score offset 0 there. */
    method ScoreRange(i: int) returns (count: int)
      requires Valid() && 0 <= i < 3
      modifies this`minKey, this`maxKey, this`output
      ensures Valid() && minKey == 12 * i && maxKey == 12 * i + 36
      ensures output == TransposedFile(sheet, 0, minKey, maxKey, oobHandling)
      ensures count == Score(sheet, 0, minKey, maxKey, oobHandling)
    {
      minKey := 12 * i;
      maxKey := minKey + 36;
      count := Evaluate(0);
    }
  }

  /** The counts of the first `n` 3-octave ranges at offset 0, lowest range first. */
  function RangeScores(sheet: seq<string>, n: nat, oobHandling: int): (r: seq<int>)
    requires n <= 3
    ensures |r| == n
  {
    if n == 0 then []
    else RangeScores(sheet, n - 1, oobHandling) + [RangeScore(sheet, n - 1, oobHandling)]
  }

  /** The count of the 3-octave range `[12i, 12i+36]` at offset 0. */
  function RangeScore(sheet: seq<string>, i: int, oobHandling: int): (r: int)
    requires 0 <= i < 3
  {
    Score(sheet, 0, 12 * i, 12 * i + 36, oobHandling)
  }

  /** Entry `i` of the compress counts is the count of the range `[12i, 12i+36]`. */
  lemma {:induction false} RangeScoresAt(sheet: seq<string>, n: nat, i: int, oobHandling: int)
    requires n <= 3 && 0 <= i < n
    ensures RangeScores(sheet, n, oobHandling)[i] == Score(sheet, 0, 12 * i, 12 * i + 36, oobHandling)
  {
    var p := RangeScores(sheet, n - 1, oobHandling);
    assert RangeScores(sheet, n, oobHandling) == p + [RangeScore(sheet, n - 1, oobHandling)];
    if i < n - 1 {
      RangeScoresAt(sheet, n - 1, i, oobHandling);
      assert (p + [RangeScore(sheet, n - 1, oobHandling)])[i] == p[i];
    }
  }
}
