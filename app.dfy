/** The web page's transposer (app.js). The text box is one string: `transposeString`
    splits it into lines on `\r?\n`, shifts every key of every line and joins the
    lines again with `\n`. The out-of-range policy is the page's global
    `oobHandling`, held by `Page` below together with the methods that read or set
    it; the range is a parameter, `[0, 60]` unless the caller narrows it. */
module App {
  import opened Alphabet
  import opened Octaves
  import opened Search
  import VpUtils

  // ---------------------------------------------------------------------------
  // Lines: `str.split(/\r?\n/)` and the `\n` written between lines (app.js:40, 82-84)

  /** `x` without one trailing carriage return. */
  function StripCr(x: string): (r: string) {
    if |x| > 0 && x[|x| - 1] == '\r' then x[..|x| - 1] else x
  }

  /** `s.split(/\r?\n/)`: the pieces between line breaks, where a break is a `\n`
      together with the `\r` right before it, if any. */
  function SplitLines(s: string): (r: seq<string>)
    ensures |r| == CountChar(s, '\n') + 1
  {
    if |s| == 0 then [""]
    else
      var r := SplitLines(s[..|s| - 1]);
      var last := r[|r| - 1];
      if s[|s| - 1] == '\n' then r[..|r| - 1] + [StripCr(last), ""]
      else r[..|r| - 1] + [last + [s[|s| - 1]]]
  }

  /** The lines written one after the other, a `\n` between two of them. */
  function JoinLines(ls: seq<string>): (r: string) {
    if |ls| == 0 then ""
    else if |ls| == 1 then ls[0]
    else JoinLines(ls[..|ls| - 1]) + "\n" + ls[|ls| - 1]
  }

  /** `s` with every `\r\n` written as `\n`. */
  function CrlfToLf(s: string): (r: string) {
    if |s| == 0 then ""
    else if s[|s| - 1] == '\n' && |s| >= 2 && s[|s| - 2] == '\r' then CrlfToLf(s[..|s| - 2]) + "\n"
    else CrlfToLf(s[..|s| - 1]) + [s[|s| - 1]]
  }

  /** No piece of the split holds a line break. */
  lemma {:induction false} SplitLinesPieces(s: string)
    ensures forall k :: 0 <= k < |SplitLines(s)| ==> CountChar(SplitLines(s)[k], '\n') == 0
  {
    if |s| > 0 {
      var p := s[..|s| - 1];
      SplitLinesPieces(p);
      var r := SplitLines(p);
      var last := r[|r| - 1];
      var front := r[..|r| - 1];
      assert forall k :: 0 <= k < |front| ==> front[k] == r[k];
      if s[|s| - 1] == '\n' {
        if |last| > 0 && last[|last| - 1] == '\r' {
          SplitLast(last);
          CountCharAppend(last[..|last| - 1], [last[|last| - 1]], '\n');
        }
        PiecesOf(front, [StripCr(last), ""]);
      } else {
        CountCharAppend(last, [s[|s| - 1]], '\n');
        PiecesOf(front, [last + [s[|s| - 1]]]);
      }
    }
  }

  lemma PiecesOf(a: seq<string>, b: seq<string>)
    requires forall k :: 0 <= k < |a| ==> CountChar(a[k], '\n') == 0
    requires forall k :: 0 <= k < |b| ==> CountChar(b[k], '\n') == 0
    ensures forall k :: 0 <= k < |a + b| ==> CountChar((a + b)[k], '\n') == 0
  {
    forall k | 0 <= k < |a + b| ensures CountChar((a + b)[k], '\n') == 0 {
      if k < |a| { assert (a + b)[k] == a[k]; } else { assert (a + b)[k] == b[k - |a|]; }
    }
  }

  /** What comes before the last line of a join: the lines before it and a `\n`. */
  function JoinLead(d: seq<string>): (r: string) {
    if |d| == 0 then "" else JoinLines(d) + "\n"
  }

  lemma JoinSnoc(d: seq<string>, x: string)
    ensures JoinLines(d + [x]) == JoinLead(d) + x
  {
    assert (d + [x])[..|d|] == d;
  }

  /** The last piece of the split ends with the last character of `s` when that is
      not a line break. */
  lemma LastPiece(s: string)
    requires |s| > 0 && s[|s| - 1] != '\n'
    ensures var r := SplitLines(s);
      && r == SplitLines(s[..|s| - 1])[..|r| - 1] + [r[|r| - 1]]
      && |r[|r| - 1]| > 0 && r[|r| - 1][|r[|r| - 1]| - 1] == s[|s| - 1]
  {
  }

  /** Splitting and joining the lines again turns every `\r\n` into `\n` and keeps
      every other character. */
  lemma {:induction false} JoinSplit(s: string)
    ensures JoinLines(SplitLines(s)) == CrlfToLf(s)
    decreases |s|
  {
    if |s| > 0 {
      var p := s[..|s| - 1];
      JoinSplit(p);
      var r := SplitLines(p);
      var last := r[|r| - 1];
      if s[|s| - 1] != '\n' {
        JoinSplitChar(s);
      } else if |last| > 0 && last[|last| - 1] == '\r' {
        JoinSplit(s[..|s| - 2]);
        CrBeforeBreak(s);
        JoinSplitCrlf(s);
      } else {
        JoinSplitLf(s);
      }
    }
  }

  /** The step of `JoinSplit` for a last character other than a line break. */
  lemma JoinSplitChar(s: string)
    requires |s| > 0 && s[|s| - 1] != '\n'
    requires JoinLines(SplitLines(s[..|s| - 1])) == CrlfToLf(s[..|s| - 1])
    ensures JoinLines(SplitLines(s)) == CrlfToLf(s)
  {
    var p, c := s[..|s| - 1], s[|s| - 1];
    var r := SplitLines(p);
    var front, last := r[..|r| - 1], r[|r| - 1];
    calc {
      JoinLines(SplitLines(s));
      { assert SplitLines(s) == front + [last + [c]]; }
      JoinLines(front + [last + [c]]);
      { JoinSnoc(front, last + [c]); }
      JoinLead(front) + (last + [c]);
      { AppendAssoc(JoinLead(front), last, [c]); }
      (JoinLead(front) + last) + [c];
      { SplitLast(r); JoinSnoc(front, last); }
      JoinLines(r) + [c];
      CrlfToLf(p) + [c];
      { assert CrlfToLf(s) == CrlfToLf(p) + [c]; }
      CrlfToLf(s);
    }
  }

  /** The step of `JoinSplit` for a line break after a `\r`. */
  lemma JoinSplitCrlf(s: string)
    requires |s| >= 2 && s[|s| - 1] == '\n'
    requires var r := SplitLines(s[..|s| - 1]); var last := r[|r| - 1];
      |last| > 0 && last[|last| - 1] == '\r'
    requires var r := SplitLines(s[..|s| - 1]);
      JoinLead(r[..|r| - 1]) + StripCr(r[|r| - 1]) + "\n" == CrlfToLf(s)
    ensures JoinLines(SplitLines(s)) == CrlfToLf(s)
  {
    var r := SplitLines(s[..|s| - 1]);
    var front, last := r[..|r| - 1], r[|r| - 1];
    calc {
      JoinLines(SplitLines(s));
      { assert SplitLines(s) == (front + [StripCr(last)]) + [""]; }
      JoinLines((front + [StripCr(last)]) + [""]);
      { JoinSnoc(front + [StripCr(last)], ""); }
      JoinLines(front + [StripCr(last)]) + "\n";
      { JoinSnoc(front, StripCr(last)); }
      JoinLead(front) + StripCr(last) + "\n";
    }
  }

  /** The step of `JoinSplit` for a line break with no `\r` before it. */
  lemma JoinSplitLf(s: string)
    requires |s| > 0 && s[|s| - 1] == '\n'
    requires var r := SplitLines(s[..|s| - 1]); var last := r[|r| - 1];
      !(|last| > 0 && last[|last| - 1] == '\r')
    requires JoinLines(SplitLines(s[..|s| - 1])) == CrlfToLf(s[..|s| - 1])
    ensures JoinLines(SplitLines(s)) == CrlfToLf(s)
  {
    var p := s[..|s| - 1];
    var r := SplitLines(p);
    var front, last := r[..|r| - 1], r[|r| - 1];
    calc {
      JoinLines(SplitLines(s));
      { SplitLast(r); assert SplitLines(s) == r + [""]; }
      JoinLines(r + [""]);
      { JoinSnoc(r, ""); }
      JoinLines(r) + "\n";
      CrlfToLf(p) + "\n";
      { NoCrBeforeBreak(s); }
      CrlfToLf(s);
    }
  }

  lemma AppendAssoc(a: string, b: string, c: string)
    ensures a + (b + c) == (a + b) + c
  {
  }

  /** When the last piece of the split before a final `\n` does not end with `\r`,
      the character before that `\n` is no `\r`. */
  lemma NoCrBeforeBreak(s: string)
    requires |s| > 0 && s[|s| - 1] == '\n'
    requires var r := SplitLines(s[..|s| - 1]); var last := r[|r| - 1];
      !(|last| > 0 && last[|last| - 1] == '\r')
    ensures !(|s| >= 2 && s[|s| - 2] == '\r')
  {
    var p := s[..|s| - 1];
    if |p| > 0 && p[|p| - 1] == '\r' {
      LastPiece(p);
      assert false;
    }
  }

  /** The case of `JoinSplit` where the split drops a `\r` before the final `\n`. */
  lemma CrBeforeBreak(s: string)
    requires |s| >= 2 && s[|s| - 1] == '\n'
    requires var r := SplitLines(s[..|s| - 1]); var last := r[|r| - 1];
      |last| > 0 && last[|last| - 1] == '\r'
    requires JoinLines(SplitLines(s[..|s| - 2])) == CrlfToLf(s[..|s| - 2])
    ensures var r := SplitLines(s[..|s| - 1]);
      JoinLead(r[..|r| - 1]) + StripCr(r[|r| - 1]) + "\n" == CrlfToLf(s)
  {
    var p := s[..|s| - 1];
    var r := SplitLines(p);
    var last := r[|r| - 1];
    assert p[|p| - 1] != '\n';
    var pp := p[..|p| - 1];
    LastPiece(p);
    var rr := SplitLines(pp);
    var lastpp := rr[|rr| - 1];
    assert r == rr[..|rr| - 1] + [lastpp + ['\r']];
    SplitLast(rr);
    JoinSnoc(rr[..|rr| - 1], lastpp);
    assert StripCr(last) == lastpp;
    assert s[..|s| - 2] == pp;
  }

  /** A text without carriage returns comes back unchanged. */
  lemma {:induction false} CrlfToLfKeeps(s: string)
    requires '\r' !in s
    ensures CrlfToLf(s) == s
  {
    if |s| > 0 {
      var p := s[..|s| - 1];
      assert '\r' !in p by {
        assert forall i :: 0 <= i < |p| ==> p[i] == s[i];
      }
      assert CrlfToLf(s) == CrlfToLf(p) + [s[|s| - 1]] by {
        if |s| >= 2 {
          assert s[|s| - 2] in s;
        }
      }
      CrlfToLfKeeps(p);
      SplitLast(s);
    }
  }

  // ---------------------------------------------------------------------------
  // transposeString (app.js:38-87)

  /** The values of the out-of-range select box the switch knows (app.js:61-79);
      `Unmatched` stands for any other value. */
  datatype OobPolicy = Transpose | Question | Delete | OctSwitch | Unmatched

  /** What every `VP_CHARS[...]` access of `transposeString` needs: the range holds
      only real keys and, for `Transpose`, spans at least 12 keys (the full range
      and the 3-octave ranges the page uses do). */
  predicate Playable(minKey: int, maxKey: int, policy: OobPolicy) {
    0 <= minKey && maxKey <= TOP_KEY && (policy == Transpose ==> minKey + 11 <= maxKey)
  }

  /** What one key at `index` becomes. */
  function KeyImage(index: int, noteAmount: int, minKey: int, maxKey: int, policy: OobPolicy): (r: string)
    requires Playable(minKey, maxKey, policy)
  {
    var newIndex := index + noteAmount;
    if minKey <= newIndex <= maxKey then [VP_CHARS[newIndex]]
    else match policy
      case Transpose =>
        JsWrapLands(newIndex, minKey, maxKey);
        [VP_CHARS[JsWrap(newIndex, minKey, maxKey)]]
      case Question => "?"
      case _ => ""
  }

  /** What one character becomes: a non-key is copied. */
  function CharImage(c: char, noteAmount: int, minKey: int, maxKey: int, policy: OobPolicy): (r: string)
    requires Playable(minKey, maxKey, policy)
  {
    var indexInPiano := IndexOf(VP_CHARS, c);
    if indexInPiano == -1 then [c]
    else KeyImage(indexInPiano, noteAmount, minKey, maxKey, policy)
  }

  /** One line transposed: the images of its characters one after the other. */
  function TransposedLine(line: string, noteAmount: int, minKey: int, maxKey: int, policy: OobPolicy): (r: string)
    requires Playable(minKey, maxKey, policy)
  {
    if |line| == 0 then ""
    else TransposedLine(line[..|line| - 1], noteAmount, minKey, maxKey, policy)
         + CharImage(line[|line| - 1], noteAmount, minKey, maxKey, policy)
  }

  /** Every line transposed, in order. */
  function TransposedLines(ls: seq<string>, noteAmount: int, minKey: int, maxKey: int, policy: OobPolicy): (r: seq<string>)
    requires Playable(minKey, maxKey, policy)
    ensures |r| == |ls|
  {
    if |ls| == 0 then []
    else TransposedLines(ls[..|ls| - 1], noteAmount, minKey, maxKey, policy)
         + [TransposedLine(ls[|ls| - 1], noteAmount, minKey, maxKey, policy)]
  }

  /** What `transposeString` returns. */
  function TransposedString(str: string, noteAmount: int, minKey: int, maxKey: int, policy: OobPolicy): (r: string)
    requires Playable(minKey, maxKey, policy)
  {
    JoinLines(TransposedLines(SplitLines(str), noteAmount, minKey, maxKey, policy))
  }

  /** What the result holds after the first `done` of `total` lines: those lines
      joined, and the `\n` after the last of them unless it is the final line. */
  function JoinedSoFar(done: seq<string>, total: int): (r: string) {
    if 0 < |done| < total then JoinLines(done) + "\n" else JoinLines(done)
  }

  // ---------------------------------------------------------------------------
  // What `transposeString` promises

  /** A character that is not a key is copied, whatever the offset and policy. */
  lemma NonKeyCopied(c: char, noteAmount: int, minKey: int, maxKey: int, policy: OobPolicy)
    requires Playable(minKey, maxKey, policy) && c !in VP_CHARS
    ensures CharImage(c, noteAmount, minKey, maxKey, policy) == [c]
  {
    IsKeyMeans(c);
  }

  /** Line `k` of the result is line `k` of the input, transposed. */
  lemma {:induction false} TransposedLinesAt(ls: seq<string>, k: int, noteAmount: int, minKey: int, maxKey: int, policy: OobPolicy)
    requires Playable(minKey, maxKey, policy) && 0 <= k < |ls|
    ensures TransposedLines(ls, noteAmount, minKey, maxKey, policy)[k] == TransposedLine(ls[k], noteAmount, minKey, maxKey, policy)
  {
    var p := ls[..|ls| - 1];
    var q := TransposedLines(p, noteAmount, minKey, maxKey, policy);
    var x := TransposedLine(ls[|ls| - 1], noteAmount, minKey, maxKey, policy);
    assert TransposedLines(ls, noteAmount, minKey, maxKey, policy) == q + [x];
    if k < |ls| - 1 {
      TransposedLinesAt(p, k, noteAmount, minKey, maxKey, policy);
      assert (q + [x])[k] == q[k];
    }
  }

  /** Transposing writes no line break where there was none. */
  lemma {:induction false} LineHasNoBreak(line: string, noteAmount: int, minKey: int, maxKey: int, policy: OobPolicy)
    requires Playable(minKey, maxKey, policy) && '\n' !in line
    ensures '\n' !in TransposedLine(line, noteAmount, minKey, maxKey, policy)
  {
    if |line| > 0 {
      var p, c := line[..|line| - 1], line[|line| - 1];
      assert forall x :: x in p ==> x in line;
      LineHasNoBreak(p, noteAmount, minKey, maxKey, policy);
      LayoutIsNotKey('\n');
      assert '\n' !in CharImage(c, noteAmount, minKey, maxKey, policy);
    }
  }

  /** Joining lines without line breaks writes one `\n` fewer than there are lines. */
  lemma {:induction false} JoinLinesBreaks(ls: seq<string>)
    requires |ls| > 0 && forall k :: 0 <= k < |ls| ==> '\n' !in ls[k]
    ensures CountChar(JoinLines(ls), '\n') == |ls| - 1
  {
    var x := ls[|ls| - 1];
    CountCharZero(x, '\n');
    if |ls| > 1 {
      var p := ls[..|ls| - 1];
      JoinLinesBreaks(p);
      calc {
        CountChar(JoinLines(ls), '\n');
        CountChar(JoinLines(p) + "\n" + x, '\n');
        { CountCharAppend(JoinLines(p) + "\n", x, '\n'); }
        CountChar(JoinLines(p) + "\n", '\n');
        { CountCharAppend(JoinLines(p), "\n", '\n'); assert "\n"[..0] == ""; }
        |ls| - 1;
      }
    }
  }

  /** `transposeString` keeps the number of lines: the result splits into as many
      lines as the input. */
  lemma LineCountKept(str: string, noteAmount: int, minKey: int, maxKey: int, policy: OobPolicy)
    requires Playable(minKey, maxKey, policy)
    ensures |SplitLines(TransposedString(str, noteAmount, minKey, maxKey, policy))| == |SplitLines(str)|
  {
    var ls := SplitLines(str);
    var ts := TransposedLines(ls, noteAmount, minKey, maxKey, policy);
    SplitLinesPieces(str);
    forall k | 0 <= k < |ts| ensures '\n' !in ts[k] {
      TransposedLinesAt(ls, k, noteAmount, minKey, maxKey, policy);
      CountCharZero(ls[k], '\n');
      LineHasNoBreak(ls[k], noteAmount, minKey, maxKey, policy);
    }
    JoinLinesBreaks(ts);
  }

  /** Over the full range, offset 0 reproduces a line under every policy. */
  lemma {:induction false} LineIdentity(line: string, policy: OobPolicy)
    requires Playable(0, TOP_KEY, policy)
    ensures TransposedLine(line, 0, 0, TOP_KEY, policy) == line
  {
    if |line| > 0 {
      LineIdentity(line[..|line| - 1], policy);
      SplitLast(line);
    }
  }

  lemma {:induction false} LinesIdentity(ls: seq<string>, policy: OobPolicy)
    requires Playable(0, TOP_KEY, policy)
    ensures TransposedLines(ls, 0, 0, TOP_KEY, policy) == ls
  {
    if |ls| > 0 {
      LinesIdentity(ls[..|ls| - 1], policy);
      LineIdentity(ls[|ls| - 1], policy);
      SplitLast(ls);
    }
  }

  /** With the default range `[0, 60]`, offset 0 gives the text back with its line
      breaks written as `\n`: unchanged when it has no `\r`. */
  lemma IdentityAtZero(str: string, policy: OobPolicy)
    requires Playable(0, TOP_KEY, policy)
    ensures TransposedString(str, 0, 0, TOP_KEY, policy) == CrlfToLf(str)
    ensures '\r' !in str ==> TransposedString(str, 0, 0, TOP_KEY, policy) == str
  {
    LinesIdentity(SplitLines(str), policy);
    JoinSplit(str);
    if '\r' !in str {
      CrlfToLfKeeps(str);
    }
  }

  /** The page's policy `policy` does what the command line's `oobHandling` does:
      `Question` marks like 3, and `Delete`, `OctSwitch` and an unmatched value drop
      like 1 (and every other value without a case). */
  predicate SamePolicy(policy: OobPolicy, oobHandling: int) {
    || (policy == Question && oobHandling == 3)
    || (policy != Question && policy != Transpose && oobHandling != 2 && oobHandling != 3)
  }

  /** Under corresponding mark or drop policies the page transposes a line's
      characters exactly as the command line does. */
  lemma {:induction false} AgreesWithCpp(line: string, noteAmount: int, minKey: int, maxKey: int, policy: OobPolicy, oobHandling: int)
    requires Playable(minKey, maxKey, policy) && VpUtils.Playable(minKey, maxKey, oobHandling)
    requires SamePolicy(policy, oobHandling)
    ensures TransposedLine(line, noteAmount, minKey, maxKey, policy)
      == VpUtils.TransposedChars(line, noteAmount, minKey, maxKey, oobHandling)
  {
    if |line| > 0 {
      var c := line[|line| - 1];
      AgreesWithCpp(line[..|line| - 1], noteAmount, minKey, maxKey, policy, oobHandling);
      assert CharImage(c, noteAmount, minKey, maxKey, policy) == VpUtils.CharImage(c, noteAmount, minKey, maxKey, oobHandling);
    }
  }

  /** Under `Question`, the result is as long as the line; position by position a `?`
      marks exactly the placeholders already there and the keys whose shifted index
      left the range; every other key is shifted and every other character copied. */
  lemma QuestionPolicyLine(line: string, noteAmount: int, minKey: int, maxKey: int)
    requires Playable(minKey, maxKey, Question)
    ensures var r := TransposedLine(line, noteAmount, minKey, maxKey, Question);
      && |r| == |line|
      && (forall k :: 0 <= k < |line| ==> (r[k] == '?' <==> line[k] == '?' || VpUtils.LeavesRange(line[k], noteAmount, minKey, maxKey)))
      && (forall k :: 0 <= k < |line| && !IsKey(line[k]) ==> r[k] == line[k])
      && (forall k :: 0 <= k < |line| && IsKey(line[k]) && !VpUtils.LeavesRange(line[k], noteAmount, minKey, maxKey) ==>
            r[k] == VP_CHARS[IndexOf(VP_CHARS, line[k]) + noteAmount])
  {
    AgreesWithCpp(line, noteAmount, minKey, maxKey, Question, 3);
    VpUtils.MarkPolicyChars(line, noteAmount, minKey, maxKey);
  }

  /** Under `Delete`, `OctSwitch` or an unmatched value, a line becomes what
      `Question` writes for it with its out-of-range notes taken out; no line gets
      longer. */
  lemma DeletePolicyLine(line: string, noteAmount: int, minKey: int, maxKey: int, policy: OobPolicy)
    requires Playable(minKey, maxKey, Question) && policy != Question && policy != Transpose
    ensures |TransposedLine(line, noteAmount, minKey, maxKey, policy)| <= |line|
    ensures TransposedLine(line, noteAmount, minKey, maxKey, policy)
      == TransposedLine(VpUtils.KeptNotes(line, noteAmount, minKey, maxKey), noteAmount, minKey, maxKey, Question)
  {
    AgreesWithCpp(line, noteAmount, minKey, maxKey, policy, 1);
    AgreesWithCpp(VpUtils.KeptNotes(line, noteAmount, minKey, maxKey), noteAmount, minKey, maxKey, Question, 3);
    VpUtils.DropCharsNeverLonger(line, noteAmount, minKey, maxKey, 1);
    VpUtils.DropKeptChars(line, noteAmount, minKey, maxKey, 1);
  }

  /** On a line without placeholders, that is `Question`'s output with its `?` marks
      left out. */
  lemma DeleteUnmarkedLine(line: string, noteAmount: int, minKey: int, maxKey: int, policy: OobPolicy)
    requires Playable(minKey, maxKey, Question) && policy != Question && policy != Transpose
    requires '?' !in line
    ensures TransposedLine(line, noteAmount, minKey, maxKey, policy)
      == VpUtils.WithoutPlaceholders(TransposedLine(line, noteAmount, minKey, maxKey, Question))
  {
    AgreesWithCpp(line, noteAmount, minKey, maxKey, policy, 1);
    AgreesWithCpp(line, noteAmount, minKey, maxKey, Question, 3);
    VpUtils.DropPolicyChars(line, noteAmount, minKey, maxKey, 1);
  }

  /** Key `c` shifted by `noteAmount` became key `d` under `Transpose`: a shifted
      index inside the range is kept, and one outside it moves by whole octaves to
      the nearest index of the same pitch class inside the range. */
  predicate JsWrappedKey(c: char, d: char, noteAmount: int, minKey: int, maxKey: int) {
    var i, n := IndexOf(VP_CHARS, c) + noteAmount, IndexOf(VP_CHARS, d);
    && IsKey(d)
    && minKey <= n <= maxKey
    && (n - i) % 12 == 0
    && (minKey <= i <= maxKey ==> n == i)
    && (i > maxKey ==> maxKey - 12 < n)
    && (i < minKey ==> n < minKey + 12)
  }

  /** `Transpose` on one character: exactly one character comes out; a non-key is
      copied and a key lands in the range. */
  lemma WrapImage(c: char, noteAmount: int, minKey: int, maxKey: int)
    requires Playable(minKey, maxKey, Transpose)
    ensures var r := CharImage(c, noteAmount, minKey, maxKey, Transpose);
      && |r| == 1
      && (!IsKey(c) ==> r[0] == c)
      && (IsKey(c) ==> JsWrappedKey(c, r[0], noteAmount, minKey, maxKey))
  {
    if IsKey(c) {
      if minKey <= IndexOf(VP_CHARS, c) + noteAmount <= maxKey {
        WrapInside(c, noteAmount, minKey, maxKey);
      } else {
        WrapOutside(c, noteAmount, minKey, maxKey);
      }
    }
  }

  lemma WrapInside(c: char, noteAmount: int, minKey: int, maxKey: int)
    requires Playable(minKey, maxKey, Transpose) && IsKey(c)
    requires minKey <= IndexOf(VP_CHARS, c) + noteAmount <= maxKey
    ensures var r := CharImage(c, noteAmount, minKey, maxKey, Transpose);
      |r| == 1 && JsWrappedKey(c, r[0], noteAmount, minKey, maxKey)
  {
    var j := IndexOf(VP_CHARS, c) + noteAmount;
    assert CharImage(c, noteAmount, minKey, maxKey, Transpose) == [VP_CHARS[j]];
    KeyIndex(j);
  }

  lemma WrapOutside(c: char, noteAmount: int, minKey: int, maxKey: int)
    requires Playable(minKey, maxKey, Transpose) && IsKey(c)
    requires !(minKey <= IndexOf(VP_CHARS, c) + noteAmount <= maxKey)
    ensures var r := CharImage(c, noteAmount, minKey, maxKey, Transpose);
      |r| == 1 && JsWrappedKey(c, r[0], noteAmount, minKey, maxKey)
  {
    var j := IndexOf(VP_CHARS, c) + noteAmount;
    JsWrapLands(j, minKey, maxKey);
    var t := JsWrap(j, minKey, maxKey);
    assert CharImage(c, noteAmount, minKey, maxKey, Transpose) == [VP_CHARS[t]];
    KeyIndex(t);
  }

  lemma {:induction false} WrapLineLength(line: string, noteAmount: int, minKey: int, maxKey: int)
    requires Playable(minKey, maxKey, Transpose)
    ensures |TransposedLine(line, noteAmount, minKey, maxKey, Transpose)| == |line|
  {
    if |line| > 0 {
      WrapLineLength(line[..|line| - 1], noteAmount, minKey, maxKey);
      WrapImage(line[|line| - 1], noteAmount, minKey, maxKey);
    }
  }

  /** Under `Transpose`, position `k` of the line's image is the image of position `k`. */
  lemma {:induction false} WrapLineAt(line: string, k: int, noteAmount: int, minKey: int, maxKey: int)
    requires Playable(minKey, maxKey, Transpose) && 0 <= k < |line|
    ensures |TransposedLine(line, noteAmount, minKey, maxKey, Transpose)| == |line|
    ensures TransposedLine(line, noteAmount, minKey, maxKey, Transpose)[k]
      == CharImage(line[k], noteAmount, minKey, maxKey, Transpose)[0]
    decreases |line|
  {
    var p := line[..|line| - 1];
    var q := TransposedLine(p, noteAmount, minKey, maxKey, Transpose);
    var m := CharImage(line[|line| - 1], noteAmount, minKey, maxKey, Transpose);
    WrapLineLength(line, noteAmount, minKey, maxKey);
    WrapLineLength(p, noteAmount, minKey, maxKey);
    WrapImage(line[|line| - 1], noteAmount, minKey, maxKey);
    assert TransposedLine(line, noteAmount, minKey, maxKey, Transpose) == q + m;
    if k < |line| - 1 {
      WrapLineAt(p, k, noteAmount, minKey, maxKey);
      assert p[k] == line[k];
      assert (q + m)[k] == q[k];
    } else {
      assert (q + m)[k] == m[0];
    }
  }

  /** `Transpose` on a line: the output is as long as the input, no `?` is written, a
      non-key is copied and every key is moved to the nearest octave inside the range. */
  lemma TransposePolicyLine(line: string, noteAmount: int, minKey: int, maxKey: int)
    requires Playable(minKey, maxKey, Transpose)
    ensures var r := TransposedLine(line, noteAmount, minKey, maxKey, Transpose);
      && |r| == |line|
      && (forall k :: 0 <= k < |line| && r[k] == '?' ==> line[k] == '?')
      && (forall k :: 0 <= k < |line| && !IsKey(line[k]) ==> r[k] == line[k])
      && (forall k :: 0 <= k < |line| && IsKey(line[k]) ==> JsWrappedKey(line[k], r[k], noteAmount, minKey, maxKey))
  {
    WrapLineLength(line, noteAmount, minKey, maxKey);
    var r := TransposedLine(line, noteAmount, minKey, maxKey, Transpose);
    LayoutIsNotKey('?');
    forall k | 0 <= k < |line|
      ensures !IsKey(line[k]) ==> r[k] == line[k]
      ensures IsKey(line[k]) ==> JsWrappedKey(line[k], r[k], noteAmount, minKey, maxKey)
    {
      WrapLineAt(line, k, noteAmount, minKey, maxKey);
      WrapImage(line[k], noteAmount, minKey, maxKey);
    }
  }

  /** A key shifted whole octaves above `maxKey` comes back as `maxKey` itself under
      `Transpose`. */
  lemma TransposeReachesMaxKey(c: char, noteAmount: int, minKey: int, maxKey: int, k: int)
    requires Playable(minKey, maxKey, Transpose) && IsKey(c) && k >= 1
    requires IndexOf(VP_CHARS, c) + noteAmount == maxKey + 12 * k
    ensures CharImage(c, noteAmount, minKey, maxKey, Transpose) == [VP_CHARS[maxKey]]
  {
    JsWrapReachesMaxKey(k, minKey, maxKey);
  }

  // ---------------------------------------------------------------------------
  // sumAccidentals (app.js:115-118)

  /** `str.match(ACCIDENTALS)`'s length, or 0 when nothing matches: the number of
      accidental characters in the whole text. */
  function SumAccidentals(str: string): (n: nat)
    ensures n <= |str|
    ensures n == 0 <==> forall k :: 0 <= k < |str| ==> !IsAccidental(str[k])
  {
    AccidentalCharsZero(str);
    AccidentalChars(str)
  }

  /** Counting the accidentals of the whole text, as the page does, gives what the
      C++ counter adds up line by line, whenever no line carries the marker that
      makes the C++ counter skip it: the line breaks are not accidentals. */
  lemma {:induction false} JoinedAccidentals(ls: seq<string>)
    requires forall k :: 0 <= k < |ls| ==> !Contains(ls[k], ACCIDENTAL_MARKER)
    ensures SumAccidentals(JoinLines(ls)) == VpUtils.AccidentalCount(ls)
  {
    if |ls| > 0 {
      var p, x := ls[..|ls| - 1], ls[|ls| - 1];
      assert VpUtils.LineAccidentals(x) == AccidentalChars(x);
      if |ls| == 1 {
        assert VpUtils.AccidentalCount(ls) == VpUtils.AccidentalCount(p) + VpUtils.LineAccidentals(x);
      } else {
        JoinedAccidentals(p);
        assert AccidentalChars("\n") == 0 by {
          AccidentalsAreKeys();
          LayoutIsNotKey('\n');
          IsAccidentalMeans('\n');
          assert "\n"[..0] == "";
        }
        AccidentalCharsAppend(JoinLines(p) + "\n", x);
        AccidentalCharsAppend(JoinLines(p), "\n");
      }
    }
  }

  /** The count both searches of the page minimise: accidentals plus `?` marks of
      the transposed text. */
  function Score(str: string, noteAmount: int, minKey: int, maxKey: int, policy: OobPolicy): (r: nat)
    requires Playable(minKey, maxKey, policy)
  {
    var t := TransposedString(str, noteAmount, minKey, maxKey, policy);
    AccidentalChars(t) + CountChar(t, '?')
  }

  /** The counts of the first `n` offsets from -12 upwards over the full range:
      entry `k` is the count of offset `-12 + k` (`TableAt`). */
  function ScoresUpTo(str: string, n: nat, policy: OobPolicy): (r: seq<int>)
    ensures |r| == n
  {
    Table(ScoreOf(str, policy), LOWEST_OFFSET, n)
  }

  /** The count of each offset, as a function of the offset. */
  function ScoreOf(str: string, policy: OobPolicy): (r: int -> int) {
    o => Score(str, o, 0, TOP_KEY, policy)
  }

  function Scores(str: string, policy: OobPolicy): (r: seq<int>) {
    ScoresUpTo(str, OFFSET_COUNT, policy)
  }

  /** Scoring offset `-12 + n` is one more step of the scan. */
  lemma ScanStep(str: string, n: nat, policy: OobPolicy, count: int)
    requires count == Score(str, LOWEST_OFFSET + n, 0, TOP_KEY, policy)
    ensures ClearedScan(ScoresUpTo(str, n + 1, policy), LOWEST_OFFSET)
      == ClearedStep(ClearedScan(ScoresUpTo(str, n, policy), LOWEST_OFFSET), LOWEST_OFFSET + n, count)
  {
    assert ScoreOf(str, policy)(LOWEST_OFFSET + n) == count;
    ClearedTableStep(ScoreOf(str, policy), LOWEST_OFFSET, n);
  }

  /** The count of the 3-octave range `[12i, 12i+36]` at offset 0. */
  function RangeScore(str: string, i: int, policy: OobPolicy): (r: int)
    requires 0 <= i < 3
  {
    Score(str, 0, 12 * i, 12 * i + 36, policy)
  }

  // ---------------------------------------------------------------------------
  // The page's global `oobHandling` and the functions that use it

  class Page {
    var oobHandling: OobPolicy

    /** The page starts with the policy shown in the select box. */
    constructor (selected: OobPolicy)
      ensures oobHandling == selected
    {
      oobHandling := selected;
    }

    /** `updateOobHandling()`: the select box changed. */
    method UpdateOobHandling(selected: OobPolicy)
      modifies this`oobHandling
      ensures oobHandling == selected
    {
      oobHandling := selected;
    }

    /** `transposeString(str, noteAmount, minKey, maxKey)` under the current policy. */
    method TransposeString(str: string, noteAmount: int, minKey: int, maxKey: int) returns (result: string)
      requires Playable(minKey, maxKey, oobHandling)
      ensures result == TransposedString(str, noteAmount, minKey, maxKey, oobHandling)
    {
      result := "";
      var inputStr := SplitLines(str);
      for lineIndex := 0 to |inputStr|
        invariant result == JoinedSoFar(TransposedLines(inputStr[..lineIndex], noteAmount, minKey, maxKey, oobHandling), |inputStr|)
      {
        ghost var done := TransposedLines(inputStr[..lineIndex], noteAmount, minKey, maxKey, oobHandling);
        result := AppendLine(result, inputStr[lineIndex], noteAmount, minKey, maxKey);
        if lineIndex < |inputStr| - 1 {
          result := result + "\n";
        }
        NextLine(inputStr, lineIndex, noteAmount, minKey, maxKey, oobHandling);
      }
      assert inputStr[..|inputStr|] == inputStr;
    }

    /** The inner loop of `transposeString`: append the image of each character of
        `line` to `result`. */
    method AppendLine(result: string, line: string, noteAmount: int, minKey: int, maxKey: int) returns (result': string)
      requires Playable(minKey, maxKey, oobHandling)
      ensures result' == result + TransposedLine(line, noteAmount, minKey, maxKey, oobHandling)
    {
      result' := result;
      for charIndex := 0 to |line|
        invariant result' == result + TransposedLine(line[..charIndex], noteAmount, minKey, maxKey, oobHandling)
      {
        assert line[..charIndex + 1][..charIndex] == line[..charIndex];
        var image := TransposeChar(line[charIndex], noteAmount, minKey, maxKey, oobHandling);
        result' := result' + image;
      }
      assert line[..|line|] == line;
    }

    /** `sumOutOfBounds(str)`: the number of `?` in `str`; the policy is set to
        `Question` for the count and put back afterwards. */
    method SumOutOfBounds(str: string) returns (sum: int)
      modifies this`oobHandling
      ensures sum == CountChar(str, '?')
      ensures oobHandling == old(oobHandling)
    {
      var prevOob := oobHandling;
      oobHandling := Question;
      sum := 0;
      for i := 0 to |str|
        invariant sum == CountChar(str[..i], '?')
      {
        assert str[..i + 1][..i] == str[..i];
        if str[i] == '?' {
          sum := sum + 1;
        }
      }
      assert str[..|str|] == str;
      oobHandling := prevOob;
    }

    /** `findBestTranspose(originalSheet)`: score every offset from -12 to 12 over
        the full range under the current policy, and return the offsets with the
        lowest count and that count. */
    method FindBestTranspose(originalSheet: string) returns (bestIndices: seq<int>, bestCount: int)
      modifies this`oobHandling
      ensures oobHandling == old(oobHandling)
      ensures var scores := Scores(originalSheet, oobHandling);
        && Ranking(bestIndices, Some(bestCount)) == ClearedScan(scores, LOWEST_OFFSET)
        && bestCount == MinOf(scores)
        && bestIndices == OffsetsWith(scores, bestCount, LOWEST_OFFSET)
        && |bestIndices| > 0 && StrictlyAscending(bestIndices)
    {
      var r := ScanOffsets(originalSheet);
      ghost var scores := Scores(originalSheet, oobHandling);
      ClearedScanOutcome(scores, LOWEST_OFFSET);
      bestIndices, bestCount := r.bestIndices, r.bestCount.value;
    }

    /** The loop of `findBestTranspose` on its two variables. */
    method ScanOffsets(originalSheet: string) returns (r: Ranking)
      modifies this`oobHandling
      ensures oobHandling == old(oobHandling)
      ensures r == ClearedScan(Scores(originalSheet, oobHandling), LOWEST_OFFSET)
    {
      r := Ranking([], None);
      for transposeAmt := LOWEST_OFFSET to HIGHEST_OFFSET + 1
        invariant oobHandling == old(oobHandling)
        invariant r == ClearedScan(ScoresUpTo(originalSheet, transposeAmt - LOWEST_OFFSET, oobHandling), LOWEST_OFFSET)
      {
        r := ScanOffset(originalSheet, r, transposeAmt);
      }
    }

    /** One round of the loop: score `transposeAmt` and record it in `r`, which
        holds the outcome for the offsets before it. */
    method ScanOffset(originalSheet: string, r: Ranking, transposeAmt: int) returns (r': Ranking)
      requires transposeAmt >= LOWEST_OFFSET
      requires r == ClearedScan(ScoresUpTo(originalSheet, transposeAmt - LOWEST_OFFSET, oobHandling), LOWEST_OFFSET)
      modifies this`oobHandling
      ensures oobHandling == old(oobHandling)
      ensures r' == ClearedScan(ScoresUpTo(originalSheet, transposeAmt - LOWEST_OFFSET + 1, oobHandling), LOWEST_OFFSET)
    {
      var count := CountFor(originalSheet, transposeAmt, 0, TOP_KEY);
      ScanStep(originalSheet, transposeAmt - LOWEST_OFFSET, oobHandling, count);
      var bestIndices, bestCount := ClearedRecord(r.bestIndices, r.bestCount, transposeAmt, count);
      r' := Ranking(bestIndices, bestCount);
    }

    /** `sumAccidentals(t) + sumOutOfBounds(t)` for `t` the text transposed by
        `noteAmount` into `[minKey, maxKey]`. */
    method CountFor(str: string, noteAmount: int, minKey: int, maxKey: int) returns (count: int)
      requires Playable(minKey, maxKey, oobHandling)
      modifies this`oobHandling
      ensures oobHandling == old(oobHandling)
      ensures count == Score(str, noteAmount, minKey, maxKey, oobHandling)
    {
      var newSheet := TransposeString(str, noteAmount, minKey, maxKey);
      var oob := SumOutOfBounds(newSheet);
      count := SumAccidentals(newSheet) + oob;
    }

    /** The counting of `updateOctaveMisses(inputStr)`: for each 3-octave range
        `[12i, 12i+36]`, the count of the offset-0 transposition into it. */
    method UpdateOctaveMisses(inputStr: string) returns (oobPerOctave: seq<int>)
      modifies this`oobHandling
      ensures oobHandling == old(oobHandling)
      ensures |oobPerOctave| == 3
      ensures forall i :: 0 <= i < 3 ==> oobPerOctave[i] == RangeScore(inputStr, i, oobHandling)
    {
      oobPerOctave := [0, 0, 0];
      for i := 0 to 3
        invariant oobHandling == old(oobHandling)
        invariant |oobPerOctave| == 3
        invariant forall j :: 0 <= j < i ==> oobPerOctave[j] == RangeScore(inputStr, j, oobHandling)
      {
        oobPerOctave := CountRange(inputStr, oobPerOctave, i);
      }
    }

    /** One round of `updateOctaveMisses`' loop: `oobPerOctave[i]` becomes the count
        of the range `[12i, 12i+36]`. */
    method CountRange(inputStr: string, oobPerOctave: seq<int>, i: int) returns (oobPerOctave': seq<int>)
      requires 0 <= i < 3 && |oobPerOctave| == 3
      modifies this`oobHandling
      ensures oobHandling == old(oobHandling)
      ensures |oobPerOctave'| == 3 && oobPerOctave'[i] == RangeScore(inputStr, i, oobHandling)
      ensures forall j :: 0 <= j < 3 && j != i ==> oobPerOctave'[j] == oobPerOctave[j]
    {
      var minKey := 12 * i;
      var maxKey := minKey + 36;
      var count := CountFor(inputStr, 0, minKey, maxKey);
      oobPerOctave' := oobPerOctave[i := count];
    }
  }

  /** The body of `transposeString`'s inner loop: what is appended for one
      character under `policy`. */
  method TransposeChar(c: char, noteAmount: int, minKey: int, maxKey: int, policy: OobPolicy) returns (image: string)
    requires Playable(minKey, maxKey, policy)
    ensures image == CharImage(c, noteAmount, minKey, maxKey, policy)
  {
    var indexInPiano := IndexOf(VP_CHARS, c);
    if indexInPiano == -1 {
      return [c];
    }
    var newIndex := indexInPiano + noteAmount;
    if newIndex >= minKey && newIndex <= maxKey {
      image := [VP_CHARS[newIndex]];
    } else {
      image := OutOfRangeImage(newIndex, minKey, maxKey, policy);
    }
  }

  /** The `switch (oobHandling)` for a shifted index outside the range. */
  method OutOfRangeImage(newIndex: int, minKey: int, maxKey: int, policy: OobPolicy) returns (image: string)
    requires Playable(minKey, maxKey, policy) && (newIndex < minKey || newIndex > maxKey)
    ensures image == KeyImage(newIndex, 0, minKey, maxKey, policy)
  {
    image := "";
    match policy {
      case Transpose =>
        var wrapped := NearestOctave(newIndex, minKey, maxKey);
        image := [VP_CHARS[wrapped]];
      case Question =>
        image := "?";
      case Delete =>
      case OctSwitch =>
      case Unmatched =>
    }
  }

  /** The JavaScript wrap loops (app.js:63-68): step down an octave while the index
      is above `maxKey`, then up while it is below `minKey`. */
  method NearestOctave(index: int, minKey: int, maxKey: int) returns (newIndex: int)
    requires minKey + 11 <= maxKey && (index < minKey || index > maxKey)
    ensures newIndex == JsWrap(index, minKey, maxKey)
    ensures minKey <= newIndex <= maxKey && (newIndex - index) % 12 == 0
  {
    JsWrapLands(index, minKey, maxKey);
    newIndex := index;
    while newIndex > maxKey
      invariant StepDown(newIndex, maxKey + 1) == StepDown(index, maxKey + 1)
      decreases newIndex - maxKey
    {
      newIndex := newIndex - 12;
    }
    while newIndex < minKey
      invariant StepUp(newIndex, minKey) == JsWrap(index, minKey, maxKey)
      decreases minKey - newIndex
    {
      newIndex := newIndex + 12;
    }
  }

  /** One more line processed by `transposeString`'s outer loop. */
  lemma NextLine(ls: seq<string>, i: int, noteAmount: int, minKey: int, maxKey: int, policy: OobPolicy)
    requires Playable(minKey, maxKey, policy) && 0 <= i < |ls|
    ensures var done := TransposedLines(ls[..i], noteAmount, minKey, maxKey, policy);
      var x := TransposedLine(ls[i], noteAmount, minKey, maxKey, policy);
      JoinedSoFar(TransposedLines(ls[..i + 1], noteAmount, minKey, maxKey, policy), |ls|)
        == JoinedSoFar(done, |ls|) + x + (if i < |ls| - 1 then "\n" else "")
  {
    var done := TransposedLines(ls[..i], noteAmount, minKey, maxKey, policy);
    var x := TransposedLine(ls[i], noteAmount, minKey, maxKey, policy);
    assert ls[..i + 1][..i] == ls[..i];
    assert TransposedLines(ls[..i + 1], noteAmount, minKey, maxKey, policy) == done + [x];
    JoinSnoc(done, x);
  }
}
