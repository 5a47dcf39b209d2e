/** The "move to the nearest octave" rule for a note that left the playable range.
    Both implementations step the index down by 12 while it is too high and then up
    by 12 while it is too low; they differ in the first loop's bound. */
module Octaves {

  /** The downward loop: subtract octaves while `n` is at or above `bound`. */
  function StepDown(n: int, bound: int): (r: int)
    ensures r < bound
    ensures (n - r) % 12 == 0
    ensures n < bound ==> r == n
    ensures n >= bound ==> bound - 12 <= r
    decreases if n >= bound then n - bound + 1 else 0
  {
    if n >= bound then StepDown(n - 12, bound) else n
  }

  /** The upward loop: add octaves while `n` is below `bound`. */
  function StepUp(n: int, bound: int): (r: int)
    ensures r >= bound
    ensures (r - n) % 12 == 0
    ensures n >= bound ==> r == n
    ensures n < bound ==> r < bound + 12
    decreases if n < bound then bound - n else 0
  {
    if n < bound then StepUp(n + 12, bound) else n
  }

  /** The C++ rule (vp-utils.cpp): the first loop runs while the index is `>= maxKey`. */
  function CppWrap(n: int, minKey: int, maxKey: int): (r: int) {
    StepUp(StepDown(n, maxKey), minKey)
  }

  /** The JavaScript rule (app.js): the first loop runs while the index is `> maxKey`. */
  function JsWrap(n: int, minKey: int, maxKey: int): (r: int) {
    StepUp(StepDown(n, maxKey + 1), minKey)
  }

  /** For a range at least an octave wide, the C++ rule lands an out-of-range index on
      the same pitch class inside the range, strictly below `maxKey`: in the octave
      just under `maxKey` when the note was too high, in the octave starting at
      `minKey` when it was too low. */
  lemma CppWrapLands(n: int, minKey: int, maxKey: int)
    requires minKey + 12 <= maxKey
    requires n < minKey || n > maxKey
    ensures minKey <= CppWrap(n, minKey, maxKey) < maxKey
    ensures (CppWrap(n, minKey, maxKey) - n) % 12 == 0
    ensures n > maxKey ==> maxKey - 12 <= CppWrap(n, minKey, maxKey)
    ensures n < minKey ==> CppWrap(n, minKey, maxKey) < minKey + 12
  {
    var d := StepDown(n, maxKey);
    assert (CppWrap(n, minKey, maxKey) - d) % 12 == 0;
    assert (n - d) % 12 == 0;
  }

  /** A note exactly some octaves above `maxKey` never reaches `maxKey` under the C++
      rule: it lands an octave below it. */
  lemma CppWrapMissesMaxKey(k: int, minKey: int, maxKey: int)
    requires minKey + 12 <= maxKey && k >= 1
    ensures CppWrap(maxKey + 12 * k, minKey, maxKey) == maxKey - 12
  {
    CppWrapLands(maxKey + 12 * k, minKey, maxKey);
  }

  /** For a range of at least 12 keys, the JavaScript rule lands an out-of-range index
      on the same pitch class inside `[minKey, maxKey]`: in the top octave of the
      range when the note was too high, in the bottom octave when it was too low. */
  lemma JsWrapLands(n: int, minKey: int, maxKey: int)
    requires minKey + 11 <= maxKey
    requires n < minKey || n > maxKey
    ensures minKey <= JsWrap(n, minKey, maxKey) <= maxKey
    ensures (JsWrap(n, minKey, maxKey) - n) % 12 == 0
    ensures n > maxKey ==> maxKey - 12 < JsWrap(n, minKey, maxKey)
    ensures n < minKey ==> JsWrap(n, minKey, maxKey) < minKey + 12
  {
    var d := StepDown(n, maxKey + 1);
    assert (JsWrap(n, minKey, maxKey) - d) % 12 == 0;
    assert (n - d) % 12 == 0;
  }

  /** A note exactly some octaves above `maxKey` lands on `maxKey` itself under the
      JavaScript rule. */
  lemma JsWrapReachesMaxKey(k: int, minKey: int, maxKey: int)
    requires minKey + 11 <= maxKey && k >= 1
    ensures JsWrap(maxKey + 12 * k, minKey, maxKey) == maxKey
  {
    JsWrapLands(maxKey + 12 * k, minKey, maxKey);
  }
}
