# vp-utils in Dafny

vp-utils transposes Virtual Piano (VP) sheets. A VP sheet is text in which each
key of a 61-key keyboard is written as one character of
`1!2@34$5%6^78*9(0qQwWeErtTyYuiIoOpPasSdDfgGhHjJklLzZxcCvVbBnm`. Every other
character is layout: spaces, brackets, `|`, `?`, line breaks and so on.

Transposing by `n` replaces each key by the key `n` places further along the
keyboard. A shifted key can fall outside the playable range `[minKey, maxKey]`.
Such a note is handled by an out-of-range policy:

- drop it;
- move it by whole octaves (12 keys) back into the range;
- or write `?` in its place.

A search scores every offset from -12 to 12 and reports the offsets with the fewest
"bad notes". Bad notes are accidentals (the black keys, written
`!@$%^*(QWETYIOPSDGHJLZCVB`) plus out-of-range notes. A second feature,
*compression*, scores the three 3-octave ranges `[0,36]`, `[12,48]` and `[24,60]` at
offset 0 and transposes into the chosen one.

The program exists twice, and both versions are modelled:

- `vp-utils.cpp`, a command-line program. It works on files line by line, and
  policies are numbered 1 (drop), 2 (nearest octave) and 3 (`?`).
- `app.js`, a web page. It works on one string, and policies are named `transpose`,
  `question`, `delete` and `octswitch`.

Modules:

- `Alphabet` (alphabet.dfy) holds the keyboard and accidental alphabets and the
  helpers over them:
  - `find`/`indexOf` as `IndexOf`;
  - substring search as `Contains`;
  - character counts.

  It also proves that the 61 keys are distinct, so the index of `VP_CHARS[j]` is `j`.
- `Octaves` (octaves.dfy) holds the two "nearest octave" loops. The C++ one steps
  down while the index is `>= maxKey`. The JavaScript one steps down while it is
  `> maxKey`.
- `Search` (search.dfy) holds both searches over the table of 25 offset scores, as
  folds:
  - `CppScan` is the C++ loop in `main`;
  - `ClearedScan` is `findBestTranspose`.
- `VpUtils` (vp_utils.dfy) models `transposeLine`, `transposeFile`,
  `sumOutOfBounds`, `sumAccidentals` and `oobPrompt` with the range and policy as
  parameters. Its class `Session` holds the program's globals (`minKey`, `maxKey`,
  `oobHandling`) and the lines of `output.txt`. Its methods are the three flows of
  `main` (manual, automatic and compression), each ending with `oobPrompt`.
- `App` (app.dfy) models `transposeString`. It splits on `\r?\n` (`SplitLines`),
  transposes each line and joins the lines with `\n`. The class `Page` holds the
  page's global `oobHandling`. Its methods are `updateOobHandling`,
  `sumOutOfBounds` (which saves and restores the global), `findBestTranspose` and
  `updateOctaveMisses`.

The two transposers differ in two ways:

- The C++ version returns any line containing `Transp` unchanged.
- The C++ octave policy steps down while the index is `>= maxKey`
  (vp-utils.cpp:221); the JavaScript one while it is `> maxKey` (app.js:63). The
  C++ loop therefore never writes the key `maxKey` itself (see "## Findings").

The two scorers differ in two more:

- The C++ version skips lines containing `Transpos` when counting accidentals.
- The C++ version counts keys outside the range as out of range, in addition to
  `?`. The JavaScript `sumOutOfBounds` counts only `?`.

JavaScript also scores offsets under whatever policy the page currently has.
`sumOutOfBounds` switches the global to `question` only after the text has already
been transposed. Under `delete`, a dropped note therefore costs nothing in
`findBestTranspose`. `App.Score` models this as written: it is parameterised by the
page's policy.

## Model

| member | source | states |
|---|---|---|
| Alphabet.IndexOf | vp-utils.cpp:201 | the result is -1 or a position of `c` in `s` |
| Alphabet.IndexOfFirst | app.js:47 | `indexOf` is -1 exactly when `c` does not occur, and otherwise no earlier position holds `c` |
| Alphabet.ContainsOccurs | vp-utils.cpp:196 | `line->find(pat) != -1` holds exactly when `pat` occurs at some position of the line |
| Alphabet.IsKeyMeans | vp-utils.cpp:201-207 | a character has an index on the keyboard exactly when it is one of the 61 keys |
| Alphabet.VpCharsDistinct | vp-utils.cpp:10 | the keyboard alphabet has 61 keys, no two equal, so `VP_CHARS.find` is a bijection with indices 0..60 |
| Alphabet.KeyIndex | vp-utils.cpp:201 | looking up the key at index `j` gives back `j` |
| Alphabet.LayoutIsNotKey | vp-utils.cpp:231-234 | neither `?` nor `\n` is a key: a written placeholder is never mistaken for a note, and transposition never writes a line break (app.js:82-84) |
| Alphabet.AccidentalsAreKeys | vp-utils.cpp:286 | every accidental character is a key of the keyboard |
| Alphabet.IsAccidentalMeans | app.js:28 | the accidental test matches exactly the characters of the `ACCIDENTALS` class |
| Alphabet.CountCharZero | app.js:104-108 | a character count is 0 exactly when the character does not occur |
| Alphabet.CountCharAppend | app.js:40 | character counts add up over concatenation, as counting the `\n` of a split or joined text needs (app.js:82-84) |
| Alphabet.AccidentalCharsZero | app.js:115-118 | no accidental is counted exactly when no character is an accidental |
| Alphabet.AccidentalCharsAppend | app.js:115-118 | accidental counts add up over concatenation, so the page's whole-text count is the sum of its lines' counts |
| Alphabet.AccidentalMarkerHasTransposeMarker | vp-utils.cpp:196 | a line with `Transpos` also contains `Transp`, so a line skipped by the accidental count is also one `transposeLine` copies |
| Octaves.StepDown | vp-utils.cpp:221-223 | stepping down by 12 while at or above the bound ends below it, on the same pitch class, less than an octave below |
| Octaves.StepUp | vp-utils.cpp:224-226 | stepping up by 12 while below the bound ends at or above it, on the same pitch class, less than an octave above |
| Octaves.CppWrapLands | vp-utils.cpp:220-229 | the C++ loops land an out-of-range index in `[minKey, maxKey)` on its own pitch class; from above within the octave below `maxKey`, from below within the octave above `minKey` |
| Octaves.CppWrapMissesMaxKey | vp-utils.cpp:221-223 | an index a whole number of octaves above `maxKey` lands on `maxKey - 12`, never on `maxKey` |
| Octaves.JsWrapLands | app.js:62-70 | the JavaScript loops land an out-of-range index in `[minKey, maxKey]` on its own pitch class, at the nearest such index |
| Octaves.JsWrapReachesMaxKey | app.js:63-65 | an index a whole number of octaves above `maxKey` lands on `maxKey` |
| Search.MinOf | vp-utils.cpp:86-105 | the lowest count is no greater than any count and is one of them |
| Search.OffsetsWith | app.js:127-142 | the offsets whose count equals `v`, ascending: an offset is listed exactly when its count is `v` |
| Search.TableAt | app.js:127-129 | entry `k` of the score table is the score of offset `first + k` |
| Search.CppRecord | vp-utils.cpp:92-104 | one iteration of the C++ search loop performs one step of the search fold |
| Search.CppScanFindsMinimum | vp-utils.cpp:86-105 | after the C++ loop `lowestCount` is the minimum, and `indexOfLowestCount` is the first offset that reaches it |
| Search.CppScanAscending | vp-utils.cpp:87-105 | the C++ `solutions` are strictly ascending offsets in -12..12 |
| Search.CppScanEndsWithTies | vp-utils.cpp:92-104 | the C++ `solutions` end with every offset tied at the minimum, in order |
| Search.CppScanOutcome | vp-utils.cpp:86-105 | the search's whole outcome: the minimum, the first offset reaching it, and the ties at the end of `solutions` |
| Search.CppScanKeepsStale | vp-utils.cpp:92-101 | counts `1, 1, 0` leave `solutions == [-11, -10]`, although only -10 has the minimum |
| Search.ClearedRecord | app.js:132-141 | one iteration of `findBestTranspose`'s loop performs one step of the cleared fold |
| Search.ClearedScanExact | app.js:123-144 | after the JavaScript loop `bestCount` is the minimum and `bestIndices` are exactly the offsets reaching it, ascending |
| Search.ClearedScanOutcome | app.js:123-144 | the same outcome, plus: `bestIndices` is non-empty, strictly ascending, and holds an offset exactly when it has the minimum |
| Search.TiesNonEmpty | app.js:132-141 | at least one offset reaches the minimum |
| VpUtils.TransposeLine | vp-utils.cpp:192-240 | the loop builds the line's image; a line containing `Transp` is returned unchanged |
| VpUtils.TransposeChar | vp-utils.cpp:201-236 | one character becomes its image: a non-key copied, an in-range key shifted, an out-of-range key handled by the policy |
| VpUtils.TransposeKey | vp-utils.cpp:209-236 | a key at `indexInPiano` becomes its key image: shifted when it stays in range, otherwise wrapped, `?` or nothing by policy |
| VpUtils.NearestOctave | vp-utils.cpp:220-229 | the two loops compute the C++ octave wrap, landing in `[minKey, maxKey)` on the same pitch class |
| VpUtils.TransposeFile | vp-utils.cpp:243-259 | the output file is the header (if `amt != 0`) followed by every sheet line transposed |
| VpUtils.TransposedFileHeader | vp-utils.cpp:248-249 | the output starts with the header lines |
| VpUtils.TransposedFileLine | vp-utils.cpp:252-255 | the output has one line per sheet line after the header, and line `k` of the sheet becomes its transposed image |
| VpUtils.OutputHasNoBreak | vp-utils.cpp:243-259 | when no sheet line holds a `\n`, no line written to `output.txt` does either, so the `getline` loops at vp-utils.cpp:267 and 292 read back exactly the written lines |
| VpUtils.HeaderHasNoBreak | vp-utils.cpp:248-249 | the header's two lines hold no `\n` |
| VpUtils.CharsHaveNoBreak | vp-utils.cpp:200-237 | transposing the characters of a line without `\n` writes no `\n` |
| VpUtils.NatToStringValue | vp-utils.cpp:249 | `std::to_string` of a natural number reads back as that number |
| VpUtils.SignedTextValue | vp-utils.cpp:249 | the signed text is in `to_string`'s decimal form (digits only, no leading zero) and reads back as the value; it starts with `+` exactly for a positive value and with `-` exactly for a negative one |
| VpUtils.DigitsAreNatToString | vp-utils.cpp:249 | digits without a leading zero are exactly the text `std::to_string` writes for their value |
| VpUtils.SignedTextUnique | vp-utils.cpp:249 | a signed decimal in that form, signed as the header signs, that reads back as `v` is the header's text for `v`: the number written is determined by the value |
| VpUtils.HeaderStatesInverse | vp-utils.cpp:248-249 | for `amt != 0` the header is `<-amt, signed> Transposition` followed by an empty line; its number is a decimal in `to_string`'s form that reads back as `-amt` (so it is the text `SignedTextUnique` pins down), and it contains `Transpos` |
| VpUtils.NonKeyCopied | vp-utils.cpp:203-207 | a character that is not a key is copied under every offset and policy |
| VpUtils.KeylessLineUnchanged | vp-utils.cpp:200-237 | a line without keys comes back unchanged |
| VpUtils.MarkedLineKept | vp-utils.cpp:195-197 | a line containing `Transp` comes back unchanged |
| VpUtils.MarkChar | vp-utils.cpp:209-234 | under policy 3 one character becomes one character; it is `?` exactly when it was `?` or its shifted key leaves the range; a non-key is copied and an in-range key is shifted |
| VpUtils.MarkPolicyLine | vp-utils.cpp:192-240 | policy 3 on a line: the same length, position by position the character image, with `?` exactly at placeholders and lost notes |
| VpUtils.WrapChar | vp-utils.cpp:209-229 | under policy 2 one character becomes one character; a non-key is copied; a key whose shifted index is in range is shifted; one shifted above `maxKey` lands in `[maxKey-12, maxKey)`, one below `minKey` in `[minKey, minKey+12)`, on its own pitch class |
| VpUtils.WrapPolicyLine | vp-utils.cpp:192-240 | policy 2 on a line: the same length, no new `?`, non-keys copied, every key shifted when in range and otherwise moved to the octave just inside the bound it crossed, on its own pitch class |
| VpUtils.WrapMissesMaxKey | vp-utils.cpp:220-227 | a key shifted whole octaves above `maxKey` comes out as the key `maxKey - 12` |
| VpUtils.WithoutPlaceholdersCount | vp-utils.cpp:217 | removing placeholders shortens a text by its number of `?` and leaves no `?` |
| VpUtils.DropChar | vp-utils.cpp:215-236 | policy 1 (or any value without a case) writes what policy 3 writes, minus the `?` |
| VpUtils.DropPolicyLine | vp-utils.cpp:192-240 | on every line without `Transp`, policy 1 writes what policy 3 writes for the line with its leaving notes removed (`KeptNotes`); on a line without `?` that is policy 3 with the placeholders removed |
| VpUtils.KeptNotes | vp-utils.cpp:209-217 | the characters of a line that are not keys shifted out of range: never longer, and none of them leaves the range |
| VpUtils.DropKeptChars | vp-utils.cpp:215-236 | under every policy except 2, transposing a text is transposing its kept notes under policy 3 |
| VpUtils.DropNeverLonger | vp-utils.cpp:215-236 | under every policy except 2 a line never gets longer |
| VpUtils.RoundTrip | vp-utils.cpp:192-240 | when every key stays in range, transposing by `n` and then by `-n` gives the line back |
| VpUtils.IdentityAtZero | vp-utils.cpp:209-213 | over the full range, offset 0 leaves every line unchanged |
| VpUtils.FullRangeIdentity | vp-utils.cpp:243-259 | over the full range, `transposeFile(sheet, 0)` writes the sheet unchanged (no header) |
| VpUtils.LineOutOfBounds | vp-utils.cpp:268-276 | a line's out-of-range count is at most its length |
| VpUtils.LineOutOfBoundsZero | vp-utils.cpp:268-276 | a line counts 0 exactly when it has no `?` and no key outside `[minKey, maxKey]` |
| VpUtils.SumOutOfBounds | vp-utils.cpp:262-281 | the nested loops count, over all output lines, the `?` characters and the keys outside the range |
| VpUtils.SumAccidentals | vp-utils.cpp:285-301 | the nested loops count the accidentals of every output line that does not contain `Transpos` |
| VpUtils.LostNotes | vp-utils.cpp:209-215 | the number of placeholders and out-of-range keys in a line is at most its length |
| VpUtils.MarkedLineOutOfBounds | vp-utils.cpp:261-276 | after policy 3, `sumOutOfBounds` of a line counts exactly its placeholders plus the notes the offset pushed out of range |
| VpUtils.ScoresAt | vp-utils.cpp:87-90 | entry `k` of the C++ score table is `sumOutOfBounds() + sumAccidentals()` of the file written for offset `-12 + k` |
| VpUtils.Session.constructor | vp-utils.cpp:10-14 | the globals start with the full range, policy 3 and no output |
| VpUtils.Session.WriteTransposed | vp-utils.cpp:243-259 | `output.txt` becomes the transposed file for the current range and policy |
| VpUtils.Session.Evaluate | vp-utils.cpp:88-90 | writes the file for an offset and returns its score |
| VpUtils.Session.ScanOffset | vp-utils.cpp:88-104 | one round of the search loop: writes the file for offset `i`, appends its score to the table and advances the C++ fold by it |
| VpUtils.Session.OobPrompt | vp-utils.cpp:304-317 | the policy becomes the user's answer only when the output has out-of-range notes, and the file is rewritten unless the policy is 3 |
| VpUtils.Session.TransposeManually | vp-utils.cpp:71-80 | `transposeFile` then `oobPrompt` for the chosen offset, with the range unchanged |
| VpUtils.SearchOutcome | vp-utils.cpp:86-105 | the loop's three variables for a 25-entry table: the minimum, the first offset reaching it, and ties ending `solutions` |
| VpUtils.Session.SearchOffsets | vp-utils.cpp:83-105 | the search returns the C++ fold of the 25 scores: the minimum, the first offset reaching it, and ties ending `solutions`; `output.txt` is left holding the file for offset 12 |
| VpUtils.Session.ScanOffsets | vp-utils.cpp:87-105 | the loop computes `CppScan` of the score table and leaves the file for offset 12 written |
| VpUtils.Session.TransposeAutomatically | vp-utils.cpp:82-126 | the search, then `transposeFile` and `oobPrompt` at `indexOfLowestCount` |
| VpUtils.Session.Compress | vp-utils.cpp:133-161 | scores the three 3-octave ranges at offset 0, sets the range `[12(c-1), 12(c-1)+36]`, then `transposeFile` and `oobPrompt` |
| VpUtils.Session.CountRanges | vp-utils.cpp:137-144 | the three counts are the scores of the three 3-octave ranges; the range is left at `[24, 60]` and `output.txt` holds its file at offset 0 |
| VpUtils.Session.RecordRange | vp-utils.cpp:139-144 | one round of the loop appends the score of range `i` and leaves range `i` and its offset-0 file set |
| VpUtils.Session.ScoreRange | vp-utils.cpp:140-143 | sets range `i`, writes its file at offset 0 and returns its score |
| VpUtils.RangeScoresAt | vp-utils.cpp:139-144 | entry `i` of the range counts is the score of `[12i, 12i+36]` at offset 0 |
| App.SplitLines | app.js:40 | splitting on `\r?\n` gives one more piece than there are `\n` |
| App.SplitLinesPieces | app.js:40 | no piece holds a `\n` |
| App.JoinSplit | app.js:40-85 | joining the pieces with `\n` gives the text with every `\r\n` turned into `\n` |
| App.CrlfToLfKeeps | app.js:40 | a text without `\r` is unchanged by that rewriting |
| App.TransposedLines | app.js:43-85 | one transposed line per input line |
| App.Page.TransposeString | app.js:38-87 | the nested loops build the joined, transposed lines under the page's policy |
| App.Page.AppendLine | app.js:45-81 | the character loop appends one line's image to the result |
| App.TransposeChar | app.js:47-80 | one character becomes its image under the given policy: a non-key copied, an in-range key shifted, an out-of-range key handled by the switch |
| App.OutOfRangeImage | app.js:60-80 | the switch writes the nearest-octave key, `?`, or nothing |
| App.NearestOctave | app.js:62-69 | the two loops compute the JavaScript octave wrap, landing in `[minKey, maxKey]` on the same pitch class |
| App.NextLine | app.js:82-84 | after line `i` the result holds the lines so far, joined, and a `\n` unless `i` is the last line |
| App.NonKeyCopied | app.js:49-53 | a character that is not a key is copied under every offset and policy |
| App.TransposedLinesAt | app.js:43-85 | line `k` of the result is line `k` of the input, transposed |
| App.LineHasNoBreak | app.js:45-81 | a line without `\n` is transposed to a line without `\n` |
| App.JoinLinesBreaks | app.js:82-84 | joining `m` break-free lines writes `m - 1` line breaks |
| App.LineCountKept | app.js:38-87 | the result has exactly as many lines as the input |
| App.LineIdentity | app.js:56-59 | over the full range, offset 0 returns every line unchanged |
| App.IdentityAtZero | app.js:38-87 | over the full range, offset 0 returns the text with `\r\n` written as `\n`, so a text without `\r` comes back unchanged |
| App.AgreesWithCpp | app.js:45-81 | under `question` (C++ 3) and under `delete`, `octswitch` or an unknown value (C++ 1), a line is transposed exactly as `transposeLine` transposes its characters |
| App.QuestionPolicyLine | app.js:71-73 | `question` on a line: the same length, `?` exactly at placeholders and at notes leaving the range, other keys shifted, non-keys copied |
| App.DeletePolicyLine | app.js:74-78 | `delete`, `octswitch` and unknown values never lengthen a line, and write `question`'s result for the line with its leaving notes removed (`KeptNotes`) |
| App.DeleteUnmarkedLine | app.js:74-78 | on a line without `?`, they write `question`'s result with the placeholders removed |
| App.WrapImage | app.js:55-70 | under `transpose` one character becomes one character; a non-key is copied, an in-range key shifted, an out-of-range key moved to the nearest octave in range |
| App.WrapLineAt | app.js:45-81 | under `transpose`, position `k` of a line's image is the image of position `k` |
| App.TransposePolicyLine | app.js:45-81 | `transpose` on a line: the same length, no new `?`, non-keys copied, every key at its nearest octave in range |
| App.TransposeReachesMaxKey | app.js:63-69 | a key shifted whole octaves above `maxKey` comes out as the key `maxKey` |
| App.SumAccidentals | app.js:115-118 | the match count is at most the length, and 0 exactly when no character is an accidental |
| App.JoinedAccidentals | app.js:115-118 | on lines without `Transpos`, the page's count over the joined text equals the C++ line-by-line count (vp-utils.cpp:292-297) |
| App.Page.constructor | app.js:31 | the page's policy starts as the value of the select box |
| App.Page.UpdateOobHandling | app.js:32-34 | the page's policy becomes the selected one |
| App.Page.SumOutOfBounds | app.js:99-112 | counts the `?` of the text and leaves the page's policy as it was |
| App.ScanStep | app.js:128-141 | scoring offset `-12 + n` and recording it extends the fold over the first `n` scores by one |
| App.Page.ScanOffsets | app.js:127-142 | the loop computes the cleared fold of the 25 scores, and the policy is unchanged |
| App.Page.ScanOffset | app.js:128-141 | one round of `findBestTranspose`'s loop: scores `transposeAmt` under the page's policy and advances the cleared fold by it, with the policy unchanged |
| App.Page.CountFor | app.js:128-129 | `sumAccidentals + sumOutOfBounds` of the transposed text under the page's policy |
| App.Page.FindBestTranspose | app.js:122-145 | returns the minimum score and exactly the offsets that reach it, non-empty and ascending, with the page's policy unchanged |
| App.Page.UpdateOctaveMisses | app.js:160-172 | the three counts are the scores of `[0,36]`, `[12,48]` and `[24,60]` at offset 0 |
| App.Page.CountRange | app.js:163-167 | sets count `i` to the score of range `i` and keeps the others |

## Left out

- Console and file I/O are left out. The C++ program's `std::cin` prompts,
  `readInt`'s re-prompting and the input-path checks become parameters: the sheet
  lines, the chosen offset, the policy answer and the chosen range. `output.txt`
  is a sequence of lines. Reading it back with `getline` is the identity on
  those lines because none of them holds a `\n`. For the sheet this is
  `GetlineLines`, required by the `Session` constructor and kept by
  `Session.Valid`. For the output file it is `VpUtils.OutputHasNoBreak`.
  Messages printed to the user are not modelled.
- The web page's DOM is left out: `transposeToOutput`, `autoTransposeOutput`,
  `hideAutoTranspose`, `onTextUpdate`, `outputToInput`, the event listeners and
  the button labels. `transposeToOutput`'s `Transpose <-n>` header line depends on
  the input field rather than on `noteAmount`, and is not modelled.
  `updateOctaveMisses` is modelled up to the counts it writes into the labels.
- `parseInt(noteAmount)` is left out: offsets are integers. The search uses number
  offsets, and the other callers pass 0 or a text field the page does not
  validate.
- The `INT_MAX` and `Number.MAX_SAFE_INTEGER` sentinels are modelled as `None`.
  That is exact while every score stays below the constant. Each of the two counts
  is at most the total length of the output it counts. A score adds two counts, so
  it is at most twice that length. A note can be counted by both counters: an
  accidental outside the range on a line that contains `Transp` but not
  `Transpos` is copied unchanged and still counted as an accidental.
- `VpUtils.Playable` and `App.Playable` are preconditions the source does not
  check. They require the range to lie within the keyboard and, for the octave
  policy, to span at least 12 keys (13 for C++). The 13-key C++ bound is what the
  `< maxKey` conclusion of `CppWrapLands` needs, not a limit of the source: with
  exactly 12 keys the C++ wrap still lands in the range. Every range the programs
  set (full and 3-octave) satisfies them. A range reaching outside the keyboard
  makes the source index outside `VP_CHARS`.
- The `octswitch` policy is a stub in the source ("currently not implemented"). It
  behaves like `delete`, and it is modelled that way.
- The open ideas in the C++ header comment (an octave-switch policy and
  case-insensitive marker detection) are not implemented in the source.
- Integer width is left out. In the C++ program indices stay within `[-12, 72]`
  (a key index plus an offset of at most 12). Each count is at most the total
  length of the output it counts, and a score (`sumOutOfBounds() +
  sumAccidentals()`) at most twice that length. A 32-bit `int` score can
  therefore only overflow for an output longer than about 2^30 characters.

## Findings

| source | as written | input that shows it | evidently intended | confidence | as-written member | corrected member |
|---|---|---|---|---|---|---|
| vp-utils.cpp:92-101 | a new lower count erases only the first entry of `solutions`, so offsets tied at the old minimum stay listed | counts 1, 1, 0 for offsets -12, -11, -10 leave `solutions` = -11, -10 | clear the list, as `findBestTranspose` does, so that exactly the offsets with the lowest count are reported | high (not executed) | Search.CppScanKeepsStale | Search.ClearedScanExact |
| vp-utils.cpp:221-223 | the downward loop runs while the index is `>= maxKey`, so a note exactly one or more octaves above `maxKey` lands an octave below the top key instead of on it | range `[0, 60]`, key `m` (index 60) shifted by +12 gives index 72, written as index 48 | stop at `> maxKey`, as `app.js` does, landing on the nearest octave inside the range | medium (not executed) | VpUtils.WrapMissesMaxKey | App.TransposeReachesMaxKey |

The corrected definitions are the ones the `App` module uses: `ClearedScan` in
`App.Page.FindBestTranspose` and `JsWrap` in `App.TransposeChar`. `VpUtils` keeps
the C++ behaviour as written.
