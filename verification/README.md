# DateTyper in Dafny

DateTyper turns a plain text input into a date editor. It does not know the
date format in advance. Instead it learns the format from the caller's
formatter:

- It formats three probe dates: 1 February 2001 10:34:56, the same date one
  hour later, and the same time on 1 March.
- It splits each result on runs of `.`, `-`, `/`, `:`, `,` and white space.
- It works out which token holds the year, month, day, hour, minute and
  second.

Once it knows the layout, the arrow keys move the selection from field to field
and change the selected field by one. The Enter key reads the typed text back
into a date. A mouse click selects the field under the cursor.

This project models that logic and proves what it does. The modules are:

- `JsValues`: the JavaScript primitives the widget relies on. `undefined` and
  NaN are `None`. The module covers `findIndex`, unary `+` on a token, the
  truncating `%`, and the case-insensitive `^prefix` test.
- `Tokenizer`: `splitDate`, and the `exec` loop that computes token spans. It
  proves that the spans and the split agree.
- `HostDate`: the host's `Date` constructor, its field setters and the
  caller's formatter. These are uninterpreted functions.
- `Inference`: `learn`. It holds the three detectors, the detection loop, the
  stable sort by token position and the month-label table.
- `NumericFormat`: what `learn` infers from a formatter that prints all six
  fields as decimal numbers, whatever their order and zero padding.
- `Analyzer`: `analyzeDate` reads the fields back from the text, and
  `updateDate` rebuilds the date from them.
- `Widget`: the widget itself, as the class `DateTyper`. Its fields are the
  learned fields (`memory.index`), the month table, the input's text, the
  shown selection, `currentField`, `upDate` and the change events it
  dispatched. Its methods are:
  - `createFieldSpans`
  - `selectField`
  - `moveDateComponent`
  - `choseDateComponent`
  - `analyzeDate`
  - `updateDate`
  - `changeDateComponent`
  - the Enter key

Some JavaScript code throws a TypeError partway through:

- `spans[v.index][0]` when a field's token position has no span
  (DateTyper.js:230);
- `.from` of `memory.index[currentField]` when the normalized ordinal is NaN
  or negative, so that the entry is `undefined` (DateTyper.js:214-215);
- `.value` of `memory.index[currentField]` in `changeDateComponent` when no
  field sits at that ordinal (DateTyper.js:250-251);
- `.match` on an undefined month label (DateTyper.js:88).

The model's methods return `ok == false` in those places, and they keep the
partial state the JavaScript leaves behind.

## Model

| member | source | states |
|---|---|---|
| JsValues.FindIndex | DateTyper.js:45-54 | the result is the first position whose test holds, or -1 exactly when no position passes |
| JsValues.ParseDecimal | DateTyper.js:95 | `+token` is a number exactly when the token is all decimal digits; it is never negative, and the empty token reads as 0 |
| JsValues.ToNumber | DateTyper.js:84 | `+v` is a number exactly when `v` is a token made only of digits; `undefined` gives NaN |
| JsValues.ParseDecimalOfDecimal | DateTyper.js:95 | unary plus reads every decimally printed natural number back as itself (round trip) |
| JsValues.ParseDecimalIgnoresLeadingZeros | DateTyper.js:95 | leading zeros do not change what unary plus reads from a token |
| JsValues.PaddedDecimalReadsBack | DateTyper.js:95 | a natural number printed in decimal after any number of zeros ("05") reads back as itself |
| JsValues.Plus | DateTyper.js:251 | `x + d` is NaN when either side is; otherwise subtracting `d` from it gives back `x` |
| JsValues.JsRem | DateTyper.js:213 | JavaScript `%` with a positive divisor: the remainder has the sign of the dividend, is smaller than the divisor in magnitude, and differs from the dividend by a multiple of the divisor |
| Tokenizer.NextSeparator | DateTyper.js:29 | the first separator at or after a position: every character before it is not a separator |
| Tokenizer.RunEnd | DateTyper.js:29 | the greedy `+` of the separator class: the run holds only separators, and the character after it is not one |
| Tokenizer.Exec | DateTyper.js:222 | `separator.exec` from `lastIndex`: no match exactly when no separator is left; otherwise the leftmost maximal run of separators |
| Tokenizer.SplitFrom | DateTyper.js:63-65 | `split` always yields at least one token, even for empty text |
| Tokenizer.TokensHaveNoSeparator | DateTyper.js:63-65 | no token of the split contains a separator character |
| Tokenizer.TokenAt | DateTyper.js:83 | `fields[i]` is a token exactly when i is within the split, and `undefined` otherwise |
| Tokenizer.SpansFrom | DateTyper.js:219-228 | there are exactly as many spans as tokens |
| Tokenizer.SpansMatchSplit | DateTyper.js:219-228 | the text of span i is token i; the first span starts at 0 and the last ends at the text length; consecutive spans are separated by a non-empty run made only of separators |
| Tokenizer.SplitJoined | DateTyper.js:63-65 | a text made of non-empty, separator-free tokens with one separator character between neighbours splits back into exactly those tokens |
| Tokenizer.SpansIncrease | DateTyper.js:219-228 | every span ends before any later span starts, so spans never overlap |
| Tokenizer.ExecStep | DateTyper.js:222-225 | one iteration of the exec loop closes the current span at the match and starts the next span after it; with no match, the last span runs to the end |
| Tokenizer.ComputeSpans | DateTyper.js:220-228 | the while loop over `exec` produces exactly the spans of the split |
| Inference.Rank | DateTyper.js:127-134 | each field kind has its place in the order the `fields` array is tried |
| Inference.Locate | DateTyper.js:141-143 | a detector returns the first position of probe A's tokens that passes its test, or -1 exactly when none does |
| Inference.DetectFields | DateTyper.js:145-161 | the forEach pushes exactly the fields whose detector found a position, with that position, in trial order |
| Inference.Insert | DateTyper.js:169-171 | inserting a field tried later keeps the fields sorted by position, with ties in trial order, and adds exactly that field |
| Inference.SortByIndex | DateTyper.js:169-171 | the stable sort by index is sorted by token position, with ties in trial order, and is a permutation of the detected fields |
| Inference.SortedDetectionIsLayout | DateTyper.js:158-171 | after the sort, the layout holds each detected field exactly once, at its detected position; a kind is present exactly when its detector succeeded |
| Inference.FindFieldByKind | DateTyper.js:68-70 | finds a field of the kind exactly when one exists, and returns the first such field |
| Inference.FindFieldByIndex | DateTyper.js:73-75 | finds a field at the token position exactly when one exists, and returns the first such field |
| Inference.BuildMonthTable | DateTyper.js:177-181 | exactly 12 entries; entry k has value k and, as its label, the token at the month's position of probe A moved to month k |
| Inference.Learn | DateTyper.js:114-184 | the result is a layout learned from the three probes, and its month table is built at the month's position, or is empty when no month was found |
| NumericFormat.NumericQualifies | DateTyper.js:141-143 | for such a formatter, a position passes a field's detector exactly when that field is printed there |
| NumericFormat.LocateNumeric | DateTyper.js:141-157 | for such a formatter, every detector finds its field where the formatter prints it |
| NumericFormat.NumericLayoutPositions | DateTyper.js:145-171 | each learned field sits where the formatter prints it, and every position 0 to 5 is covered |
| NumericFormat.InferenceRecoversOrder | DateTyper.js:114-171 | whatever order and zero padding such a formatter's tokens have, the layout learned from them holds all six fields, in that order, at positions 0 to 5 |
| NumericFormat.NumericHostTokens | DateTyper.js:117-119 | for a host that formats each probe as the six numbers, zero-padded or not, with one separator character between neighbours, `createTestFields` returns exactly those numbers as tokens |
| NumericFormat.LearnedFromNumericHost | DateTyper.js:114-171 | for such a host, the layout `learn` returns holds all six fields, in the order the host prints them, at positions 0 to 5 |
| Analyzer.LookupMonth | DateTyper.js:88 | the month lookup finds the first entry whose label starts with the token, ignoring case; it finds none exactly when every label is present and none matches; it throws only at an `undefined` label that comes before any match |
| Analyzer.ReadField | DateTyper.js:80-97 | a non-month field is set to what unary plus reads from its token (NaN without one), a number exactly when the token is all digits; a month token that reads as a nonzero n sets the month to n - 1; any other month token is looked up: set to the found entry's value, kept exactly when no label matches, and thrown exactly when the lookup throws |
| Analyzer.NumberReadsBack | DateTyper.js:94-96 | a non-month field whose token is a decimal number, zero-padded or not, reads back as that number |
| Analyzer.MonthNumberReadsBack | DateTyper.js:84-85 | a month printed as its 1-based number, zero-padded or not ("02"), reads back as its 0-based index |
| Analyzer.MonthLabelReadsBack | DateTyper.js:87-91 | a month token that is not a nonzero number, and that starts (ignoring case) the first matching label, reads back as that label's month |
| Analyzer.FirstThrow | DateTyper.js:80-98 | the position of the first field whose reading throws, or the number of fields when none throws |
| Analyzer.AnalyzeAll | DateTyper.js:78-99 | analyzeDate changes only values; it refreshes every field before the first throwing one and leaves the rest as they were |
| Analyzer.NoMonthNoThrow | DateTyper.js:94-96 | without a month field analyzeDate never throws, and every field gets `+token` at its position |
| Analyzer.AnalyzeIdempotent | DateTyper.js:78-99 | analyzing the same text twice gives what analyzing it once gave, and it throws at the same field |
| Analyzer.ApplySettersUsesKindsAndValues | DateTyper.js:103-106 | the rebuilt date depends only on each field's kind and value, in layout order |
| Analyzer.Rebuilt | DateTyper.js:102-107 | updateDate's date is never invalid: it is the rebuilt date when that is valid, and now otherwise |
| Widget.FirstUnplaced | DateTyper.js:229-232 | the position of the first field whose token has no span, where `spans[v.index][0]` throws |
| Widget.PlaceFields | DateTyper.js:229-232 | only the ranges change: each field before the first one without a span gets its token's span, and the rest stay as they were |
| Widget.PlacedFieldsShowTheirTokens | DateTyper.js:229-232 | once every field has a span, the range of each placed field is exactly its token in the text |
| Widget.Normalize | DateTyper.js:212-213 | `(c + n) % n` is NaN exactly when c is NaN or there are no fields; from any c >= -n it is a valid field ordinal, and it leaves an ordinal already in range unchanged |
| Widget.NormalizeRemainder | DateTyper.js:213 | from c >= -n the selected ordinal is c modulo n |
| Widget.Moved | DateTyper.js:258-261 | one arrow press from a valid field selects the neighbouring field, wrapping from the last to the first and from the first to the last |
| Widget.MovedRight | DateTyper.js:275-277 | repeated right-arrow presses always land on a valid field |
| Widget.RightArrowCycles | DateTyper.js:258-261 | k right-arrow presses from field c land on (c + k) mod n, so n presses return to the same field |
| Widget.ArrowsUndoEachOther | DateTyper.js:275-286 | a left-arrow press undoes a right-arrow press, and the other way round |
| Widget.LastCovering | DateTyper.js:239-244 | the field the cursor selects is the last one whose range holds the cursor or ends just before it; -1 when none does |
| Widget.CursorInTokenSelectsIt | DateTyper.js:236-245 | with fields in token order, a cursor inside a field's token selects a field on that same token, and never an earlier field |
| Widget.Bump | DateTyper.js:250-251 | `field.value += value` changes the selected field's value by the delta and no other field |
| Widget.DateTyper.constructor | DateTyper.js:186-201 | the widget starts with the layout and month table `learn` infers from its formatter, in token order; it shows the initial date, with field 0 selected and nothing dispatched |
| Widget.DateTyper.CreateFieldSpans | DateTyper.js:219-233 | places the fields on the spans of the current text, and succeeds exactly when every field has a token |
| Widget.DateTyper.SelectField | DateTyper.js:210-216 | normalizes `currentField` and shows the selected field's range; on success that range is exactly the field's token; a missing token or a NaN/negative ordinal throws |
| Widget.DateTyper.MoveDateComponent | DateTyper.js:258-261 | moves `currentField` by the delta and reselects; from a valid field, an arrow press selects the neighbouring field with wrap-around |
| Widget.DateTyper.ChoseDateComponent | DateTyper.js:236-245 | selects and shows the last field the cursor is in or just after, and otherwise leaves the selection alone; a cursor inside a token selects a field on that token |
| Widget.DateTyper.CoveringField | DateTyper.js:239-244 | the forEach loop finds the last field whose range holds the cursor or ends just before it |
| Widget.DateTyper.AnalyzeDate | DateTyper.js:78-99 | the fields become the analysis of the text, and it succeeds exactly when no month lookup throws |
| Widget.DateTyper.UpdateDate | DateTyper.js:102-109 | `upDate` is the date rebuilt from the fields (now when that is invalid), and the text is its formatting |
| Widget.DateTyper.ChangeDateComponent | DateTyper.js:248-255 | after reading the text, only the selected field's value changes, by the delta; the date is rebuilt and shown, the same field is reselected, and the new date is dispatched; when the read throws or no field is selected, nothing after the read happens |
| Widget.DateTyper.ShiftSelected | DateTyper.js:250-254 | bumps the selected field, rebuilds and shows the date, reselects, and dispatches the date only when reselecting succeeds |
| Widget.DateTyper.CommitEntry | DateTyper.js:303-309 | Enter reads the text into the fields, rebuilds and shows the date, dispatches it, and reselects; when the read throws, nothing else happens |

## Left out

- The DOM and event plumbing are host I/O, so they are left out: `querySelector`, the listeners, `preventDefault`, `spellcheck`, `setTimeout`, and the construction of the `CustomEvent`. A dispatched event is recorded only as its `valueAsDate`.
- The key codes are left out. Only their effect is modelled: right (39) and `.` (190) are `MoveDateComponent(+1)`, left (37) and `,` (188) are `MoveDateComponent(-1)`, up (38) and key code 53 are `ChangeDateComponent(+1)`, down (40) and key code 191 are `ChangeDateComponent(-1)`, and Enter (13) is `CommitEntry`.
- The mouse-drag, wheel and touch handlers (DateTyper.js:315-373) are left out. They convert pixel distances with float division. Their effect on the date is `ChangeDateComponent` with some delta, and `None` stands for the NaN delta of a wheel event without one.
- The calendar arithmetic of the host's `Date` is not modelled: the constructor, the six setters with their overflow rules, and the `valueOf` validity test. `HostDate.Host` carries these as uninterpreted functions, and `TimeValue` is a time value or NaN.
- The caller's `dateFormatter` and the default `toString` are an uninterpreted function, `Host.format`.
- `new Date()` is the parameter `now`. The initial date, from the `data-date` attribute or the current time, is the constructor parameter `initial`.
- Widget.DateTyper.ChoseDateComponent: `setSelectionRange` is called once per matching field, and only the last call, the range left shown, is recorded.
- JsValues.ParseDecimal: unary `+` is modelled for decimal digit strings only. Tokens never hold `.`, `-` or white space, but forms such as `1e3`, `0x1F` and `Infinity` would read as numbers in JavaScript and read as NaN here.
- JsValues.StartsWithIgnoringCase: it folds only the letters A-Z and treats the token literally. Regular-expression metacharacters in a month token, and case folding beyond ASCII, are not modelled.
- Numbers are unbounded integers, but JavaScript numbers are doubles. A typed token can be any length. A token above 2^53 is rounded to the nearest double by JavaScript, and one of about 310 digits or more reads as `Infinity`. The model reads every digit string exactly, and `field.value += value` is exact too.
- Analyzer.NumberReadsBack: the exact read-back holds for every natural number only in the model. In JavaScript it holds up to 2^53: the token "9007199254740995" reads as 9007199254740996 there and as 9007199254740995 here.
- Analyzer.MonthNumberReadsBack: the exact read-back of the month number holds for every natural number only in the model. In JavaScript it holds up to 2^53, as for Analyzer.NumberReadsBack.
- JsValues.ParseDecimalOfDecimal: the round trip is exact for every natural number only in the model. In JavaScript it holds up to 2^53. The same goes for JsValues.PaddedDecimalReadsBack.
- Positions in the text are counted in characters (Unicode code points). JavaScript counts UTF-16 code units for `match.index`, `match[0].length`, `input.value.length` and `selectionStart` (DateTyper.js:223-228, 237). In a text with characters outside the Basic Multilingual Plane, the model's span bounds and cursor comparisons therefore differ from the widget's.
- The global separator's `lastIndex` is not kept as state. `split` ignores it, and the exec loop always runs to a null match, which resets it to 0.
- `findFieldByName` compares field names. The model compares the field kinds, which stand one-for-one for the names.
- NumericFormat.LearnedFromNumericHost: it covers hosts that put exactly one separator character between neighbouring numbers. A formatter that writes ", " between fields splits into the same tokens, but it is not covered.
- Zero detected fields are handled as in the code, not excluded by a precondition. `(c + 0) % 0` is NaN, and `memory.index[NaN]` then throws, so `SelectField` fails.
- The `!field.index` guard of the three detectors is always true while `findIndex` runs, because `field.index` is assigned only afterwards. The detectors are therefore plain first-match searches.
