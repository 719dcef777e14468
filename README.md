# RockerCalc core, modelled in Dafny

RockerCalc is a Pebble watch calculator that is driven by motion. The
accelerometer delivers batches of samples. Two moving-average smoothers
take each batch: a fast one over 4 samples and a slow one over 64. The
difference between their means is classified into a numpad tilt zone 1..9,
where 5 means level. The zone steps a cursor over an 18-key keypad, and the
select button presses the key under the cursor. The keys drive a small state
machine: an entry mode, a stored value, a pending operator, an operator
display and a number display. The number display is parsed to a value and
results are formatted back into it using only integer formatting.

The model follows the one C file, `src/main.c`. It has one module per piece:

- `Smoothing` holds two classes. `Smoother` is the ring buffer: a fixed
  `array<int>` of 128 slots, a write index, a fill count and a running sum,
  updated in place. `SmoothVector3` holds three smoothers. A ghost sample
  history and the invariant `Inv` relate the buffer to the last
  min(n, size) samples.
- `Tilt` is the decision table from the difference vector to a zone.
- `Keys` covers the keypad. The `ButtonSet` class places buttons with the
  layout cursor of `rc_add_button`. `Layout` is the resulting keypad, and
  `Lookup` is the first-match scan of `rc_get_current_button`.
- `Codec` covers the number display. `ParseNumber` is the three loops of
  `rc_get_number_value`, proved equal to the value function `Value`.
  `FormatNumberAsWritten` models `rc_update_number_buffer` as written, and
  `FormatNumber` a corrected version of it. Round-trip and stability lemmas
  connect the corrected `FormatText` and `Value`.
- `Calculator` holds the cursor step and the key state machine. `Press` is a
  value-level specification on `State`. It takes the rules to follow:
  `AsWritten`, the source's digit-entry test and formatter, or `Corrected`,
  the intended ones (see "Findings"). The class `Calc` holds the same fields
  and changes them in place, and each of its key methods is proved against
  `Press` under `AsWritten`.
- `Sampler` is the batch handler. The class `Device` holds the file-scope
  globals `vslow`, `vfast`, `vdiff`, `tilt`, `tilt_time` and `shutdown`.

Some C semantics are written out explicitly:

- C's truncating integer division is `Smoothing.TruncDiv`.
- The `(int)` cast of a float is `Codec.TruncReal`.
- Unsigned 64-bit subtraction is `Sampler.Wrap64Sub`.
- Floats are modelled as exact reals.

## Model

| member | source | states |
|---|---|---|
| Smoothing.LastN | src/main.c:155 | the window has min(k, number of samples) elements |
| Smoothing.SumBound | src/main.c:156-158 | samples in [-m, m] keep the running sum within ±(count · m) |
| Smoothing.WindowSumFitsInt32 | src/main.c:133-137 | a window of at most 128 int16 samples has a sum that fits the 32-bit `sum` field |
| Smoothing.TruncDiv | src/main.c:164 | the quotient truncates toward zero: q·b ≤ a < q·b + b for a ≥ 0, and q·b − b < a ≤ q·b for a < 0 |
| Smoothing.RotateStep | src/main.c:156-159 | writing slot p and advancing p drops the oldest ring element and appends the sample |
| Smoothing.LastNStep | src/main.c:155 | one more sample grows the window until it is full, then slides it |
| Smoothing.Next | src/main.c:159 | the write index advances to (p + 1) mod size |
| Smoothing.Inv | src/main.c:131-160 | the smoother state over plain values: write index = number of updates mod size, fill count min(updates, size), the ring read from the write index = zeros then the last min(updates, size) samples, unused slots zero, sum = window sum |
| Smoothing.InvStep | src/main.c:154-160 | one update keeps the invariant: write index = number of updates mod size, fill count min(updates, size), ring = zeros then the window, unused slots zero, sum = window sum |
| Smoothing.InvBounds | src/main.c:156-157 | under the invariant the write index addresses a slot of the buffer |
| Smoothing.RingStep | src/main.c:155-159 | read from the new write index, the ring holds one zero fewer and the grown window, or the slid window once full |
| Smoothing.FillingStep | src/main.c:155-158 | while the window fills, one leading zero of the ring gives way to the sample |
| Smoothing.SumStep | src/main.c:156-158 | the running sum minus the overwritten slot plus the sample is the sum of the new window |
| Smoothing.ModStep | src/main.c:159 | advancing a write index kept as k mod size gives (k + 1) mod size |
| Smoothing.AxesSnoc | src/main.c:168-172 | the per-axis sample lists of a batch prefix grow by one sample's x, y and z |
| Smoothing.Smoother.constructor | src/main.c:146-151 | a zeroed smoother of the given capacity with an empty history |
| Smoothing.Smoother.Update | src/main.c:154-160 | the invariant is kept and the sample is appended to the history |
| Smoothing.Smoother.Mean | src/main.c:162-165 | 0 on an empty window, otherwise the window's sum divided by its length, truncated toward zero |
| Smoothing.SmoothVector3.constructor | src/main.c:146-152 | three distinct empty smoothers, whose capacity is the requested size clamped to 128 |
| Smoothing.SmoothVector3.UpdateSample | src/main.c:168-172 | one sample's x, y and z go to the three smoothers |
| Smoothing.SmoothVector3.UpdateBatch | src/main.c:167-173 | each axis history is extended by that axis of the whole batch, in order |
| Smoothing.MeanExample | src/main.c:154-165 | capacity 2 fed 10, 20 gives 15, and a further −30 gives −5, the mean −10 / 2 truncated toward zero |
| Smoothing.FeedTwo | src/main.c:154-160 | two updates append exactly those two samples to the smoother's history |
| Smoothing.ExampleWindows | src/main.c:155-165 | the windows of that example are [10, 20] and [20, −30], with truncated means 15 and −5 |
| Smoothing.MeanExampleFour | src/main.c:154-165 | capacity 4 fed 10, 20, 30, 40 gives 25, and a further 100 gives 47, the mean 190 / 4 truncated |
| Smoothing.FourWindows | src/main.c:155-165 | the windows of that example are [10, 20, 30, 40] and [20, 30, 40, 100], with truncated means 25 and 47 |
| Tilt.Zone | src/main.c:381-408 | the zone is in 1..9; it is 5 exactly when both differences are within ±75; left column exactly when x < −75, right column exactly when x > 75, bottom row exactly when y < −75, top row exactly when y > 75 |
| Tilt.ZoneNegated | src/main.c:381-408 | negating the difference vector maps zone t to 10 − t |
| Tilt.ZoneIgnoresZ | src/main.c:381-408 | the z difference plays no part |
| Keys.Layout | src/main.c:330-352 | the keypad has 18 buttons: the i-th key of the table (7 8 9 / * -, then 4 5 6 C <- +, then 1 2 3 0 . =) at column i mod 6 and row i div 6 of the grid |
| Keys.Label | src/main.c:330-352 | the label text of a key: its digit, or "/", "*", "-", "+", "C", "<-", "." or "=" |
| Keys.GridIndex | src/main.c:322-327 | an on-grid position is the corner of grid place i < 18 |
| Keys.GridInjective | src/main.c:322-327 | two grid places at one position are the same place |
| Keys.LayoutCoversGrid | src/main.c:330-352 | every on-grid position is the corner of exactly one keypad button |
| Keys.LayoutOnGrid | src/main.c:330-352 | every keypad button sits on the grid |
| Keys.GridStep | src/main.c:322-327 | from place k the layout cursor steps right, or wraps to the left edge of the next row when the next button would pass the screen width |
| Keys.LayoutPrefix | src/main.c:330-352 | adding the table's key k at place k to the first k buttons gives the first k + 1 |
| Keys.ButtonSet.constructor | src/main.c:287-294 | no buttons, and the layout cursor at (10, 60) |
| Keys.ButtonSet.AddButton | src/main.c:296-328 | the button is appended at the old cursor; the cursor steps right or wraps to the next row, in both directions of the screen-width test |
| Keys.ButtonSet.AddKeypad | src/main.c:330-352 | the eighteen calls lay out exactly the keypad |
| Keys.ButtonSet.AddTopRow | src/main.c:332-337 | the first six buttons are the keypad's first six |
| Keys.ButtonSet.AddMiddleRow | src/main.c:339-344 | the next six buttons extend that to the keypad's first twelve |
| Keys.ButtonSet.AddBottomRow | src/main.c:346-351 | the last six complete the keypad |
| Keys.ButtonSet.AddKey | src/main.c:296-328 | adding the table's key of place k to the keypad's first k buttons gives its first k + 1 |
| Keys.ButtonSet.Lookup | src/main.c:456-463 | None exactly when no button is at (x, y); otherwise the first button at (x, y) |
| Keys.LookupOnKeypad | src/main.c:456-463 | on the keypad every on-grid cursor finds the key at its grid place, never NULL |
| Codec.Pow | src/main.c:468-471 | a power of a base ≥ 1 is ≥ 1 |
| Codec.PowAdd | src/main.c:468-471 | base^(a+b) = base^a · base^b |
| Codec.DigitChar | src/main.c:499 | the character of digit d is a digit of value d |
| Codec.IntegerValueStep | src/main.c:494-502 | one more integer character scales the place values by 10, and '-' contributes nothing |
| Codec.LastDot | src/main.c:490-492 | the position of the last '.', or None when there is none |
| Codec.IntegerEnd | src/main.c:493 | the integer part ends within the string |
| Codec.ScanDot | src/main.c:488-492 | the last '.' position, or the sentinel 9999 |
| Codec.ScanInteger | src/main.c:494-502 | the integer digits' value, and whether a '-' occurred |
| Codec.ScanFraction | src/main.c:503-508 | the fraction digits' value is added |
| Codec.ParseNumber | src/main.c:484-513 | the result is the display's exact decimal value `Value` |
| Codec.Value | src/main.c:484-513 | the exact decimal value of a display: the digits before the last '.' as an integer (a '-' anywhere there negates), plus the digits after it as a fraction |
| Calculator.WholeValue | src/main.c:494-502 | a digit string without '.' reads as its integer value |
| Codec.Digits | src/main.c:522 | `%d` of a non-negative int prints one or more digits |
| Codec.TruncReal | src/main.c:522-523 | the `(int)` cast truncates toward zero |
| Codec.ScaledFraction | src/main.c:528-530 | the scaled fraction is in 0..999999, and the integer part plus f millionths is within one millionth below the value |
| Codec.StripTrailingZeros | src/main.c:524 | cutting trailing zeros never lengthens the string |
| Codec.BeforeFirstZero | src/main.c:532-537 | the prefix before the first '0' is no longer than the string |
| Codec.ZeroedOut | src/main.c:532-536 | replacing zeros by NUL keeps the length |
| Codec.CLength | src/main.c:537 | strlen: no NUL before k, and a NUL at k when k is inside the buffer |
| Codec.DigitsLength | src/main.c:530-531 | a number below 10^k prints in at most k digits, so zlen is not negative |
| Codec.FormatNumberAsWritten | src/main.c:521-542 | the loop as written gives `FormatTextAsWritten`: the padding, then the scaled digits up to their first '0' |
| Codec.FormatTextAsWritten | src/main.c:521-542 | the text the source writes: `%d` of the integer part, then for a value that is not whole "." and the zero padding followed by the scaled digits up to their first '0' |
| Codec.ZeroOutZeros | src/main.c:532-536 | the loop as written turns every '0' of the digit buffer into NUL and keeps everything else |
| Codec.ZeroedOutLength | src/main.c:532-537 | after every '0' becomes NUL, the string strlen sees is the digits before the first '0' |
| Codec.FormatNumber | src/main.c:521-542 | the corrected formatter gives `FormatText`: the integer part, then "." and the padded fraction without trailing zeros when the value is not whole and its six places are not all zero |
| Codec.FormatText | src/main.c:521-542 | the corrected text: `%d` of the integer part, then, unless the value is whole or its six places are zero, "." and the padded fraction without its trailing zeros |
| Codec.CutTrailingZeros | src/main.c:532-536 | the corrected strip loop keeps the length, and the string strlen sees is the digits without trailing zeros |
| Codec.IntegerValueSnoc | src/main.c:500 | one more digit multiplies the value by 10 and adds the digit |
| Codec.DigitsValue | src/main.c:522 | the printed digits of n read back as n |
| Codec.IntegerValueConcat | src/main.c:500 | the value of a + b is value(a) · 10^len(b) + value(b) |
| Codec.IntegerValueZeros | src/main.c:527 | zero padding has value 0 |
| Codec.StripTrailingZerosSplit | src/main.c:524 | a string is its stripped form followed by zeros |
| Codec.FractionValueAsInteger | src/main.c:503-508 | the fraction digits' value is their integer value over 10^length |
| Codec.StripValue | src/main.c:532-536 | cutting trailing zeros divides the digits' value by a power of 10 |
| Codec.PadValue | src/main.c:531-538 | leading zero padding keeps the digits' value |
| Codec.FractionTextDigits | src/main.c:530-538 | the corrected fraction text is all digits |
| Codec.FractionTextValue | src/main.c:528-540 | the corrected fraction text reads back as f millionths |
| Codec.PaddedStrippedValue | src/main.c:531-538 | padding to six places after cutting trailing zeros reads back as the digits' value in millionths |
| Codec.ScaledDigitsValue | src/main.c:529-531 | digits padded to six places read as their scaled value in millionths |
| Codec.RescaleMillionths | src/main.c:529 | k / 10^u equals (k · 10^(6−u)) millionths |
| Codec.LastDotBetween | src/main.c:490-493 | in integer part + "." + digits, the last '.' is the one between them |
| Codec.LastDotSkipsDigits | src/main.c:490-492 | digits appended after a string do not move its last '.' |
| Codec.ValueWithoutDot | src/main.c:493-512 | a display without '.' reads as its integer value, negated when it holds a '-' |
| Codec.DecimalValue | src/main.c:484-513 | the `%d` text of an integer parses back to that integer |
| Codec.NaturalValue | src/main.c:494-502 | the `%d` digits of a non-negative int read back as it |
| Codec.NegativeValue | src/main.c:494-512 | "-" followed by the digits of m reads back as −m |
| Codec.FormatRoundTrip | src/main.c:521-542 | corrected formatter: parsing its text gives the value back when it is whole, and otherwise its integer part plus the scaled fraction in millionths |
| Codec.FormatStable | src/main.c:521-542 | corrected formatter: its text reads back as a formattable value that it writes as the same text again |
| Codec.FormatTruncates | src/main.c:521-542 | corrected formatter: for a non-negative value, the displayed value is at most the value and less than one millionth below it |
| Codec.AppendDigitWellFormed | src/main.c:561 | appending a digit keeps the display well formed |
| Codec.AppendDotWellFormed | src/main.c:647-649 | appending '.' to a display without one keeps it well formed |
| Codec.DropLastWellFormed | src/main.c:616-617 | truncating a display longer than 1 keeps it well formed |
| Codec.FormatWellFormed | src/main.c:521-542 | the text of either formatter, as written or corrected, is a well-formed display |
| Codec.IntegerTextWellFormed | src/main.c:522 | the `%d` text is a well-formed display without '.' |
| Codec.PointedWellFormed | src/main.c:522-540 | `%d` text, "." and digits make a well-formed display |
| Codec.BeforeFirstZeroDigits | src/main.c:532-537 | the digits before the first '0' of a digit string are digits |
| Codec.FractionAsWrittenDigits | src/main.c:530-538 | the fraction text as written is all digits |
| Codec.FormatExamples | src/main.c:521-542 | as written and corrected alike, 3.0 shows "3", 12.5 shows "12.5", and 0.05 shows "0.05" |
| Codec.ShortStrips | src/main.c:524 | trailing-zero cuts of the fractions of 0.5 and 0.105 |
| Codec.ParseExamples | src/main.c:484-513 | "12.5" reads 12.5, "-3" reads −3, and "0." reads 0 |
| Codec.AsWrittenDropsInteriorDigits | src/main.c:532-536 | as written, 0.105 shows "0.1", which reads back as 0.1 ≠ 0.105 |
| Codec.CorrectedKeepsInteriorDigits | src/main.c:524-540 | corrected, 0.105 shows "0.105", which reads back as 0.105 |
| Codec.CorrectedText | src/main.c:524-540 | corrected, the text of 0.105 is "0.105" |
| Codec.TinyFractionUnstable | src/main.c:521-542 | as written, 0.0000001 shows "0.00000", which reads back as 0, which shows "0"; corrected, it shows "0" |
| Calculator.DigitLabel | src/main.c:332-349 | a digit key's label is its digit character, a well-formed display |
| Calculator.Fresh | src/main.c:547-557 | the reset before a digit or '.': in NEWOP a new operation (no operator, stored 0, displays "" and "0"), in MIDOP a new number ("0"), both then in INPUT; INPUT is unchanged |
| Calculator.Replaces | src/main.c:558-562 | when a digit replaces the display: as written, it reads 0 and does not end in '.'; corrected, it reads 0 and holds no '.' |
| Calculator.EnterDigit | src/main.c:558-562 | the display after a digit: the digit alone when it replaces, otherwise the display with the digit appended |
| Calculator.Shown | src/main.c:598 | the text '=' writes for its result: the as-written or the corrected formatter |
| Calculator.Operands | src/main.c:565-573 | the operands of '=': the stored value and the display's value, swapped in NEWOP so that a repeated '=' reapplies the kept operand |
| Calculator.Compute | src/main.c:578-594 | the four operators on reals, with 0 for a zero divisor |
| Calculator.Result | src/main.c:565-596 | the pending operator applied to the operands |
| Calculator.Fits | src/main.c:544-672 | the key keeps the displays within their 16-byte buffers, and a result of '=' is formattable |
| Calculator.Press | src/main.c:544-672 | the state after one key press under the given rules: digit, operator, '=', C, backspace and '.' as the switch handles them |
| Calculator.Run | src/main.c:544-672 | the state after a sequence of presses, or None once a key would overrun a buffer |
| Calculator.PressKeepsDisplayable | src/main.c:544-672 | under the source's rules and the corrected ones alike, every key press keeps the displays well formed, within their 16-byte buffers, and the operator display a label |
| Calculator.RunKeepsDisplayable | src/main.c:544-672 | so does every sequence of presses, under either rules |
| Calculator.RunCons | src/main.c:544-672 | a sequence of presses is the first press, then the rest |
| Calculator.RunConcat | src/main.c:544-672 | presses a then b are the run of a continued by the run of b, and stop where a's run stops |
| Calculator.DigitStartsNumber | src/main.c:547-562 | outside INPUT a digit resets (all of the state in NEWOP, only the display in MIDOP), enters INPUT and shows just the digit |
| Calculator.AppendsDigit | src/main.c:558-562 | in INPUT, a digit after a display that does not read 0 is appended, under either rules |
| Calculator.EnterSecondDigit | src/main.c:558-562 | in INPUT, 2 after "1" shows "12" |
| Calculator.PressPlus | src/main.c:652-658 | '+' shows "+", stores the display's value and the operator, and enters MIDOP |
| Calculator.AddEquals | src/main.c:575-601 | 12 + 3 = shows "15", keeps 3 and enters NEWOP |
| Calculator.ShownWhole | src/main.c:521-523 | a whole result in int range is shown as its `%d` text by either formatter |
| Calculator.RepeatEquals | src/main.c:565-600 | in NEWOP, '=' applies the pending operator to the display and the kept operand: "15" becomes "18" |
| Calculator.RepeatEqualsRun | src/main.c:565-600 | that second '=' as a run of one key |
| Calculator.TypeTwelve | src/main.c:547-562 | the keys 1 2 on a new calculator show "12" |
| Calculator.AddThree | src/main.c:547-658 | then + 3 = shows "15", keeps 3 and leaves '+' pending |
| Calculator.AddShowsSum | src/main.c:547-658 | the keys 1 2 + 3 = show "15" |
| Calculator.RepeatEqualsAddsAgain | src/main.c:565-601 | the keys 1 2 + 3 = = show "18": the second '=' adds the kept 3 again |
| Calculator.DivideByZeroShowsZero | src/main.c:587-593 | the keys 5 / 0 = show "0" |
| Calculator.ZeroDivisor | src/main.c:587-599 | '/' with a zero right operand yields 0, keeps the operand and enters NEWOP |
| Calculator.EqualsWithoutOperator | src/main.c:575-601 | with no pending operator, '=' changes nothing |
| Calculator.ClearKeepsOperatorAndMode | src/main.c:609-613 | C shows "0" and "", zeroes the stored value, and leaves the operator and mode alone |
| Calculator.BackspaceExamples | src/main.c:614-621 | backspace turns "12" into "1" and "5" into "0" |
| Calculator.ZeroFractionReplacedAsWritten | src/main.c:558-562 | as written, 5 after "0.0" shows "5"; corrected, it shows "0.05" |
| Calculator.DigitAfterPointAppended | src/main.c:558-562 | corrected, a digit is appended to any display holding a '.' |
| Calculator.EnterDigitAgrees | src/main.c:558-562 | the corrected and as-written rules differ exactly on displays that read 0, hold a '.' and do not end in it |
| Calculator.TypeZeroPointZeroFive | src/main.c:547-562 | under the corrected digit rule, the keys 0 . 0 5 show "0.05" |
| Calculator.TypeZeroPointZeroFiveAsWritten | src/main.c:547-562 | as written, the keys 0 . 0 5 show "5" |
| Calculator.TypeZeroPointZero | src/main.c:547-651 | under either rules, the keys 0 . 0 leave "0.0" in INPUT |
| Calculator.PointAfterZero | src/main.c:630-651 | '.' after "0" shows "0." |
| Calculator.ZeroAfterPoint | src/main.c:558-562 | 0 after "0." is appended, under either rules, giving "0.0" |
| Calculator.TypeTwentyOneOver | src/main.c:547-658 | the keys 2 1 / leave "21" stored with '/' pending, in MIDOP |
| Calculator.PressDivide | src/main.c:652-658 | '/' after "21" stores 21 and the operator and enters MIDOP |
| Calculator.TypeTwoHundred | src/main.c:547-562 | then 2 0 0 shows "200" in INPUT, under either rules |
| Calculator.TwentyValue | src/main.c:494-502 | "20" and "200" read as 20 and 200 |
| Calculator.DivideTwoHundred | src/main.c:575-601 | '=' on 21 / 200 computes 0.105, shows its formatted text and keeps 200 |
| Calculator.TypeTwoHundredEquals | src/main.c:547-601 | the keys 2 0 0 = after 21 / end in NEWOP showing the formatted 0.105 |
| Calculator.DivideShows | src/main.c:544-672 | the keys 2 1 / 2 0 0 = show the formatted 0.105 under either rules |
| Calculator.DivideDropsDigitsAsWritten | src/main.c:521-601 | as written, the keys 2 1 / 2 0 0 = show "0.1" |
| Calculator.DivideKeepsDigits | src/main.c:521-601 | with the corrected formatter, the keys 2 1 / 2 0 0 = show "0.105" |
| Calculator.CursorTarget | src/main.c:248-285 | where update_cursor moves: one key left for zones 1, 4, 7 and right for 3, 6, 9, one up above 6 and down below 4, clamped to the keypad |
| Calculator.CursorStaysOnGrid | src/main.c:248-285 | a cursor on the grid stays on the grid |
| Calculator.LevelKeepsCursor | src/main.c:248-285 | zone 5 leaves the cursor where it is |
| Calculator.ContainsDot | src/main.c:641-646 | true exactly when the display holds a '.' |
| Calculator.Calc.constructor | src/main.c:698-719 | the keypad is laid out, the cursor is at (10, 60), mode NEWOP, no operator, stored value 0, displays "" and "0" |
| Calculator.Calc.UpdateCursor | src/main.c:248-285 | one key toward the zone in each axis, stopping at the keypad edges; reports a move exactly when the position changed; the key state is untouched |
| Calculator.Calc.SelectClick | src/main.c:544-546 | the key under the cursor is pressed: the new state is `Press` under the source's rules of the old state with that key |
| Calculator.Calc.Apply | src/main.c:546-672 | the new state is `Press` under the source's rules of the old one with the key, and the cursor stays put |
| Calculator.Calc.StartNumber | src/main.c:548-557 | the NEWOP and MIDOP resets |
| Calculator.Calc.DigitKey | src/main.c:547-562 | a number key replaces a display that reads 0 and does not end in '.', and otherwise appends: `Press` with that digit under the source's rules |
| Calculator.Calc.EqualsKey | src/main.c:565-601 | '=' writes the result with the formatter as written: `Press` with '=' under the source's rules |
| Calculator.Calc.OperatorKey | src/main.c:602-665 | '+', '-', '*' and '/' change the state as `Press` does |
| Calculator.Calc.DotKey | src/main.c:630-651 | '.' state change is `Press` with '.' |
| Sampler.Wrap64Sub | src/main.c:422 | the uint64 difference is in 0..2^64 − 1 |
| Sampler.Wrap64SubValue | src/main.c:422 | the uint64 difference is a − b, or a − b + 2^64 when b is larger |
| Sampler.MovesExactlyOnNewTimestamp | src/main.c:246 | with THRESH_TIME 0, the cursor steps exactly when the last timestamp differs from the recorded one |
| Sampler.Device.constructor | src/main.c:694-731 | smoothers of capacity 4 and 64 with empty histories, the calculator in its initial state with the cursor at (10, 60), tilt and time 0, not shut down |
| Sampler.Device.Means | src/main.c:372-379 | the fast means minus the slow means, axis by axis |
| Sampler.Device.UpdateTilt | src/main.c:372-383 | vdiff is the fast-minus-slow means and the tilt is its zone |
| Sampler.Device.HandleSampler | src/main.c:413-425 | when shut down nothing changes; otherwise both smoothers take the whole batch, the tilt is reclassified, and the cursor steps and the time is recorded exactly when the wrapped time difference passes the threshold; the key state is untouched |
| Sampler.Device.Process | src/main.c:419-425 | on a running device the batch reaches both smoothers, the tilt is reclassified and the cursor steps exactly when the wrapped difference passes the threshold |
| Sampler.Device.Feed | src/main.c:419-420 | the slow and fast smoothers each take the whole batch |
| Sampler.Device.StepCursor | src/main.c:422-425 | the cursor steps toward the tilt and the time is recorded when the wrapped difference passes the threshold; otherwise neither changes; the smoothers and their means are untouched |
| Sampler.Device.Shutdown | src/main.c:737 | the flag is set and nothing else changes |

## Left out

- Pebble UI and resources are not modelled: windows, text and inverter
  layers, fonts, global buffer and layer allocation, click configuration,
  the accelerometer subscription, and `main`. They are calls into a
  platform library whose code is not part of this model. Of
  `rc_create_calculator` only the calculator state (the memset, the initial
  "0", the keypad and the cursor) and the smoother capacities are modelled.
  Of `rc_destroy_calculator` only `shutdown = true` is modelled.
- The timing and debug output of `rc_handle_sampler` (`time_ms`,
  `scan_time`, the debug text) and the debug text after a digit press are
  left out. They are output only.
- Floats are exact reals. The rounding of `tmpval`, of the operands and
  result, and of the parse accumulator is not reproduced. `rc_pow` is an
  integer power.
- Codec.FormatNumber: requires `Formattable`. That means `(int)value` fits
  an int (a larger value is undefined in C), and a negative value is whole.
  For a negative fraction, `(int)frac` is negative and `zlen` makes the
  `memcpy` write before `zbuf`, which is undefined behaviour.
- Calculator.Press: requires `Fits`. It says that every display stays
  shorter than the 16-byte global buffer, including a result of '='. The
  source writes with an unchecked `strcat`, and `snprintf` passes a size of
  256 for a 16-byte buffer, so it overflows instead. For '=', `Fits` also
  requires `Formattable(Result(st))`, the precondition of the formatters.
  That excludes every '=' whose result is a negative fraction, such as
  1 − 2 = followed by / 2 = (−0.5). The source's behaviour there is
  undefined, as the `Codec.FormatNumber` line says. The same holds for
  `Calculator.Calc.SelectClick` and the key methods, and for the `|num| < 16`
  precondition of `Codec.ParseNumber`.
- FormatTruncates: proved of the corrected formatter only. As written, the
  display can fall short of the value by more than a millionth (0.105 shows
  "0.1"); see "Findings".
- FormatRoundTrip: proved of the corrected formatter only, like
  `Codec.FormatStable`. As written, 0.105 reads back as 0.1, and 0.0000001
  shows "0.00000", which reads back as 0 and then shows "0"; see "Findings".
- Sampler.Device.HandleSampler: requires a non-empty batch, because the
  source reads `data[num_samples - 1]` without checking that
  `num_samples > 0`; the subscription at line 723 asks for batches of 4. It
  also requires a timestamp in the uint64 range.
- The key's label text buffer and text layer are not modelled. A key
  carries its type and value as the `Key` datatype, and its label is the
  function `Keys.Label` of it. The source's "invalid type" and "invalid
  value" log branches cannot be reached with this datatype. `tmpop` 0 is
  `None`.
- Keys.ButtonSet.AddKeypad: the eighteen `rc_add_button` calls are split
  into three row methods of six `AddKey` calls each. The order is unchanged.
- Keys.ButtonSet.AddButton: requires fewer than 32 buttons. The source writes
  past its 32-entry array without checking.
- Smoothing.SmoothVector3.constructor: requires a size of at least 1,
  because with size 0 line 159 takes a modulo by zero.
- Smoothing.Smoother.Update: the running sum is an unbounded int.
  `Smoothing.WindowSumFitsInt32` shows that the 32-bit `sum` cannot overflow
  over 128 int16 samples, so no wrap-around is modelled. Samples are not
  constrained to int16 in the class.
- Calculator.Calc.UpdateCursor: the inverter-layer redraw at lines 279-281
  is not modelled, only the coordinate update.
- The commented-out inverse square root and the unused `rc_abs` have no
  model.

## Findings

| source | as written | input that shows it | evidently intended | confidence | as-written member | corrected member |
|---|---|---|---|---|---|---|
| src/main.c:532-536 | the loop that should cut trailing zeros turns every '0' of the scaled fraction into NUL, so the fraction ends at its first zero | 0.105: scaled digits "105000" leave "1", and the display shows "0.1"; the keys 2 1 / 2 0 0 = show "0.1" | cut only the trailing zeros, as the comment at line 524 says, giving "0.105" | not executed | Codec.FormatNumberAsWritten, Codec.AsWrittenDropsInteriorDigits, Calculator.DivideDropsDigitsAsWritten, Calculator.Calc.EqualsKey | Codec.FormatNumber, Codec.CutTrailingZeros, Codec.CorrectedKeepsInteriorDigits, Codec.FormatRoundTrip, Calculator.DivideKeepsDigits |
| src/main.c:522-538 | a value whose fraction is below one millionth passes the `(int)value != value` test, and its scaled fraction 0 is written as five padding zeros | 0.0000001 shows "0.00000", which reads back as 0, and 0 shows "0" | write no fraction when its six places are all zero, so that a display reads back as a value shown the same way | not executed | Codec.FormatNumberAsWritten, Codec.TinyFractionUnstable | Codec.FormatNumber, Codec.FormatStable |
| src/main.c:558-562 | a digit replaces the display when the display reads 0 and does not end in '.' | the keys 0 . 0 5: "0.0" reads 0 and ends in '0', so 5 replaces it and the display shows "5" | replace only a display that reads 0 and holds no '.', so that the keys show "0.05" | not executed | Calculator.ZeroFractionReplacedAsWritten, Calculator.TypeZeroPointZeroFiveAsWritten, Calculator.Calc.DigitKey | Calculator.DigitAfterPointAppended, Calculator.TypeZeroPointZeroFive |

The class `Calc` follows the source as written. The corrected rules of all
three rows are `Calculator.Rules.Corrected`, which `Calculator.Press` and
`Calculator.Run` take in place of `AsWritten`. Every worked run above that
is not named in this table holds under both rules.
