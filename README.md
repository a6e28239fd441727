# MonetaryCounterView in Dafny

MonetaryCounterView is a UIKit label that shows a currency amount as a row
of one-character labels in a horizontal stack view. When `number` changes,
the view looks at the old and new formatted strings:

- the first number, or a change of sign, rebuilds the labels from scratch;
- a nil number removes them;
- otherwise the diff engine inserts or removes labels at the first digit,
  so that the two strings line up on the right;
- each digit label then rolls like an odometer, up for an increase and
  down for a decrease, through scheduled text changes;
- the indexes that changed are highlighted.

Finally, the label font shrinks one point at a time until the row fits
beside the optional left view.

This project models that core:

- **`wrappers.dfy`** (`Wrappers`): `Option`, `Abs`, `Max`.
- **`text.dfy`** (`Text`): the private `String` extension. Index and range
  subscripts clamp their bounds, and the substring helpers are built on
  them. It also holds `Int(String)` on one-character texts and
  `String(n).last` for a digit.
- **`rolls.dfy`** (`Rolls`): `MonetaryLabel.animateUp` / `animateDown`,
  written as methods with the source's loops. Each one returns its plan, an
  ordered list of `(delay, digit)` steps, and is proved equal to a reference
  plan (`RollUp` / `RollDown`). The properties of those plans are proved as
  lemmas.
- **`diff.dfy`** (`Diff`): the state of the view as a value, `Display`,
  which holds:
  - the labels: an identity each, plus a text, `""` for none;
  - the arranged views that are not labels (the left view);
  - the next fresh identity;
  - the writes scheduled by `asyncAfter`, each aimed at a label identity;
  - the highlighted indexes.

  On this value it defines every path of `update(with:)`, one visit of its
  per-index loop, and the loop as a whole.
- **`settle.dfy`** (`Settle`): what every path leaves once all scheduled
  writes have run, and the invariants the paths keep.
- **`fit.dfy`** (`Fit`): `updateMaxPreferredFont`, against a supplied
  width function.
- **`counter.dfy`** (`CounterView`): the class `MonetaryCounterView`. Its
  fields are the stack view's contents and the settings. Its methods carry
  the source's loops, and each is proved to produce the state the `Diff`
  and `Fit` functions describe.
- **`scenarios.dfy`** (`Scenarios`): two of the repository's tests with
  euro strings. `testIncrementAndReturnToZero` goes from "€0.00" to
  "€1,000.32" and back. `testIncrementNegativeAddingZero` goes from
  "-€99.00" to "-€100.01".

How the platform is modelled:

- **Formatter.** `NumberFormatter` is a supplied function
  `real -> Option<string>`, so `None` means the formatter gave no string.
- **Amounts.** Amounts are `real`; the sign test is `x < 0.0`.
- **Fonts and widths.** Point sizes and widths are integers. Text width is a
  supplied function of the text and the size.
- **Scheduled writes.** `asyncAfter` closures become `Write`s that run in
  the order they were scheduled (`Settled`, `RunPending`). A write finds its
  label by identity, as the closure holds the label object, so a write
  aimed at a removed label does nothing. The invariant `Diff.Consistent`
  keeps every pending write aimed at an identity already handed out, so
  writes left over from before a rebuild never reach the fresh labels
  (`Settle.RebuildSettles`).

The incremental path compares each label with the old character that sits
right-aligned with the new one. Read literally, the source does so for an
increase, or for a decrease whose string does not grow. It misreads a
decrease whose string grows; see "## Findings". The class follows the
source as written: its update is `AsWrittenUpdated`, whose incremental path
is `Diff.Stepped`. `Diff.Updated` is the corrected reference, which reads the
right-aligned character on every path. `Diff.AsWrittenUpdatedAgrees` proves
the two equal on every update except a decrease whose string grows.

## Model

| member | source | states |
|---|---|---|
| Text.ClampIndex | MonetaryCounterView/Classes/MonetaryCounterView.swift:506-507 | the clamp `max(0, min(length, b))` lies in `0..n`, keeps an index already in range, and sends one below 0 to 0 and one above n to n |
| Text.Slice | MonetaryCounterView/Classes/MonetaryCounterView.swift:505-511 | for a range whose lower bound is not above its upper one, the subscript has length `clamp(upper) - clamp(lower)`, and its k-th character is the one at `clamp(lower) + k` |
| Text.CharAt | MonetaryCounterView/Classes/MonetaryCounterView.swift:492-495 | `s[i]` is a string of at most one character |
| Text.CharAtIsSlice | MonetaryCounterView/Classes/MonetaryCounterView.swift:493-495 | `s[i]` equals `s[i ..< i + 1]`: the i-th character for `0 <= i < count`, `""` otherwise |
| Text.SubstringFrom | MonetaryCounterView/Classes/MonetaryCounterView.swift:497-499 | `substring(fromIndex: n)` drops exactly `clamp(n)` leading characters and is a suffix of s |
| Text.SubstringTo | MonetaryCounterView/Classes/MonetaryCounterView.swift:501-503 | `substring(toIndex: n)` keeps exactly `clamp(n)` leading characters and is a prefix of s |
| Text.SubstringsSplit | MonetaryCounterView/Classes/MonetaryCounterView.swift:497-503 | the two substrings at one index concatenate back to the string |
| Text.TrimmedCharAt | MonetaryCounterView/Classes/MonetaryCounterView.swift:186-187 | reading the string trimmed by `substring(fromIndex: n)` at i reads the original at `i + n` |
| Text.JoinChars | MonetaryCounterView/Classes/MonetaryCounterView.swift:247-262 | joining one text per character (`String(singleChar)`) gives back the string |
| Text.ParseDigit | MonetaryCounterView/Classes/MonetaryCounterView.swift:214 | `Int(text)` on a label text gives a value exactly when the text is a single decimal digit |
| Text.DigitRoundTrip | MonetaryCounterView/Classes/MonetaryCounterView.swift:387 | printing a digit and parsing it back are inverse, both ways |
| Rolls.Mod10IsRemainder | MonetaryCounterView/Classes/MonetaryCounterView.swift:368-376 | the up count is `(to - from) mod 10` and the down count `(from - to) mod 10` |
| Rolls.UpCount | MonetaryCounterView/Classes/MonetaryCounterView.swift:368-376 | `finalTo - from` is below 10, reaches `to` or `to + 10` from `from`, and is 0 exactly when the digits are equal |
| Rolls.DownCount | MonetaryCounterView/Classes/MonetaryCounterView.swift:402-410 | `finalFrom - to` is below 10, reaches `from` or `from + 10` from `to`, and is 0 exactly when the digits are equal |
| Rolls.AnimateUp | MonetaryCounterView/Classes/MonetaryCounterView.swift:364-396 | returns false exactly when `from == to`; otherwise plans 1 to 9 steps, the last showing `to`; the plan is `RollUp`, so step k fires at `k * duration / steps` and shows `(from + k + 1) mod 10` |
| Rolls.AnimateDown | MonetaryCounterView/Classes/MonetaryCounterView.swift:398-429 | returns false exactly when `from == to`; otherwise plans 1 to 9 steps, the last showing `to`; the plan is `RollDown`, so step k shows `(from - 1 - k) mod 10` |
| Rolls.RollUpReachesTarget | MonetaryCounterView/Classes/MonetaryCounterView.swift:378-392 | an upward plan is empty exactly when the digits agree; it starts at `from + 1`, moves up one digit per step, never shows `to` before its last step, and ends on `to` |
| Rolls.RollDownReachesTarget | MonetaryCounterView/Classes/MonetaryCounterView.swift:412-425 | a downward plan is empty exactly when the digits agree; it starts at `from - 1`, moves down one digit per step, never shows `to` early, and ends on `to` |
| Rolls.StepsWithinDuration | MonetaryCounterView/Classes/MonetaryCounterView.swift:378-385 | steps scheduled at `singleDelay * currentIteration` fire in strictly increasing order, the first at once, all within a positive duration, the last one interval before its end |
| Rolls.RollUpWithinDuration | MonetaryCounterView/Classes/MonetaryCounterView.swift:378-394 | every step of an upward roll fires within the duration, in order |
| Rolls.RollDownWithinDuration | MonetaryCounterView/Classes/MonetaryCounterView.swift:412-427 | every step of a downward roll fires within the duration, in order |
| Diff.ShowsJoined | Example/Tests/MonetaryCounterBaseTests.swift:40-44 | labels showing s one character each read back as s when their texts are joined, as the tests compare |
| Diff.FirstDigit | MonetaryCounterView/Classes/MonetaryCounterView.swift:268-270 | finds the first label whose text parses as an integer: no earlier one does; none at all when it finds nothing |
| Diff.StartingIndex | MonetaryCounterView/Classes/MonetaryCounterView.swift:268-270 | `startingIndex` is the first digit label, or 0 when no label holds a digit |
| Diff.Adjusted | MonetaryCounterView/Classes/MonetaryCounterView.swift:266-289 | labels before k are kept; a positive diff puts diff fresh empty labels at k, the last one made first; the other labels keep their order and shift by diff; the count changes by exactly diff |
| Diff.InsertedIsAdjusted | MonetaryCounterView/Classes/MonetaryCounterView.swift:272-277 | inserting a fresh label at k, t times over, gives `Adjusted` with diff t |
| Diff.RemovedIsAdjusted | MonetaryCounterView/Classes/MonetaryCounterView.swift:279-286 | removing the view at k, t times over, gives `Adjusted` with diff -t |
| Diff.WritesFor | MonetaryCounterView/Classes/MonetaryCounterView.swift:382-392 | one write per planned step, aimed at the rolling label, at the step's delay, with the step's digit |
| Diff.RollWritesLast | MonetaryCounterView/Classes/MonetaryCounterView.swift:214-226 | a label's roll writes one character at a time; the last write aimed at that label is its roll target, and no other label gets a write |
| Diff.LastWriteOfSteps | MonetaryCounterView/Classes/MonetaryCounterView.swift:382-392 | after a roll's writes have run, the label shows the digit of the last step; other labels get no write |
| Diff.Visit | MonetaryCounterView/Classes/MonetaryCounterView.swift:192-228 | one pass of the loop keeps identities and every other label; an empty label takes the new character; a label with text keeps its text |
| Diff.Walk | MonetaryCounterView/Classes/MonetaryCounterView.swift:192-228 | after n passes, exactly the empty labels below n show their new characters, and identities are kept |
| Diff.Retext | MonetaryCounterView/Classes/MonetaryCounterView.swift:387 | a write changes the text of the label with its identity and of no other |
| Diff.ApplyWrites | MonetaryCounterView/Classes/MonetaryCounterView.swift:385-388 | running writes keeps the count and the identities of the labels |
| Diff.AsWrittenShiftAligned | MonetaryCounterView/Classes/MonetaryCounterView.swift:186-212 | the source reads the old character right-aligned with the new one exactly when the number grows or its string does not |
| Diff.AsWrittenOldChar | MonetaryCounterView/Classes/MonetaryCounterView.swift:186-212 | the old character read at the source's shift is `oldNumberString[i - diff]` on an increase, and otherwise index i of the string trimmed by `substring(fromIndex: abs(diff))` |
| Diff.SteppedAligned | MonetaryCounterView/Classes/MonetaryCounterView.swift:186-212 | for an increase, or a decrease whose string does not grow, the source's incremental path equals the right-aligned one |
| Diff.Keep | MonetaryCounterView/Classes/MonetaryCounterView.swift:144-150 | the `filter { $0 != leftView }` removal keeps exactly the left view among the non-label views |
| Diff.Without | MonetaryCounterView/Classes/MonetaryCounterView.swift:339-341 | removing a view keeps every other view |
| Diff.Repinned | MonetaryCounterView/Classes/MonetaryCounterView.swift:335-344 | a new left view ends up last among the arranged views, with all the others kept; clearing it removes exactly the old one |
| Diff.Fresh | MonetaryCounterView/Classes/MonetaryCounterView.swift:247-253 | one fresh label per character of the string, showing it, with consecutive new identities |
| Diff.PreparedAt | MonetaryCounterView/Classes/MonetaryCounterView.swift:178-194 | the label the loop finds at j is an old one before k, a fresh empty one inside the insertion, and otherwise the old one diff places to the left |
| Diff.UpdatedRebuilds | MonetaryCounterView/Classes/MonetaryCounterView.swift:155-171 | a first number, or a change of sign, takes the `setupForInitial` path |
| Diff.UpdatedClears | MonetaryCounterView/Classes/MonetaryCounterView.swift:159-166 | no new number removes every arranged view but the left view |
| Diff.UpdatedUnformatted | MonetaryCounterView/Classes/MonetaryCounterView.swift:173-176 | when either number formats to no string, the state is unchanged |
| Diff.PathOf | MonetaryCounterView/Classes/MonetaryCounterView.swift:153-176 | the branch `update(with:)` takes: a rebuild for no old number or a change of sign, a clear for no new number, nothing for a number without a string, and otherwise the incremental path on the two strings, up when the new number is larger |
| Diff.Initialised | MonetaryCounterView/Classes/MonetaryCounterView.swift:241-264 | `setupForInitial`: one fresh label per character of the formatted number, with only the left view kept; no number or no string leaves the state alone |
| Diff.Cleared | MonetaryCounterView/Classes/MonetaryCounterView.swift:159-166 | no labels left, only the left view kept among the other views |
| Diff.Stepped | MonetaryCounterView/Classes/MonetaryCounterView.swift:178-228 | the incremental path as written: labels adjusted at the first digit, then each index compared with the old character of the string trimmed by `abs(diff)` when not increasing |
| Diff.Updated | MonetaryCounterView/Classes/MonetaryCounterView.swift:153-239 | the corrected `update(with:)`: the branch `PathOf` chooses, with the incremental path reading the right-aligned old character |
| Diff.AsWrittenUpdated | MonetaryCounterView/Classes/MonetaryCounterView.swift:153-239 | `update(with:)` as written: the branches of `Updated`, with `Stepped` as the incremental path |
| Diff.UpdatedSteps | MonetaryCounterView/Classes/MonetaryCounterView.swift:178-228 | in the corrected reference, two formatted numbers of one sign take the right-aligned incremental path, rolling up exactly when the new number is larger |
| Diff.AsWrittenUpdatedSteps | MonetaryCounterView/Classes/MonetaryCounterView.swift:178-228 | as written, two formatted numbers of one sign take the incremental path with the source's trimmed reading, rolling up exactly when the new number is larger |
| Diff.AsWrittenUpdatedAgrees | MonetaryCounterView/Classes/MonetaryCounterView.swift:184-212 | on an increase, or a decrease whose string does not grow, the program's update equals the corrected one |
| Diff.ClearedUnsafe | MonetaryCounterView/Classes/MonetaryCounterView.swift:77-82 | after the text setter has removed the labels with `number` still set, a same-sign number whose old string is longer than the views left is outside the range the update's index accesses need |
| Settle.ApplyWritesAt | MonetaryCounterView/Classes/MonetaryCounterView.swift:385-388 | once the writes have run, a label shows the last write aimed at it, or its own text when there is none |
| Settle.WalkWrites | MonetaryCounterView/Classes/MonetaryCounterView.swift:192-228 | after n passes, the last write aimed at the label at j is its roll's target when j is below n, and there is none otherwise |
| Settle.WalkChanged | MonetaryCounterView/Classes/MonetaryCounterView.swift:198-226 | index j is marked exactly when it was visited and holds a non-label view, an empty label, or a label whose digits differ |
| Settle.SettledAt | MonetaryCounterView/Classes/MonetaryCounterView.swift:192-228 | once the loop and its writes have run, each visited label shows what its case gives: the new character, its rolled digit, or its own text |
| Settle.AdjustedConsistent | MonetaryCounterView/Classes/MonetaryCounterView.swift:266-300 | inserting and removing labels keeps identities distinct and below the next fresh one, with texts of at most one character |
| Settle.SteppedConsistent | MonetaryCounterView/Classes/MonetaryCounterView.swift:178-228 | the incremental path keeps label identities distinct and texts of at most one character, and aims every write it schedules at a label below the next fresh identity, whichever old character it reads |
| Settle.InitialisedConsistent | MonetaryCounterView/Classes/MonetaryCounterView.swift:241-264 | `setupForInitial` keeps identities distinct, texts of at most one character and pending writes aimed below the next fresh identity |
| Settle.SettledConsistent | MonetaryCounterView/Classes/MonetaryCounterView.swift:385-388 | running the scheduled writes keeps identities distinct and texts of at most one character, and leaves nothing pending |
| Settle.UpdatedConsistent | MonetaryCounterView/Classes/MonetaryCounterView.swift:153-239 | every path of the corrected `update(with:)` keeps identities distinct, texts of at most one character and pending writes aimed below the next fresh identity |
| Settle.AsWrittenUpdatedConsistent | MonetaryCounterView/Classes/MonetaryCounterView.swift:153-239 | every path of `update(with:)` as written keeps identities distinct, texts of at most one character and pending writes aimed below the next fresh identity |
| Settle.SettledOnMatch | MonetaryCounterView/Classes/MonetaryCounterView.swift:206-226 | a label showing the old character settles on a matching new one, and rolls exactly when they differ |
| Settle.AlignedAt | MonetaryCounterView/Classes/MonetaryCounterView.swift:192-228 | for strings that share a layout, each label the loop finds settles on the new character, and is marked changed exactly when inserted there or its digit differs |
| Settle.AlignedChangedAt | MonetaryCounterView/Classes/MonetaryCounterView.swift:192-228 | index j is marked changed exactly when it holds an inserted label or a right-aligned digit that differs |
| Settle.AlignedSettledAt | MonetaryCounterView/Classes/MonetaryCounterView.swift:192-228 | once the rolls finish, the label at j shows the j-th new character |
| Settle.AlignedShows | MonetaryCounterView/Classes/MonetaryCounterView.swift:192-228 | once the rolls finish, the labels show the new string |
| Settle.AlignedChanged | MonetaryCounterView/Classes/MonetaryCounterView.swift:198-226 | the changed set is exactly the inserted labels and the digits that differ |
| Settle.AlignedSettles | MonetaryCounterView/Classes/MonetaryCounterView.swift:178-228 | from labels showing the old string with nothing pending, strings that share a layout settle on the new string, read back by joining, with exactly the inserted labels and changed digits marked |
| Settle.AlignedUpdateSettles | Example/Tests/MonetaryCounterBaseTests.swift:23-46 | with the right-aligned reading, for two numbers of one sign whose strings share a layout, the update leaves labels whose joined texts equal the new formatted string once the rolls finish, and marks exactly the inserted labels and changed digits |
| Settle.AsWrittenUpdateSettles | Example/Tests/MonetaryCounterBaseTests.swift:23-46 | the program's own update, on an increase or a decrease whose string does not grow, leaves labels whose joined texts equal the new formatted string once the rolls finish, with the same marks |
| Settle.AsWrittenSettles | MonetaryCounterView/Classes/MonetaryCounterView.swift:178-228 | with the source's own reading, an increase, or a decrease whose string does not grow, settles on the new string with nothing pending and a consistent state |
| Settle.SettledKeepsText | MonetaryCounterView/Classes/MonetaryCounterView.swift:206-226 | a label with text whose old character is not a digit does not roll and keeps its text |
| Settle.RollWritesSame | MonetaryCounterView/Classes/MonetaryCounterView.swift:214-226 | equal old and new characters schedule nothing and do not mark the label |
| Settle.QuietWalk | MonetaryCounterView/Classes/MonetaryCounterView.swift:192-228 | over labels with text at every index below n, whatever digits they still show, the loop from a string to itself changes nothing, schedules nothing and marks nothing |
| Settle.QuietStep | MonetaryCounterView/Classes/MonetaryCounterView.swift:178-228 | the incremental path between equal strings, over labels with text at each index of the string, keeps labels and pending writes, and clears the marks |
| Settle.SameStringQuiet | MonetaryCounterView/Classes/MonetaryCounterView.swift:153-228 | the program's update to a number that formats as the last one, over labels with text at each index, changes no label, schedules nothing and marks nothing, whether or not the last rolls have run |
| Settle.SteppedHasText | MonetaryCounterView/Classes/MonetaryCounterView.swift:192-204 | when there is a label at each index of the new string, the incremental path leaves text on every one of them, the empty ones taking the new character |
| Settle.RepeatedNumberQuiet | MonetaryCounterView/Classes/MonetaryCounterView.swift:64-74 | setting the same number twice in a row, the second time before the first rolls have run: the second update leaves the labels, the other views and the pending writes as the first left them, and marks nothing |
| Settle.NilClears | MonetaryCounterView/Classes/MonetaryCounterView.swift:159-166 | in the program's update, a nil number removes every label, keeps only the left view, and schedules nothing new |
| Settle.RebuildShowsNew | MonetaryCounterView/Classes/MonetaryCounterView.swift:155-171 | in the program's update, a first number, or a change of sign, gives one fresh label per character of the new string, reading it back when joined, with only the left view kept |
| Settle.RebuildSettles | MonetaryCounterView/Classes/MonetaryCounterView.swift:155-171 | in the program's update, a first number or a change of sign settles on the new string even with earlier rolls still pending, since those writes aim at labels that are gone; the settled state is consistent with nothing pending |
| Settle.UnformattedKeeps | MonetaryCounterView/Classes/MonetaryCounterView.swift:173-176 | in the program's update, a number the formatter gives no string for leaves the state alone |
| Fit.TotalWidth | MonetaryCounterView/Classes/MonetaryCounterView.swift:310-314 | the summed width of the labels' texts at a size, a label without text adding nothing |
| Fit.BestFit | MonetaryCounterView/Classes/MonetaryCounterView.swift:322-329 | the size the loop stops at, counting down one point at a time, for width functions under `Vanishing` |
| Fit.TotalWidthVanishes | MonetaryCounterView/Classes/MonetaryCounterView.swift:322-329 | under `Vanishing`, at a size of zero or less the labels take no width |
| Fit.BestFitIsLargest | MonetaryCounterView/Classes/MonetaryCounterView.swift:316-329 | the loop never grows the font; it stops on a size that fits, or when there is no positive width; every size it passed over did not fit; a size that already fits is kept |
| Fit.TotalWidthCovers | MonetaryCounterView/Classes/MonetaryCounterView.swift:310-314 | each label with text adds at least its own width to the total |
| Fit.NeverFits | MonetaryCounterView/Classes/MonetaryCounterView.swift:322-329 | when no size brings a label with text below a width w, and the available width is positive but below w, no size fits, so the loop's guard never fails |
| Fit.FloorFit | MonetaryCounterView/Classes/MonetaryCounterView.swift:322-329 | the loop with a smallest size: it stops on the first size that fits or at the floor |
| Fit.FloorFitIsLargest | MonetaryCounterView/Classes/MonetaryCounterView.swift:322-329 | for every width function, the loop with a floor never grows the font nor passes the floor, stops on a fit or at the floor, passed over only sizes that did not fit, and keeps a size that fits |
| Fit.FloorFitAgrees | MonetaryCounterView/Classes/MonetaryCounterView.swift:322-329 | under `Vanishing`, the loop with a floor of zero stops where the source's loop does |
| CounterView.MonetaryCounterView.constructor | MonetaryCounterView/Classes/MonetaryCounterView.swift:90-110 | `commonInit`: no number, no labels or views, the system font size for the view and its labels, a 0.4 s duration (line 32), and a valid state |
| CounterView.MonetaryCounterView.AvailableWidth | MonetaryCounterView/Classes/MonetaryCounterView.swift:316-320 | the frame width less the left view's width, when there is a left view |
| CounterView.MonetaryCounterView.UpdateForText | MonetaryCounterView/Classes/MonetaryCounterView.swift:142-151 | removes every arranged view but the left view |
| CounterView.MonetaryCounterView.SetText | MonetaryCounterView/Classes/MonetaryCounterView.swift:77-89 | setting `text` or `attributedText` removes every arranged view but the left view, keeps `number`, and keeps the state consistent |
| CounterView.MonetaryCounterView.SetTextForgettingNumber | MonetaryCounterView/Classes/MonetaryCounterView.swift:77-89 | the text setters as intended: the labels are removed and `number` is forgotten, so every next number is safe and rebuilds |
| CounterView.MonetaryCounterView.SetupForInitial | MonetaryCounterView/Classes/MonetaryCounterView.swift:241-264 | rebuilds the labels as one fresh label per character of the formatted number, before the kept left view; no number or no string changes nothing |
| CounterView.MonetaryCounterView.StartingIndexOf | MonetaryCounterView/Classes/MonetaryCounterView.swift:268-270 | returns the first digit label's index, or 0 |
| CounterView.MonetaryCounterView.InsertLabel | MonetaryCounterView/Classes/MonetaryCounterView.swift:274-277 | a fresh empty label is inserted at k and the next identity advances |
| CounterView.MonetaryCounterView.RemoveLabel | MonetaryCounterView/Classes/MonetaryCounterView.swift:281-285 | the view at k is removed, the others keep their order |
| CounterView.MonetaryCounterView.AdjustLabelsForDiff | MonetaryCounterView/Classes/MonetaryCounterView.swift:266-289 | the labels become `Adjusted`, with diff insertions or -diff removals at the first digit |
| CounterView.MonetaryCounterView.VisitLabel | MonetaryCounterView/Classes/MonetaryCounterView.swift:194-226 | one pass of the loop changes the labels, the writes and the marks exactly as `Visit` says |
| CounterView.MonetaryCounterView.RollLabels | MonetaryCounterView/Classes/MonetaryCounterView.swift:190-228 | the loop leaves the labels, scheduled writes and changed set that `Walk` gives |
| CounterView.MonetaryCounterView.UpdateDigits | MonetaryCounterView/Classes/MonetaryCounterView.swift:178-228 | the incremental part gives exactly `Stepped`: the source's own reading, with the old string trimmed by `abs(diff)` when not increasing |
| CounterView.MonetaryCounterView.Update | MonetaryCounterView/Classes/MonetaryCounterView.swift:153-239 | the state after `update(with:)` is `AsWrittenUpdated` of the old state |
| CounterView.MonetaryCounterView.UpdateMaxPreferredFont | MonetaryCounterView/Classes/MonetaryCounterView.swift:302-333 | the labels end up in the size `BestFit` gives, that is the largest size from the font's down that fits |
| CounterView.MonetaryCounterView.SetNumber | MonetaryCounterView/Classes/MonetaryCounterView.swift:64-74 | setting `number` runs the update as written and then the fit, and keeps the state consistent |
| CounterView.MonetaryCounterView.SetLeftView | MonetaryCounterView/Classes/MonetaryCounterView.swift:335-344 | the arranged non-label views become `Repinned`; the state stays consistent |
| CounterView.MonetaryCounterView.SetFont | MonetaryCounterView/Classes/MonetaryCounterView.swift:40-44 | setting `font` gives every label that font, and keeps the state valid |
| CounterView.MonetaryCounterView.RunPending | MonetaryCounterView/Classes/MonetaryCounterView.swift:382-392 | running the scheduled writes in order gives `Settled` of the state, still consistent |
| Scenarios.ThousandAndBack | Example/Tests/MonetaryCounterTests.swift:22-32 | with the source's reading, "€0.00" to "€1,000.32" and back leaves the labels reading each string in turn |
| Scenarios.AsWrittenKeepsStaleDigit | MonetaryCounterView/Classes/MonetaryCounterView.swift:186-212 | as written, "-€99.00" to "-€100.01" leaves the label at index 3 on "9" where the new string has "0" |
| Scenarios.AlignedShowsNewString | Example/Tests/MonetaryCounterTests.swift:60-70 | with the right-aligned reading, -99 to -100.01 leaves the labels reading "-€100.01" and highlights indexes 2, 3, 4 and 7 |

## Left out

- UIKit layout is not modelled: the stack view itself, constraints, `clipsToBounds`, `draw` / `layoutSubviews` (which only call the fit loop), and the accessibility wiring, including `accessibilityValue`. Only the ordered arranged views are kept.
- The `CATransition` pushes and the highlight colour fade are cosmetic and not modelled. What remains is the set of indexes the update would highlight (`changed`).
- Timing is not modelled. The model keeps the scheduled writes in order and runs them together (`Settled`). It does not interleave them with a later update. The delayed highlight closure, whose `arrangedSubviews[index]` is unguarded, is not modelled either.
- `NumberFormatter`, `Locale` and `configure(with:)` are a supplied formatting function. The euro strings in the scenarios stand for the formatter's output.
- `CGFloat` widths and font sizes are integers, and text width is a supplied function. The fit loop is modelled only for width functions that give no width at a size of zero or less (`Vanishing`). This is an assumption about UIKit's font metrics, not something the source ensures; without it the loop need not stop, see "## Findings".
- A nil `font` is not modelled: the model always has a point size.
- The left view is taken not to be a `UILabel`. The model keeps it apart from the labels, so a left view that is itself a label is not modelled.
- `textColor` on the labels is not modelled, because it has no bearing on the texts.
- Setting `text` or `attributedText` is modelled through `SetText`, which runs `updateForText`. The label's own text is not part of the model.
- Swift's `String.count` and the integer subscripts count grapheme clusters (`Character`s); Dafny strings are sequences of `char`. The model takes one `char` per `Character`, which holds for the formatter's strings only when none of their characters is made of several code points.
- A per-label font is not modelled: every label has the one `labelFont`.
- CounterView.MonetaryCounterView.AdjustLabelsForDiff: for a removal, its precondition also keeps the removal off the non-label views. The source would remove those too, as long as the index stays in range.
- CounterView.MonetaryCounterView.Update: its precondition `Safe` excludes the inputs on which the source traps: `arrangedSubviews[startingIndex]` past the last view in the removal loop (line 282), and `arrangedSubviews[i]` past the last view in the per-index loop (line 194). The model does not state that the source crashes there. One reachable case is in "## Findings".
- CounterView.MonetaryCounterView.SetNumber: requires `Safe` as `Update` does, so the same trapping inputs are excluded.
- CounterView.MonetaryCounterView.UpdateDigits: requires `StepSafe`, the incremental part of `Safe`, so the same trapping inputs are excluded.
- Dafny's `real` has no rounding. The delays `singleDelay * currentIteration` are exact, where the source uses `Double`.

## Findings

| source | as written | input that shows it | evidently intended | confidence | as-written member | corrected member |
|---|---|---|---|---|---|---|
| MonetaryCounterView/Classes/MonetaryCounterView.swift:186-212 | when not increasing, the old string is trimmed by `abs(diff)` and read at i, that is at `i + abs(diff)`; when the string grew (diff > 0), this reads 2·diff places right of the character aligned with the label | -99 to -100.01 ("-€99.00" to "-€100.01"), the repository's testIncrementNegativeAddingZero: the label at index 3 shows "9", is compared with the old ".", does not roll, and stays "9" where the new string has "0" | read the old character right-aligned with the new one, `old[i - diff]`, as the increasing branch does | not executed | Scenarios.AsWrittenKeepsStaleDigit | Scenarios.AlignedShowsNewString |
| MonetaryCounterView/Classes/MonetaryCounterView.swift:77-82 | the text setters remove every label through `updateForText` but leave `number` set; the next number of the same sign takes the incremental path on no labels | `number = 5` showing "€5.00" with no left view, then `text = "x"`, then `number = 6`: the update compares "€5.00" with "€6.00", diff 0, and `arrangedSubviews[0]` at line 194 is out of range | forget the number when the text is set, so that the next number is a first one and rebuilds the labels | not executed | Diff.ClearedUnsafe | CounterView.MonetaryCounterView.SetTextForgettingNumber |
| MonetaryCounterView/Classes/MonetaryCounterView.swift:322-329 | the loop shrinks the font until the labels fit or there is no positive width, with no smallest size | a label text at least w wide at every point size, with a frame and left view that leave a positive width below w: no size fits, and the guard never fails | stop at a smallest point size | low, depends on UIKit's font metrics; not executed | Fit.NeverFits | Fit.FloorFitIsLargest |
