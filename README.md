# MRange in Dafny

MRange is a slider widget: a track with one handle (a single value) or two handles (a
low and a high value, written "low,high"), labels showing the values, and an input
receiving them. This project models the core of `MRange.js`:

- the decimal helpers `Math.add`, `Math.sub`, `Math.mul` and `Math.div`, and the
  `Number.prototype` methods that call them. They read a number's `toString` text to
  scale operands by powers of ten (modules `DecimalText` and `DecimalMath`);
- reading option values given as text, as `parseFloat` does on plain decimal text after
  leading white space (`NumberParse`);
- `_getLabelValue`, which turns a pointer distance into a value on the step grid
  (`ValueMapper`);
- the constructor: options merged over the defaults, one or two handles, the checks
  (`RangeConfig`);
- the layout `setTrack` computes, in percent of the track, with smart selection of the
  active handle (`TrackLayout`);
- the geometry of a drag move: clamping, pinning one handle onto the other
  (`DragRules`);
- the order of the `dragstart`, `dragmove` and `dragend` events (`DragLog`);
- everything the widget displays as one value, and `setTrack` and `_onDragMove` as
  functions on it (`Display`);
- the widget itself, a class whose methods change its state in place (`Range.MRange`).

Numbers are exact reals. The model therefore shows that the decimal helpers compute the
exact sum, difference, product and quotient of the numbers written in their operands'
texts. It cannot show the binary rounding they avoid.

`setTrack` in the code merges new options without running the constructor's checks.
The model keeps that behaviour as written (`Display.ReversedLayout`). The widget's
`SetTrack` applies a patch only when the merged options pass the checks and keep the
widget's mode, and otherwise leaves the widget unchanged. See "Findings".

## Model

| member | source | states |
|---|---|---|
| DecimalText.IndexOf | MRange.js:33 | `indexOf` answers the first position of the character, or the length where JavaScript answers -1 |
| DecimalText.Text | MRange.js:327 | `toString`: the number's text, read back by `TextFracDigits`, `TextMantissa` and `NumberParse.ParseText` |
| DecimalText.TextChars | MRange.js:327 | `toString` writes only a sign, digits and a point, starting with the sign or a digit |
| DecimalText.SecondField | MRange.js:327 | `split(c)[1]` is missing exactly when the text has no `c`; otherwise it is the text after the first `c`, up to the next `c` or the end |
| DecimalText.OneSeparator | MRange.js:38 | in a text with a single `c`, `indexOf` finds it after the part before it, and `split(c)[1]` is all of the part after it |
| DecimalText.RemovePoint | MRange.js:364 | `replace('.', '')` leaves a text without a point unchanged |
| DecimalText.TextFracDigits | MRange.js:326-335 | `toString().split('.')[1].length`, with a missing field caught as 0, is the number of digits after the point |
| DecimalText.TextMantissa | MRange.js:383-384 | `Number(toString().replace('.', ''))` is the number's digits read as one integer |
| DecimalText.FractionDigits | MRange.js:357-362 | the fraction-digit count the helpers compute equals the number's scale |
| DecimalText.PointFree | MRange.js:363-364 | the point-free integer the helpers compute equals the number's mantissa |
| DecimalMath.Add | MRange.js:322-339 | `Math.add` returns exactly the sum of the two numbers |
| DecimalMath.AddScalesToIntegers | MRange.js:336-338 | both operands scaled by 10 to the larger fraction-digit count are whole numbers |
| DecimalMath.Sub | MRange.js:345-347 | `Math.sub` returns exactly the difference |
| DecimalMath.MulExact | MRange.js:364 | the product of the point-free integers over 10 to the summed counts is the product of the numbers |
| DecimalMath.Mul | MRange.js:353-365 | `Math.mul` returns exactly the product |
| DecimalMath.DivExact | MRange.js:383-385 | `(r1 / r2) * 10^(t2 - t1)` is the quotient of the numbers |
| DecimalMath.Div | MRange.js:371-386 | `Math.div` succeeds exactly when the divisor is not zero, and then returns the exact quotient |
| DecimalMath.NumberAdd | MRange.js:341-343 | `x.add(y)` is x + y |
| DecimalMath.NumberSub | MRange.js:349-351 | `x.sub(y)` is x - y |
| DecimalMath.NumberMul | MRange.js:367-369 | `x.mul(y)` is x * y |
| DecimalMath.NumberDiv | MRange.js:388-390 | `x.div(y)` is x / y, failing exactly when y is zero |
| NumberParse.ParseNumber | MRange.js:45-46 | `parseFloat` on plain decimal text after leading white space; read back by `ParseText`, `ParseAfterSpace` and `RangeConfig.InitialText` |
| NumberParse.NumberOf | MRange.js:42 | `Number()` on a single text value; stated by `BlankIsNotNumeral` and `NumberOfAgrees` |
| NumberParse.BlankIsNotNumeral | MRange.js:42 | a blank text is no number for `parseFloat` but 0 for `Number()` |
| NumberParse.NumberOfAgrees | MRange.js:42-46 | wherever `parseFloat` reads a number, `Number()` reads the same one |
| NumberParse.SkipSpaceMeaning | MRange.js:45-46 | the leading white space `parseFloat` skips: all of it, and nothing after it |
| NumberParse.ParseAfterSpace | MRange.js:45-46 | white space in front of a text does not change the number `parseFloat` reads |
| NumberParse.TextIsNumeral | MRange.js:45-46 | every `toString` text is plain decimal text that `parseFloat` reads whole |
| NumberParse.ParseText | MRange.js:45-46 | reading back a number's `toString` text gives the number |
| RangeConfig.Extend | MRange.js:26-31 | `$.extend` over the defaults: keys the caller sets win, others keep their default; stated by the four `Extend` lemmas |
| RangeConfig.ExtendNoChange | MRange.js:26-31 | `$.extend` with no keys leaves the options unchanged |
| RangeConfig.ExtendIdempotent | MRange.js:75 | merging the same options twice is merging them once |
| RangeConfig.ExtendTwice | MRange.js:75 | merging p then q is merging q over p: later keys win |
| RangeConfig.ExtendFull | MRange.js:26-31 | options that set every key replace the defaults entirely |
| RangeConfig.IsSingle | MRange.js:33 | one handle for a number or for a text whose `indexOf(',')` is -1; stated by `SingleMeaning` |
| RangeConfig.Initial | MRange.js:38-46 | the value or values the options denote, with the two parts of "low,high" read by `parseFloat`; stated by `InitialMode` and `InitialText` |
| RangeConfig.SplitPair | MRange.js:38 | `split(',')` of "a,b" gives a and, after white space, b |
| RangeConfig.InitialText | MRange.js:38-46 | a value written as `toString` writes it reads back as that number; two such values around a ',' (with white space after it) read back as the pair |
| RangeConfig.SingleMeaning | MRange.js:33 | one handle exactly for a number or a text without ',' |
| RangeConfig.InitialMode | MRange.js:33-38 | the values read from the options are one value exactly in single mode |
| RangeConfig.AcceptsAsWritten | MRange.js:40-50 | the constructor's checks as written, a single text value compared through `Number()` (blank is 0), every comparison with NaN false; `ZeroStepAcceptedAsWritten`, `BlankValueAsWritten` and `MalformedValueAcceptedAsWritten` show what they let through |
| RangeConfig.AcceptsMeaning | MRange.js:40-50 | the corrected checks accept exactly 0 < step <= max - min with values that read as numbers and lie in order within [min, max] |
| RangeConfig.ZeroStepAcceptedAsWritten | MRange.js:40-41 | the checks as written accept a step of 0 and of -1 |
| RangeConfig.BlankValueAsWritten | MRange.js:42 | the checks as written reject "" against [10, 20] and accept "  " on [0, 100], since `Number()` reads both as 0; the corrected checks reject "  " |
| RangeConfig.MalformedValueAcceptedAsWritten | MRange.js:43-49 | the checks as written accept "20,", whose second part reads as NaN |
| ValueMapper.GridValueRoundTrip | MRange.js:288-307 | a grid point in range, or max, shown at its own pixel offset reads back as itself |
| ValueMapper.RoundNearest | MRange.js:298 | `Math.round` is within half of x and at least as close as any integer |
| ValueMapper.RoundHalfUp | MRange.js:298 | `Math.round` sends halves up |
| ValueMapper.Label | MRange.js:297-304 | the three branches given curStep and allStep; stated by `LabelIsSnap`, `LabelOnGridAt`, `LabelBoundsAt`, `LabelMonotoneAt` and `LabelFixedAt` |
| ValueMapper.LabelValue | MRange.js:288-307 | `_getLabelValue`; stated by `LabelOnGrid`, `LabelBounds`, `LabelEndpoints`, `LabelNearest`, `LabelMonotone` and `LabelRoundTrip` |
| ValueMapper.SnapRange | MRange.js:297-304 | on the step scale the answer is a whole step between 0 and floor(allStep), or allStep |
| ValueMapper.SnapNearest | MRange.js:297-304 | on the step scale no admissible answer is closer to curStep |
| ValueMapper.SnapWithinHalf | MRange.js:297-304 | on the step scale the answer is within half a step of curStep |
| ValueMapper.SnapTail | MRange.js:300-304 | in the trailing partial step the answer is max when strictly closer to it, else the last grid point |
| ValueMapper.SnapMonotone | MRange.js:297-304 | dragging further never gives a smaller step answer |
| ValueMapper.SnapFixed | MRange.js:297-304 | a pointer on a whole step, or on allStep, keeps it |
| ValueMapper.LabelIsSnap | MRange.js:297-304 | the value returned is the step answer times step plus min |
| ValueMapper.LabelOnGridAt | MRange.js:297-304 | given curStep and allStep, the value is max or a grid point min + k * step with k from 0 to floor(allStep) |
| ValueMapper.LabelBoundsAt | MRange.js:297-304 | given curStep and allStep, the value lies in [min, max] |
| ValueMapper.CloserThanGrid | MRange.js:297-304 | the value is at least as close to the exact value as any grid point in range |
| ValueMapper.CloserThanMax | MRange.js:297-304 | the value is at least as close to the exact value as max |
| ValueMapper.WithinHalfStep | MRange.js:297-304 | the value is within half a step of the exact value |
| ValueMapper.LabelMonotoneAt | MRange.js:297-304 | given allStep, a larger curStep never gives a smaller value |
| ValueMapper.LabelFixedAt | MRange.js:297-304 | a curStep on a whole step gives its grid point; curStep = allStep gives max |
| ValueMapper.StepOnTrack | MRange.js:290-293 | a pointer on the track is between 0 and allStep steps along it |
| ValueMapper.MaxInSteps | MRange.js:293 | max is allStep steps from min |
| ValueMapper.ExactInSteps | MRange.js:290 | the value under the pointer is curStep steps from min |
| ValueMapper.LabelOnGrid | MRange.js:288-307 | `_getLabelValue` returns max or a grid point within the range |
| ValueMapper.LabelBounds | MRange.js:288-307 | `_getLabelValue` returns a value in [min, max] |
| ValueMapper.LabelEndpoints | MRange.js:288-307 | the left end of the track gives min and the right end gives max |
| ValueMapper.LabelNearest | MRange.js:288-307 | the value is nearest to the exact value among the grid points in range and max, and within half a step of it |
| ValueMapper.LabelMonotone | MRange.js:288-307 | dragging further right never shows a smaller value |
| ValueMapper.GridPointStep | MRange.js:290 | the pixel offset of the k-th grid point is k steps along the track |
| ValueMapper.GridPointInRange | MRange.js:293 | the grid points 0 to floor(allStep) lie in [min, max] |
| ValueMapper.PixelOnTrack | MRange.js:290 | the pixel offset of a value in [min, max] lies on the track |
| ValueMapper.LabelRoundTrip | MRange.js:288-307 | the pixel offset of each grid point in range shows that grid point, and the right end shows max |
| TrackLayout.PercentBounds | MRange.js:84 | a value in [min, max] sits between 0 and 100 percent, min at 0 and max at 100 |
| TrackLayout.PercentMonotone | MRange.js:91 | larger values sit further right |
| TrackLayout.PercentOfExact | MRange.js:198-199 | the percent of the value under the pointer is the pointer's percent of the track |
| TrackLayout.SingleTrackAtValue | MRange.js:84 | for a value in range the absolute value in the track width changes nothing |
| TrackLayout.PointerRightAtHigh | MRange.js:90-92 | with low <= high the high handle lands at the high value's percent, right of the low handle |
| TrackLayout.PointerRightReversed | MRange.js:90-92 | with "80,20" on [0, 100] the high handle lands at 140 percent |
| TrackLayout.PointerLeft | MRange.js:91 | the low handle's offset in percent; stated by `Display.LayoutHandles` |
| TrackLayout.PointerRight | MRange.js:92 | the track width added to the low handle's offset; stated by `PointerRightAtHigh` and `PointerRightReversed` |
| TrackLayout.SmartSelect | MRange.js:102-108 | the handle made active by `setTrack`; stated by `SmartSelectMeaning` |
| TrackLayout.SmartSelectMeaning | MRange.js:102-108 | for handles in order, Low is made active exactly when the handles' midpoint is right of the middle |
| DragRules.Clamp | MRange.js:194 | the pointer distance clamped to the track; stated by `ClampOnTrack` |
| DragRules.Offset | MRange.js:198 | the pixel distance at a percent of the track: `Ratio` of it gives the percent back, and a percent in [0, 100] is on the track |
| DragRules.RatioOrder | MRange.js:198 | comparing a pointer's percent with a handle's is comparing their pixel distances |
| DragRules.PlaceLow | MRange.js:206-218 | where a dragged low handle goes; stated by `LowStaysBelow` and `LowPinnedAtHigh` |
| DragRules.PlaceHigh | MRange.js:219-231 | where a dragged high handle goes; stated by `HighStaysAbove` |
| DragRules.ClampOnTrack | MRange.js:194 | the clamped distance lies on the track, and is the distance itself when that does |
| DragRules.RatioBounds | MRange.js:198 | a pointer on the track is between 0 and 100 percent |
| DragRules.LowStaysBelow | MRange.js:206-214 | the low handle never passes the high one; it is pinned exactly when it reaches it |
| DragRules.HighStaysAbove | MRange.js:219-227 | the high handle never passes the low one; it is pinned exactly when it reaches it |
| DragRules.LowPinnedAtHigh | MRange.js:207-210 | handles at 20 and 80 percent: dragging the low one to 85 pins it at 80 with an empty track |
| DragLog.StartOpens | MRange.js:150-151 | a `dragstart` on an idle widget opens a drag |
| DragLog.StartWhileOpen | MRange.js:150-151 | a second `dragstart` inside an open drag breaks the event order |
| DragLog.MoveKeepsOpen | MRange.js:237-238 | a `dragmove` inside a drag keeps it open |
| DragLog.EndCloses | MRange.js:252-253 | a `dragend` closes the drag |
| DragLog.IdleRejects | MRange.js:171-182 | no `dragmove` or `dragend` happens while no drag is open |
| DragLog.PrefixWellFormed | MRange.js:149-259 | every prefix of a well-ordered event log is well ordered |
| DragLog.Balanced | MRange.js:149-259 | there are as many `dragstart`s as `dragend`s, plus one during a drag |
| DragLog.OpenedByStart | MRange.js:149-259 | an open drag began with a `dragstart` that no `dragend` followed |
| DragLog.InsideDrag | MRange.js:149-259 | every `dragmove` and `dragend` comes after a `dragstart` with no `dragend` between them |
| Display.Reading | MRange.js:114-119 | `getValue` gives one value exactly for a single widget |
| Display.LayoutView | MRange.js:77-111 | the display `setTrack` produces; stated by `LayoutFits`, `LayoutReading`, `LayoutHandles` and `ReversedLayout` |
| Display.Place | MRange.js:200-243 | the display after the dragged handle, its label and the track are placed; stated by `MoveSingle`, `MoveLow`, `MoveHigh` and `MoveInputLags` |
| Display.Move | MRange.js:185-244 | the display `_onDragMove` produces; stated by `MoveFits` and the lemmas after it |
| Display.LayoutFits | MRange.js:77-111 | laying out values in order within [min, max] gives labels in range and handles on the track, low left of high |
| Display.LayoutReading | MRange.js:77-111 | after the layout `getValue` answers the values laid out |
| Display.LayoutHandles | MRange.js:89-109 | two values in order sit at their percents; Low is active exactly when their midpoint is right of the middle |
| Display.ReversedLayout | MRange.js:73-111 | laid out unchecked, "80,20" puts the high handle at 140 percent, off the track |
| Display.MoveFits | MRange.js:185-244 | a move keeps labels in range, handles on the track and in order, and the drag's record of the other handle |
| Display.MoveSingle | MRange.js:194-205 | one handle: handle and track at the pointer's percent; label and input show the quantised value |
| Display.MoveInputLags | MRange.js:233-235 | two handles: the input shows the labels from before the move |
| Display.MoveLow | MRange.js:206-218 | dragging low leaves the high handle and label alone; low ends on high exactly when pinned, then showing the high label, else the quantised value |
| Display.OffsetOfPercent | MRange.js:91 | the pixel offset of a handle placed at a value's percent is that value's pixel offset |
| Display.LayoutOnGrid | MRange.js:89-99 | after `setTrack` with two values on the step grid (or max), each label is the value `_getLabelValue` gives at its handle's offset, the hypothesis `MoveLowKeepsOrder` and `MoveHighKeepsOrder` start from |
| Display.MoveHigh | MRange.js:219-231 | dragging high leaves the low handle and label alone; high ends on low exactly when pinned, then showing the low label, else the quantised value |
| Display.LowLabelPassesHigh | MRange.js:206-218 | laid out from "20,49.7" on [0, 100] with step 1, a low handle dragged to 49.6 of 100 pixels stays left of the high handle but shows 50, above the high label's 49.7 |
| Display.MoveLowKeepsOrder | MRange.js:206-218 | when the high label is the value `_getLabelValue` gives at the high handle's offset, a low move keeps low label <= high label, and the low label becomes the value at its own offset |
| Display.MoveHighKeepsOrder | MRange.js:219-231 | when the low label is the value at the low handle's offset, a high move keeps low label <= high label, and the high label becomes the value at its own offset |
| Range.MRange.GetValue | MRange.js:114-119 | `getValue` answers one value exactly for a single widget |
| Range.MRange.Init | MRange.js:68-71 | `init` leaves the widget idle and consistent, with an empty event log, showing the option values laid out |
| Range.MRange.Create | MRange.js:15-54 | a widget exists exactly when the options merged over the defaults pass the corrected checks `RangeConfig.Accepts`; its `getValue` gives the option values, and it shows their `setTrack` layout over the page's markup |
| Range.MRange.Layout | MRange.js:77-111 | the display becomes the `setTrack` layout of the values; options, session and events unchanged |
| Range.MRange.LayoutSingle | MRange.js:83-88 | one handle: the display becomes the single-value layout |
| Range.MRange.LayoutDual | MRange.js:89-109 | two handles: the display becomes the two-value layout with smart selection |
| Range.MRange.SetTrack | MRange.js:73-112 | an accepted patch that keeps the mode is merged and laid out; any other patch leaves the widget unchanged; the widget stays consistent |
| Range.MRange.DragStart | MRange.js:149-183 | a `dragstart` with the current value is logged, the pressed handle becomes active, both handle offsets are recorded |
| Range.MRange.DragMove | MRange.js:185-244 | idle: nothing changes; during a drag the display becomes `Display.Move` of the old one and a `dragmove` with the old value is logged; the widget stays consistent |
| Range.MRange.DragSingle | MRange.js:201-205 | the single-handle branch of the move sets the display to `Display.Place` and logs the old value |
| Range.MRange.DragLow | MRange.js:206-218 | the low-handle branch of the move sets the display to `Display.Place` and logs the old value |
| Range.MRange.DragHigh | MRange.js:219-231 | the high-handle branch of the move sets the display to `Display.Place` and logs the old value |
| Range.MRange.DragEnd | MRange.js:246-259 | idle: nothing changes; otherwise the drag closes and a `dragend` with the current value is logged, the display unchanged |

## Left out

- Floating point: numbers are exact reals. So `toFixed(3)` formatting, exponent notation in `toString`, and the binary rounding the decimal helpers work around are not modelled.
- DecimalText.Text: writes any `Decimal`, so one with trailing fraction zeros such as `Decimal(150, 2)` gives "1.50", which `toString` never writes. The texts `toString` writes are those of `DecimalText.Canonical` decimals; the lemmas about `Text` hold for every decimal and so cover them.
- DecimalMath.Div: a zero divisor gives `Failure(DivisionByZero)` where JavaScript gives Infinity or NaN.
- NumberParse.ParseNumber: after leading space, tab, line feed or carriage return, reads only plain decimal text (optional '-', digits, optional point and digits). `parseFloat` also skips the other Unicode white space, reads the longest numeric prefix ("20 " or "20px" read as 20) and accepts exponents. `NumberOf`, which stands for `Number()` on a single text value, reads a blank text as 0 and any other text exactly as `ParseNumber` does: it does not allow trailing white space, exponents, a '+', a point without digits on one side (".5", "5.") or hexadecimal text, all of which `Number()` reads.
- Labels and the input hold the numbers they display rather than their HTML text, so `$.trim` and the text a label shows for a single text value are not modelled.
- Range.MRange.Create: applies the corrected checks, so options the code accepts with a step of 0 or below, or with a part that reads as NaN (see "Findings"), give None where the code builds a widget. The same holds for parts that `parseFloat` reads only as a prefix, such as "20 ,80", and for an empty or all-white-space single value, which `Number()` compares as 0 (`RangeConfig.BlankValueAsWritten`) and which the code then lays out with an empty label, and for a single text in range that only `Number()` reads, such as "2e1" on [0, 100].
- RangeConfig.AcceptsAsWritten: a single text that `Number()` reads but `NumberOf` does not (trailing white space, an exponent, a '+', a point without digits on one side, hexadecimal) counts as NaN here, so every comparison with it is false and the checks as written pass it. The code compares the number: "200 " on [0, 100] is 200 > 100 there and no widget is built, where `AcceptsAsWritten` holds.
- Range.MRange.Valid: keeps the numeric consequences of accepted options (a positive step no larger than the range). That the options stay accepted is stated by `Create` and `SetTrack`, not carried in the invariant.
- Range.MRange.SetTrack: requires that no drag is in progress. A `setTrack` from a drag handler would move handles under a stale record of the other handle's offset.
- Range.MRange.SetTrack: does not clamp or re-quantise values against new bounds; the code does neither.
- Range.MRange.DragStart: requires that no drag is in progress; a second press while dragging (multi-touch) registers a second set of listeners and is not modelled. It also requires a widget box of positive width.
- The `activate` classes of the track and labels are not modelled: they follow the drag state exactly. The `activate` class of the handles is `active`.
- `_getEventAttr` (lines 267-277): the pointer position `clientX` is a parameter of `DragMove`.
- `eventHandle` (lines 121-133): the pressed handle is a parameter of `DragStart`.
- `on`, `off` and `trigger`: triggered events are appended to a log; handlers are not called.
- `destroy` and `reset`: listener teardown is not modelled.
- `$(document).off('.range')` removes the listeners of every widget on the page; one widget is modelled.
- The automatic creation from `data-` attributes (lines 309-319) passes `min`, `max` and `step` as text; the model takes them as numbers.
- The offsets recorded at drag start are read as the percentages written into the handles' inline style, as Zepto's `css()` and `offset()` report them; jQuery reports pixels and no width.
- A rejected constructor call in the code still yields an object without listeners; `Create` returns None.
- Display.MoveFits: does not claim low label <= high label. With values off the step grid the order fails (see "Findings"); `Display.MoveLowKeepsOrder` and `Display.MoveHighKeepsOrder` prove it for labels on the grid.

## Findings

| source | as written | input that shows it | evidently intended | confidence | as-written member | corrected member |
|---|---|---|---|---|---|---|
| MRange.js:40 | `step > Math.abs(max - min)` is the only test of the step, so a step of 0 or below is accepted and `_getLabelValue` divides by it | options `{min: 0, max: 100, step: 0, value: 50}` | reject options whose step is not positive | not executed | RangeConfig.ZeroStepAcceptedAsWritten | RangeConfig.AcceptsMeaning |
| MRange.js:45-47 | a part of a two-value text that `parseFloat` reads as NaN passes every comparison | options `{value: "20,"}` over [0, 100] | reject values that do not read as numbers | not executed | RangeConfig.MalformedValueAcceptedAsWritten | RangeConfig.AcceptsMeaning |
| MRange.js:75 | `setTrack` merges new options without the constructor's checks | `setTrack({value: "80,20"})` on a two-handle widget over [0, 100] puts the high handle at 140 percent | apply only options the constructor would accept, in the widget's mode, and otherwise change nothing | not executed | Display.ReversedLayout | Range.MRange.SetTrack |
| MRange.js:206-218 | a dragged low handle shows the value `_getLabelValue` rounds to, without comparing it with the high label, and the constructor accepts values off the step grid | step 1 on [0, 100] with value "20,49.7": dragging low to 49.6 of a 100-pixel box shows 50 against the high label's 49.7, and `getValue` answers "50,49.7" | the low label never shows more than the high label, as holds whenever each label is the value at its handle's offset | not executed | Display.LowLabelPassesHigh | Display.MoveLowKeepsOrder |
