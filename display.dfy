/**
 * What an MRange widget displays, as one value: the labels, the value of its input, the
 * offsets of the handles, the highlighted track and the active handle. `setTrack` and
 * `_onDragMove` are written here as functions from the display before to the display
 * after, and the invariants they keep are proved about those functions.
 */
module Display {
  import opened RealArith
  import opened RangeConfig
  import opened ValueMapper
  import opened TrackLayout
  import opened DragRules

  /**
   * The label of a single widget, the low and high labels, the input, the offsets of the
   * single, low and high handles and of the left end of the track, the track width (all
   * in percent of the track), and the handle marked active.
   */
  datatype View = View(
    singleLabel: real, labelLow: real, labelHigh: real, input: Values,
    pointer: real, pointerLow: real, pointerHigh: real, trackLeft: real, trackWidth: real,
    active: Handle)

  /**
   * The data of the move listener: the dragged handle, the widget's box, the boxes of
   * the two handles, and the offsets (in percent) of the two handles when the drag began.
   */
  datatype Session = Session(handle: Handle, rect: Rect, lowRect: Rect, highRect: Rect, lowSnap: real, highSnap: real)

  /** `getValue`: the label of a single widget, or the low and the high label. */
  function Reading(v: View, single: bool): (r: Values)
    ensures r.One? <==> single
  {
    if single then One(v.singleLabel) else Two(v.labelLow, v.labelHigh)
  }

  /**
   * A consistent display: labels within [min, max] and handles on the track. One handle:
   * the track ends at the handle, the input shows the label. Two handles: the low one
   * left of the high one, the track starting at the low one, one of them active.
   */
  predicate Fits(v: View, minVal: real, maxVal: real, single: bool) {
    if single then
      minVal <= v.singleLabel <= maxVal && 0.0 <= v.pointer <= 100.0 && v.trackWidth == v.pointer &&
      v.input == One(v.singleLabel) && v.active == Single
    else
      minVal <= v.labelLow <= maxVal && minVal <= v.labelHigh <= maxVal &&
      0.0 <= v.pointerLow <= v.pointerHigh <= 100.0 && v.trackLeft == v.pointerLow && v.active != Single
  }

  /**
   * A drag of the handle of the widget's mode over a box of positive width, the dragged
   * handle active; the offset recorded for the other handle is still its offset.
   */
  predicate SessionFits(s: Session, v: View, single: bool) {
    s.rect.width > 0.0 && (s.handle == Single <==> single) && v.active == s.handle &&
    (s.handle == Low ==> s.highSnap == v.pointerHigh) &&
    (s.handle == High ==> s.lowSnap == v.pointerLow)
  }

  /**
   * The layout of `setTrack` for values in the widget's mode: labels and input show the
   * values; one handle and the track end at the value's percent; two handles at the
   * low value's percent and at that plus the track width, with smart selection.
   */
  function LayoutView(v: View, values: Values, minVal: real, maxVal: real): View
    requires minVal < maxVal
  {
    match values
    case One(x) =>
      var width := SingleTrack(x, minVal, maxVal);
      v.(pointer := width, active := Single, singleLabel := x, input := One(x), trackWidth := width)
    case Two(lo, hi) =>
      var left := PointerLeft(lo, minVal, maxVal);
      var right := PointerRight(lo, hi, minVal, maxVal);
      v.(trackLeft := left, pointerLow := left, pointerHigh := right, labelLow := lo, labelHigh := hi,
         input := Two(lo, hi), active := SmartSelect(left, right),
         trackWidth := DualTrackWidth(lo, hi, minVal, maxVal))
  }

  /**
   * The placing part of `_onDragMove`, for a pointer `w` pixels along the track where
   * the value `value` was computed: the dragged handle, its label and the track placed,
   * a dragged low or high handle pinned onto the other one showing the other one's label.
   * A single widget's input shows the new label; a two-handle widget's input shows the
   * labels from before.
   */
  function Place(v: View, s: Session, w: real, value: real): View
    requires s.rect.width > 0.0
  {
    var pct := Ratio(w, s.rect.width);
    match s.handle
    case Single =>
      v.(input := One(value), trackWidth := pct, pointer := pct, singleLabel := value)
    case Low =>
      var p := PlaceLow(pct, s.highSnap, w, s.rect.left, s.rect.width, s.highRect);
      v.(trackLeft := p.left, input := Two(v.labelLow, v.labelHigh), trackWidth := p.track,
         pointerLow := p.left, labelLow := if p.pinned then v.labelHigh else value)
    case High =>
      var p := PlaceHigh(pct, s.lowSnap, w, s.rect.left, s.rect.width, s.lowRect);
      v.(input := Two(v.labelLow, v.labelHigh), trackWidth := p.track,
         pointerHigh := p.left, labelHigh := if p.pinned then v.labelLow else value)
  }

  /**
   * `_onDragMove` with the pointer at `clientX`: the distance clamped to the track and
   * quantised to a value, then placed.
   */
  function Move(v: View, s: Session, c: Config, clientX: real): View
    requires s.rect.width > 0.0 && c.min < c.max && c.step > 0.0
  {
    var w := Clamp(clientX - s.rect.left, s.rect.width);
    Place(v, s, w, LabelValue(w, s.rect.width, c.min, c.max, c.step))
  }

  // ---------------------------------------------------------------- setTrack

  /** Laying out values in order within [min, max] gives a consistent display. */
  lemma LayoutFits(v: View, values: Values, minVal: real, maxVal: real)
    requires minVal < maxVal && InRange(values, minVal, maxVal)
    ensures Fits(LayoutView(v, values, minVal, maxVal), minVal, maxVal, values.One?)
  {
    match values
    case One(x) =>
      SingleTrackAtValue(x, minVal, maxVal);
      PercentBounds(x, minVal, maxVal);
    case Two(lo, hi) =>
      PointerRightAtHigh(lo, hi, minVal, maxVal);
      PercentBounds(lo, minVal, maxVal);
      PercentBounds(hi, minVal, maxVal);
      SmartSelectMeaning(PointerLeft(lo, minVal, maxVal), PointerRight(lo, hi, minVal, maxVal));
  }

  /** After the layout, `getValue` answers the values laid out. */
  lemma LayoutReading(v: View, values: Values, minVal: real, maxVal: real)
    requires minVal < maxVal
    ensures Reading(LayoutView(v, values, minVal, maxVal), values.One?) == values
  {
  }

  /**
   * Two values in order within [min, max] put the handles at their percents, and the
   * low handle is made active exactly when their midpoint lies right of the middle.
   */
  lemma LayoutHandles(v: View, lo: real, hi: real, minVal: real, maxVal: real)
    requires minVal < maxVal && minVal <= lo <= hi <= maxVal
    ensures var r := LayoutView(v, Two(lo, hi), minVal, maxVal);
      r.pointerLow == Percent(lo, minVal, maxVal) && r.pointerHigh == Percent(hi, minVal, maxVal) &&
      (r.active == Low <==> (r.pointerLow + r.pointerHigh) * 0.5 > 50.0)
  {
    PointerRightAtHigh(lo, hi, minVal, maxVal);
    PercentBounds(lo, minVal, maxVal);
    PercentBounds(hi, minVal, maxVal);
    SmartSelectMeaning(Percent(lo, minVal, maxVal), Percent(hi, minVal, maxVal));
  }

  /**
   * Laid out without the constructor's checks, the reversed values "80,20" on [0, 100]
   * put the low handle at 80 percent and the high one at 140, off the track.
   */
  lemma ReversedLayout(v: View)
    ensures var r := LayoutView(v, Two(80.0, 20.0), 0.0, 100.0);
      r.pointerLow == 80.0 && r.pointerHigh == 140.0 && !Fits(r, 0.0, 100.0, false)
  {
    PointerRightReversed();
  }

  // ---------------------------------------------------------------- _onDragMove

  /** A move keeps the display consistent and the drag's record of the other handle true. */
  lemma MoveFits(v: View, s: Session, c: Config, clientX: real, single: bool)
    requires c.min < c.max && c.step > 0.0
    requires Fits(v, c.min, c.max, single) && SessionFits(s, v, single)
    ensures Fits(Move(v, s, c, clientX), c.min, c.max, single)
    ensures SessionFits(s, Move(v, s, c, clientX), single)
  {
    var w := Clamp(clientX - s.rect.left, s.rect.width);
    var pct := Ratio(w, s.rect.width);
    ClampOnTrack(clientX - s.rect.left, s.rect.width);
    RatioBounds(w, s.rect.width);
    LabelBounds(w, s.rect.width, c.min, c.max, c.step);
    if s.handle == Low {
      LowStaysBelow(pct, s.highSnap, w, s.rect.left, s.rect.width, s.highRect);
    } else if s.handle == High {
      HighStaysAbove(pct, s.lowSnap, w, s.rect.left, s.rect.width, s.lowRect);
    }
  }

  /**
   * One handle: the handle and the track end at the pointer's percent of the track, and
   * the label and the input both show the quantised value under the pointer.
   */
  lemma MoveSingle(v: View, s: Session, c: Config, clientX: real)
    requires s.rect.width > 0.0 && c.min < c.max && c.step > 0.0 && s.handle == Single
    ensures var w := Clamp(clientX - s.rect.left, s.rect.width);
      var r := Move(v, s, c, clientX);
      r.pointer == r.trackWidth == w / s.rect.width * 100.0 &&
      Reading(r, true) == One(LabelValue(w, s.rect.width, c.min, c.max, c.step)) && r.input == Reading(r, true)
  {
  }

  /**
   * Two handles: the input and the value read before and after differ in that the input
   * still shows the labels from before the move.
   */
  lemma MoveInputLags(v: View, s: Session, c: Config, clientX: real)
    requires s.rect.width > 0.0 && c.min < c.max && c.step > 0.0 && s.handle != Single
    ensures Move(v, s, c, clientX).input == Reading(v, false)
  {
  }

  /**
   * Dragging the low handle leaves the high handle and its label alone. The low handle
   * ends on the high one exactly when it was pinned, and then shows the high label;
   * otherwise it shows the quantised value under the pointer.
   */
  lemma MoveLow(v: View, s: Session, c: Config, clientX: real)
    requires s.rect.width > 0.0 && c.min < c.max && c.step > 0.0
    requires s.handle == Low && s.highSnap == v.pointerHigh
    ensures var w := Clamp(clientX - s.rect.left, s.rect.width);
      var r := Move(v, s, c, clientX);
      r.pointerHigh == v.pointerHigh && r.labelHigh == v.labelHigh && r.pointerLow <= r.pointerHigh &&
      (r.pointerLow == r.pointerHigh ==> r.labelLow == v.labelHigh && r.trackWidth == 0.0) &&
      (r.pointerLow < r.pointerHigh ==> r.labelLow == LabelValue(w, s.rect.width, c.min, c.max, c.step))
  {
    var w := Clamp(clientX - s.rect.left, s.rect.width);
    LowStaysBelow(Ratio(w, s.rect.width), s.highSnap, w, s.rect.left, s.rect.width, s.highRect);
  }

  /**
   * Dragging the high handle leaves the low handle and its label alone. The high handle
   * ends on the low one exactly when it was pinned, and then shows the low label;
   * otherwise it shows the quantised value under the pointer.
   */
  lemma MoveHigh(v: View, s: Session, c: Config, clientX: real)
    requires s.rect.width > 0.0 && c.min < c.max && c.step > 0.0
    requires s.handle == High && s.lowSnap == v.pointerLow
    ensures var w := Clamp(clientX - s.rect.left, s.rect.width);
      var r := Move(v, s, c, clientX);
      r.pointerLow == v.pointerLow && r.labelLow == v.labelLow && r.pointerLow <= r.pointerHigh &&
      (r.pointerHigh == r.pointerLow ==> r.labelHigh == v.labelLow && r.trackWidth == 0.0) &&
      (r.pointerLow < r.pointerHigh ==> r.labelHigh == LabelValue(w, s.rect.width, c.min, c.max, c.step))
  {
    var w := Clamp(clientX - s.rect.left, s.rect.width);
    HighStaysAbove(Ratio(w, s.rect.width), s.lowSnap, w, s.rect.left, s.rect.width, s.lowRect);
  }

  /**
   * Values off the step grid let the low label pass the high one. On [0, 100] with step 1
   * and the values 20 and 49.7, dragging the low handle to 49.6 pixels of a box 100
   * pixels wide leaves it left of the high handle, but `_getLabelValue` rounds it to 50.
   */
  lemma LowLabelPassesHigh(v0: View)
    ensures var c := Config(0.0, 100.0, 1.0, Str("20,49.7"));
      var v := LayoutView(v0, Two(20.0, 49.7), 0.0, 100.0).(active := Low);
      var s := Session(Low, Rect(0.0, 100.0), Rect(20.0, 1.0), Rect(49.7, 1.0), v.pointerLow, v.pointerHigh);
      var r := Move(v, s, c, 49.6);
      Fits(v, 0.0, 100.0, false) && SessionFits(s, v, false) &&
      r.pointerLow < r.pointerHigh && r.labelLow == 50.0 && r.labelHigh == 49.7
  {
    var v := LayoutView(v0, Two(20.0, 49.7), 0.0, 100.0);
    LayoutFits(v0, Two(20.0, 49.7), 0.0, 100.0);
    LayoutHandles(v0, 20.0, 49.7, 0.0, 100.0);
    assert Percent(49.7, 0.0, 100.0) == 49.7;
    assert CurStep(49.6, 100.0, 0.0, 100.0, 1.0) == 49.6;
    assert Round(49.6) == 50 by { assert (49.6 + 0.5).Floor == 50; }
    assert LabelValue(49.6, 100.0, 0.0, 100.0, 1.0) == 50.0;
  }

  /**
   * Dragging the low handle keeps the labels in order when the high label is the value
   * `_getLabelValue` gives at the high handle's offset: the low handle either stops left
   * of it, at a smaller distance, or is pinned onto it and copies its label. Either way
   * the low label is then the value at the low handle's own offset, which is what a
   * following drag of the high handle needs.
   */
  lemma MoveLowKeepsOrder(v: View, s: Session, c: Config, clientX: real)
    requires c.min < c.max && c.step > 0.0
    requires Fits(v, c.min, c.max, false) && SessionFits(s, v, false) && s.handle == Low
    requires v.labelHigh == LabelValue(Offset(v.pointerHigh, s.rect.width), s.rect.width, c.min, c.max, c.step)
    ensures Move(v, s, c, clientX).labelLow <= Move(v, s, c, clientX).labelHigh
    ensures var r := Move(v, s, c, clientX);
      r.labelLow == LabelValue(Offset(r.pointerLow, s.rect.width), s.rect.width, c.min, c.max, c.step)
  {
    var w := Clamp(clientX - s.rect.left, s.rect.width);
    var high := Offset(v.pointerHigh, s.rect.width);
    ClampOnTrack(clientX - s.rect.left, s.rect.width);
    MoveLow(v, s, c, clientX);
    OffsetOfRatio(w, s.rect.width);
    if Ratio(w, s.rect.width) < s.highSnap {
      RatioOrder(w, v.pointerHigh, s.rect.width);
      LabelMonotone(w, high, s.rect.width, c.min, c.max, c.step);
    }
  }

  /**
   * Dragging the high handle keeps the labels in order when the low label is the value
   * `_getLabelValue` gives at the low handle's offset; the high label is then the value
   * at the high handle's own offset.
   */
  lemma MoveHighKeepsOrder(v: View, s: Session, c: Config, clientX: real)
    requires c.min < c.max && c.step > 0.0
    requires Fits(v, c.min, c.max, false) && SessionFits(s, v, false) && s.handle == High
    requires v.labelLow == LabelValue(Offset(v.pointerLow, s.rect.width), s.rect.width, c.min, c.max, c.step)
    ensures Move(v, s, c, clientX).labelLow <= Move(v, s, c, clientX).labelHigh
    ensures var r := Move(v, s, c, clientX);
      r.labelHigh == LabelValue(Offset(r.pointerHigh, s.rect.width), s.rect.width, c.min, c.max, c.step)
  {
    var w := Clamp(clientX - s.rect.left, s.rect.width);
    var low := Offset(v.pointerLow, s.rect.width);
    ClampOnTrack(clientX - s.rect.left, s.rect.width);
    MoveHigh(v, s, c, clientX);
    OffsetOfRatio(w, s.rect.width);
    if Ratio(w, s.rect.width) > s.lowSnap {
      RatioOrder(w, v.pointerLow, s.rect.width);
      LabelMonotone(low, w, s.rect.width, c.min, c.max, c.step);
    }
  }

  /** The pixel distance at a value's percent is the value's pixel offset. */
  lemma OffsetOfPercent(x: real, maxWidth: real, minVal: real, maxVal: real)
    requires maxWidth > 0.0 && minVal < maxVal
    ensures Offset(Percent(x, minVal, maxVal), maxWidth) == PixelOf(x, maxWidth, minVal, maxVal)
  {
  }

  /**
   * `setTrack` with two values that `_getLabelValue` can answer lays out labels that are
   * the values at their handles' offsets, for a box of any width: the hypothesis of
   * `MoveLowKeepsOrder` and `MoveHighKeepsOrder` holds from the start.
   */
  lemma LayoutOnGrid(v: View, lo: real, hi: real, kLo: int, kHi: int, maxWidth: real, minVal: real, maxVal: real, stepVal: real)
    requires maxWidth > 0.0 && minVal < maxVal && stepVal > 0.0 && lo <= hi
    requires GridValue(lo, kLo, minVal, maxVal, stepVal) && GridValue(hi, kHi, minVal, maxVal, stepVal)
    ensures var r := LayoutView(v, Two(lo, hi), minVal, maxVal);
      r.labelLow == LabelValue(Offset(r.pointerLow, maxWidth), maxWidth, minVal, maxVal, stepVal) &&
      r.labelHigh == LabelValue(Offset(r.pointerHigh, maxWidth), maxWidth, minVal, maxVal, stepVal)
  {
    PointerRightAtHigh(lo, hi, minVal, maxVal);
    OffsetOfPercent(lo, maxWidth, minVal, maxVal);
    OffsetOfPercent(hi, maxWidth, minVal, maxVal);
    GridValueRoundTrip(lo, kLo, maxWidth, minVal, maxVal, stepVal);
    GridValueRoundTrip(hi, kHi, maxWidth, minVal, maxVal, stepVal);
  }
}
