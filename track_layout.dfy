/**
 * Where `setTrack` puts the handles and the highlighted track, in percent of the track
 * width, and which of two handles it marks active ("smart selection").
 *
 * Percentages are exact reals: the three-decimal `toFixed` formatting is not modelled.
 */
module TrackLayout {
  import opened RealArith
  import opened ValueMapper

  /** The handles: the only one of a single-value widget, or the low and high ones. */
  datatype Handle = Single | Low | High

  /** `(x - min) / (max - min) * 100`: where the value x sits on the track. */
  function Percent(x: real, minVal: real, maxVal: real): real
    requires minVal < maxVal
  {
    (x - minVal) / (maxVal - minVal) * 100.0
  }

  /** One handle: the highlighted track and the handle both end at |percent of the value|. */
  function SingleTrack(x: real, minVal: real, maxVal: real): real
    requires minVal < maxVal
  {
    Abs(Percent(x, minVal, maxVal))
  }

  /** Two handles: the track is |(high - low) / (max - min) * 100| wide. */
  function DualTrackWidth(lo: real, hi: real, minVal: real, maxVal: real): real
    requires minVal < maxVal
  {
    Abs((hi - lo) / (maxVal - minVal) * 100.0)
  }

  /** The low handle and the left end of the track. */
  function PointerLeft(lo: real, minVal: real, maxVal: real): real
    requires minVal < maxVal
  {
    Percent(lo, minVal, maxVal)
  }

  /** The high handle: the track width added to the left end. */
  function PointerRight(lo: real, hi: real, minVal: real, maxVal: real): real
    requires minVal < maxVal
  {
    DualTrackWidth(lo, hi, minVal, maxVal) + PointerLeft(lo, minVal, maxVal)
  }

  /**
   * Smart selection: the low handle is active when its offset exceeds the room to the
   * right of the high handle, or when it sits at 100; the high handle otherwise.
   */
  function SmartSelect(left: real, right: real): Handle {
    if left > 100.0 - right || left == 100.0 then Low else High
  }

  /** A value in [min, max] sits between 0 and 100 percent; min at 0 and max at 100. */
  lemma PercentBounds(x: real, minVal: real, maxVal: real)
    requires minVal < maxVal && minVal <= x <= maxVal
    ensures 0.0 <= Percent(x, minVal, maxVal) <= 100.0
    ensures Percent(minVal, minVal, maxVal) == 0.0 && Percent(maxVal, minVal, maxVal) == 100.0
  {
    PixelFraction(x - minVal, maxVal - minVal, 100.0);
  }

  /** Larger values sit further right. */
  lemma PercentMonotone(x: real, y: real, minVal: real, maxVal: real)
    requires minVal < maxVal && x <= y
    ensures Percent(x, minVal, maxVal) <= Percent(y, minVal, maxVal)
  {
    var d := maxVal - minVal;
    assert (x - minVal) / d <= (y - minVal) / d;
  }

  /** The percent of the value under a pointer is the pointer's percent of the track. */
  lemma PercentOfExact(curWidth: real, maxWidth: real, minVal: real, maxVal: real)
    requires maxWidth > 0.0 && minVal < maxVal
    ensures Percent(Exact(curWidth, maxWidth, minVal, maxVal), minVal, maxVal) == curWidth / maxWidth * 100.0
  {
    var d := maxVal - minVal;
    assert Exact(curWidth, maxWidth, minVal, maxVal) - minVal == curWidth / maxWidth * d;
  }

  /** One handle at a value in range: the track ends exactly at the value's percent. */
  lemma SingleTrackAtValue(x: real, minVal: real, maxVal: real)
    requires minVal < maxVal && minVal <= x <= maxVal
    ensures SingleTrack(x, minVal, maxVal) == Percent(x, minVal, maxVal)
  {
    PercentBounds(x, minVal, maxVal);
  }

  /**
   * With low <= high the track runs from the low value's percent to the high value's:
   * the high handle lands exactly at the high value.
   */
  lemma PointerRightAtHigh(lo: real, hi: real, minVal: real, maxVal: real)
    requires minVal < maxVal && lo <= hi
    ensures PointerRight(lo, hi, minVal, maxVal) == Percent(hi, minVal, maxVal)
    ensures PointerLeft(lo, minVal, maxVal) <= PointerRight(lo, hi, minVal, maxVal)
  {
    var d := maxVal - minVal;
    assert (hi - lo) / d * 100.0 >= 0.0;
    assert (hi - lo) / d * 100.0 + (lo - minVal) / d * 100.0 == (hi - minVal) / d * 100.0;
  }

  /**
   * With low > high the width is still taken as a distance, so the high handle lands
   * beyond the low one by that distance: "80,20" on [0, 100] puts it at 140 percent.
   */
  lemma PointerRightReversed()
    ensures PointerRight(80.0, 20.0, 0.0, 100.0) == 140.0
  {
  }

  /**
   * For handles in order on the track, smart selection picks Low exactly when the low
   * handle's offset exceeds the room right of the high handle, that is when the midpoint
   * of the two handles lies right of the middle of the track; the `== 100` test never
   * changes the answer.
   */
  lemma SmartSelectMeaning(left: real, right: real)
    requires 0.0 <= left <= right <= 100.0
    ensures SmartSelect(left, right) == Low <==> left > 100.0 - right
    ensures SmartSelect(left, right) == Low <==> (left + right) * 0.5 > 50.0
    ensures SmartSelect(left, right) != Single
  {
  }
}
