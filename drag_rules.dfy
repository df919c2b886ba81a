/**
 * The geometry of one `_onDragMove`: how far the pointer is along the track, where the
 * dragged handle goes, and how wide the highlighted track becomes, before anything is
 * written back to the widget.
 *
 * A dragged low handle may not pass the high one and a dragged high handle may not pass
 * the low one: reaching the other handle pins the dragged one onto it and empties the
 * track. The positions of the other handle are the ones taken when the drag started.
 */
module DragRules {

  /** A bounding box on the page, left edge and width in pixels (`offset()`). */
  datatype Rect = Rect(left: real, width: real)

  /** Where the dragged handle goes, the track width, and whether it was pinned. */
  datatype Placement = Placement(left: real, track: real, pinned: bool)

  /** The pointer distance clamped to the track: below 0 reads 0, beyond its width reads its width. */
  function Clamp(x: real, maxWidth: real): real {
    if x < 0.0 then 0.0 else if x > maxWidth then maxWidth else x
  }

  /** `curWidth / maxWidth * 100`: the pointer's percent of the track. */
  function Ratio(curWidth: real, maxWidth: real): real
    requires maxWidth > 0.0
  {
    curWidth / maxWidth * 100.0
  }

  /** The pixel distance at `pct` percent of a track `maxWidth` pixels wide. */
  function Offset(pct: real, maxWidth: real): (w: real)
    requires maxWidth > 0.0
    ensures Ratio(w, maxWidth) == pct
    ensures 0.0 <= pct <= 100.0 ==> 0.0 <= w <= maxWidth
  {
    assert pct <= 100.0 ==> pct / 100.0 * maxWidth <= 1.0 * maxWidth by {
      if pct <= 100.0 { assert pct / 100.0 <= 1.0; }
    }
    pct / 100.0 * maxWidth
  }

  /**
   * A dragged low handle: pinned onto the high handle (and an empty track) once its
   * percent reaches the high handle's; otherwise at its percent, with the track running
   * from it to the middle of the high handle.
   */
  function PlaceLow(pct: real, highSnap: real, curWidth: real, moveBase: real, maxWidth: real, highRect: Rect): Placement
    requires maxWidth > 0.0
  {
    if pct >= highSnap then Placement(highSnap, 0.0, true)
    else Placement(pct, Ratio(highRect.left - moveBase - curWidth + highRect.width * 0.5, maxWidth), false)
  }

  /**
   * A dragged high handle: pinned onto the low handle once its percent falls to the low
   * handle's; otherwise at its percent, with the track running from the middle of the low
   * handle to it.
   */
  function PlaceHigh(pct: real, lowSnap: real, curWidth: real, moveBase: real, maxWidth: real, lowRect: Rect): Placement
    requires maxWidth > 0.0
  {
    if pct <= lowSnap then Placement(lowSnap, 0.0, true)
    else Placement(pct, Ratio(curWidth - (lowRect.left - moveBase) - lowRect.width * 0.5, maxWidth), false)
  }

  /** The clamped distance lies on the track and is the distance itself when that does. */
  lemma ClampOnTrack(x: real, maxWidth: real)
    requires maxWidth >= 0.0
    ensures 0.0 <= Clamp(x, maxWidth) <= maxWidth
    ensures 0.0 <= x <= maxWidth ==> Clamp(x, maxWidth) == x
    ensures x <= 0.0 ==> Clamp(x, maxWidth) == 0.0
    ensures x >= maxWidth ==> Clamp(x, maxWidth) == maxWidth
  {
  }

  /** The pixel distance at a pointer's percent is the pointer's distance. */
  lemma OffsetOfRatio(curWidth: real, maxWidth: real)
    requires maxWidth > 0.0
    ensures Offset(Ratio(curWidth, maxWidth), maxWidth) == curWidth
  {
  }

  /** Comparing percents of the track is comparing pixel distances. */
  lemma RatioOrder(curWidth: real, pct: real, maxWidth: real)
    requires maxWidth > 0.0
    ensures Ratio(curWidth, maxWidth) < pct <==> curWidth < Offset(pct, maxWidth)
    ensures Ratio(curWidth, maxWidth) > pct <==> curWidth > Offset(pct, maxWidth)
  {
    assert Offset(pct, maxWidth) == Ratio(curWidth, maxWidth) / 100.0 * maxWidth + (pct - Ratio(curWidth, maxWidth)) / 100.0 * maxWidth;
    assert Ratio(curWidth, maxWidth) / 100.0 * maxWidth == curWidth;
  }

  /** A pointer on the track is between 0 and 100 percent along it. */
  lemma RatioBounds(curWidth: real, maxWidth: real)
    requires maxWidth > 0.0 && 0.0 <= curWidth <= maxWidth
    ensures 0.0 <= Ratio(curWidth, maxWidth) <= 100.0
  {
    assert curWidth / maxWidth <= 1.0;
  }

  /**
   * The low handle never passes the high one: it is pinned exactly when its percent
   * reaches the high handle's, and otherwise stays where the pointer is.
   */
  lemma LowStaysBelow(pct: real, highSnap: real, curWidth: real, moveBase: real, maxWidth: real, highRect: Rect)
    requires maxWidth > 0.0
    ensures var p := PlaceLow(pct, highSnap, curWidth, moveBase, maxWidth, highRect);
      p.left <= highSnap && (p.pinned <==> pct >= highSnap) &&
      (p.pinned ==> p.left == highSnap && p.track == 0.0) && (!p.pinned ==> p.left == pct)
  {
  }

  /**
   * The high handle never passes the low one: it is pinned exactly when its percent
   * falls to the low handle's, and otherwise stays where the pointer is.
   */
  lemma HighStaysAbove(pct: real, lowSnap: real, curWidth: real, moveBase: real, maxWidth: real, lowRect: Rect)
    requires maxWidth > 0.0
    ensures var p := PlaceHigh(pct, lowSnap, curWidth, moveBase, maxWidth, lowRect);
      p.left >= lowSnap && (p.pinned <==> pct <= lowSnap) &&
      (p.pinned ==> p.left == lowSnap && p.track == 0.0) && (!p.pinned ==> p.left == pct)
  {
  }

  /**
   * Handles at 20 and 80 percent: dragging the low one to 85 percent pins it at 80 with
   * an empty track.
   */
  lemma LowPinnedAtHigh(curWidth: real, moveBase: real, maxWidth: real, highRect: Rect)
    requires maxWidth > 0.0
    ensures PlaceLow(85.0, 80.0, curWidth, moveBase, maxWidth, highRect) == Placement(80.0, 0.0, true)
  {
  }
}
