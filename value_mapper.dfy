/**
 * Position-to-value quantisation: `_getLabelValue`, which turns the distance a handle
 * has been dragged along the range into the value its label shows.
 *
 * The distance is first measured in steps (`curStep`), as is the whole range
 * (`allStep`). Inside the whole steps the value is the grid point nearest to the
 * pointer, halves rounding up as Math.round does. In the trailing part of a range that
 * is not a multiple of the step, the value is `max` when the pointer is past the middle
 * of that part and the last grid point otherwise. The lemmas are stated first on the
 * step scale (`Snap`) and then carried over to values.
 */
module ValueMapper {
  import opened RealArith

  // ---------------------------------------------------------------- the step scale

  /** Math.round: the nearest integer, halves going up. */
  function Round(x: real): int {
    (x + 0.5).Floor
  }

  /** The fractional part x - Math.floor(x). */
  function Frac(x: real): real {
    x - x.Floor as real
  }

  /**
   * The choice `_getLabelValue` makes, on the step scale: `c` steps dragged out of `a`
   * steps in all. The answer is a whole number of steps, or `a` itself for `max`.
   */
  function Snap(c: real, a: real): real {
    if c.Floor < a.Floor then Round(c) as real
    else if Frac(c) > Frac(a) * 0.5 then a
    else a.Floor as real
  }

  /** Math.floor bounds: floor(x) <= x < floor(x) + 1. */
  lemma FloorBounds(x: real)
    ensures x.Floor as real <= x < x.Floor as real + 1.0
  {
  }

  /** Math.round is never more than half away, and is at least as close as any integer. */
  lemma RoundNearest(x: real, k: int)
    ensures Abs(Round(x) as real - x) <= 0.5
    ensures Abs(Round(x) as real - x) <= Abs(k as real - x)
  {
    var r := Round(x);
    FloorBounds(x + 0.5);
    assert r as real - x <= 0.5 && x - r as real < 0.5;
    if k < r {
      assert k as real <= r as real - 1.0;
    } else if k > r {
      assert k as real >= r as real + 1.0;
    }
  }

  /** Math.round sends x.5 up. */
  lemma RoundHalfUp(n: int)
    ensures Round(n as real + 0.5) == n + 1
  {
  }

  /** Snap gives a grid index between 0 and floor(a), or a itself. */
  lemma SnapRange(c: real, a: real)
    requires 0.0 <= c <= a
    ensures Snap(c, a) == a || (Snap(c, a) == Snap(c, a).Floor as real && 0 <= Snap(c, a).Floor <= a.Floor)
    ensures 0.0 <= Snap(c, a) <= a
  {
  }

  /** On the step scale the pointer's floor never passes the range's. */
  lemma FloorOrder(c: real, a: real)
    requires c <= a
    ensures c.Floor <= a.Floor
  {
    FloorBounds(c);
    FloorBounds(a);
  }

  /** No admissible answer (a grid index up to floor(a), or a) is closer to c than Snap. */
  lemma SnapNearest(c: real, a: real, k: int)
    requires 0.0 <= c <= a && 0 <= k <= a.Floor
    ensures Abs(Snap(c, a) - c) <= Abs(k as real - c)
    ensures Abs(Snap(c, a) - c) <= Abs(a - c)
  {
    FloorBounds(c);
    FloorBounds(a);
    FloorOrder(c, a);
    var f := c.Floor;
    if f < a.Floor {
      RoundNearest(c, k);
      RoundNearest(c, f + 1);
      assert Abs((f + 1) as real - c) <= a - c;
    } else {
      assert f == a.Floor;
      if Frac(c) > Frac(a) * 0.5 {
        assert k as real <= f as real;
      } else {
        assert a - c >= c - f as real;
        assert k as real <= f as real;
      }
    }
  }

  /** Snap is never more than half a step away from the pointer. */
  lemma SnapWithinHalf(c: real, a: real)
    requires 0.0 <= c <= a
    ensures Abs(Snap(c, a) - c) <= 0.5
  {
    FloorBounds(c);
    FloorBounds(a);
    FloorOrder(c, a);
    RoundNearest(c, 0);
  }

  /**
   * In the trailing partial step the answer is `a` when the pointer is strictly closer
   * to `a` than to the last grid index, and that grid index otherwise: a tie goes down.
   */
  lemma SnapTail(c: real, a: real)
    requires 0.0 <= c <= a && c.Floor == a.Floor
    ensures Snap(c, a) == if a - c < c - a.Floor as real then a else a.Floor as real
  {
  }

  /** Dragging further never gives a smaller answer. */
  lemma SnapMonotone(c1: real, c2: real, a: real)
    requires 0.0 <= c1 <= c2 <= a
    ensures Snap(c1, a) <= Snap(c2, a)
  {
    FloorBounds(c1);
    FloorBounds(c2);
    FloorBounds(a);
    FloorOrder(c1, c2);
    FloorOrder(c2, a);
    FloorBounds(c1 + 0.5);
    FloorBounds(c2 + 0.5);
    if c2.Floor < a.Floor {
      FloorOrder(c1 + 0.5, c2 + 0.5);
    } else if c1.Floor < a.Floor {
      assert Round(c1) <= c1.Floor + 1;
      assert a.Floor as real <= Snap(c2, a);
    }
  }

  /** A pointer standing on an admissible answer stays there. */
  lemma SnapFixed(k: int, a: real)
    requires 0 <= k <= a.Floor
    ensures Snap(k as real, a) == k as real
    ensures Snap(a, a) == a
  {
    FloorBounds(a);
    assert (k as real).Floor == k;
    assert (k as real + 0.5).Floor == k;
  }

  // ---------------------------------------------------------------- values

  /**
   * `curStep`: the dragged distance in steps. `_getLabelValue` computes it with the decimal
   * helpers in floating point; as everywhere in this model the numbers are taken as exact
   * reals, so it is written here as exact real arithmetic.
   */
  function CurStep(curWidth: real, maxWidth: real, minVal: real, maxVal: real, stepVal: real): real
    requires maxWidth > 0.0 && minVal < maxVal && stepVal > 0.0
  {
    curWidth / (maxWidth / (maxVal - minVal)) / stepVal
  }

  /** `allStep`: the whole range in steps. */
  function AllStep(minVal: real, maxVal: real, stepVal: real): real
    requires stepVal > 0.0
  {
    (maxVal - minVal) / stepVal
  }

  /** The k-th grid point `k * step + min`. */
  function GridPoint(minVal: real, stepVal: real, k: int): real {
    k as real * stepVal + minVal
  }

  /**
   * The three branches of `_getLabelValue`, given `curStep` and `allStep`: inside the
   * whole steps the rounded grid point, in the trailing part `max` past its middle and
   * the last grid point otherwise.
   */
  function Label(curStep: real, allStep: real, minVal: real, maxVal: real, stepVal: real): real {
    if curStep.Floor < allStep.Floor then GridPoint(minVal, stepVal, Round(curStep))
    else if Frac(curStep) > Frac(allStep) * 0.5 then maxVal
    else GridPoint(minVal, stepVal, allStep.Floor)
  }

  /**
   * `_getLabelValue(curWidth, maxWidth, min, max, step)`: the value a handle shows when
   * it is `curWidth` pixels into a track `maxWidth` pixels wide.
   */
  function LabelValue(curWidth: real, maxWidth: real, minVal: real, maxVal: real, stepVal: real): real
    requires maxWidth > 0.0 && minVal < maxVal && stepVal > 0.0
  {
    Label(CurStep(curWidth, maxWidth, minVal, maxVal, stepVal), AllStep(minVal, maxVal, stepVal), minVal, maxVal, stepVal)
  }

  /** The value under the pointer before quantisation: the same fraction of the range. */
  function Exact(curWidth: real, maxWidth: real, minVal: real, maxVal: real): real
    requires maxWidth > 0.0
  {
    curWidth / maxWidth * (maxVal - minVal) + minVal
  }

  /** The pixel distance at which the unquantised value is x: the inverse of Exact. */
  function PixelOf(x: real, maxWidth: real, minVal: real, maxVal: real): real
    requires minVal < maxVal
  {
    (x - minVal) / (maxVal - minVal) * maxWidth
  }

  // ---------------------------------------------------------------- Label, on variables

  /** With max = min + allStep * step, Label is the Snap answer measured in steps from min. */
  lemma LabelIsSnap(c: real, a: real, minVal: real, maxVal: real, stepVal: real)
    requires maxVal == a * stepVal + minVal
    ensures Label(c, a, minVal, maxVal, stepVal) == Snap(c, a) * stepVal + minVal
  {
  }

  lemma LabelOnGridAt(c: real, a: real, minVal: real, maxVal: real, stepVal: real)
    requires 0.0 <= c <= a && maxVal == a * stepVal + minVal
    ensures var r := Label(c, a, minVal, maxVal, stepVal);
      r == maxVal || exists k: int :: 0 <= k <= a.Floor && r == GridPoint(minVal, stepVal, k)
  {
    SnapRange(c, a);
    LabelIsSnap(c, a, minVal, maxVal, stepVal);
    if Snap(c, a) != a {
      assert Label(c, a, minVal, maxVal, stepVal) == GridPoint(minVal, stepVal, Snap(c, a).Floor);
    }
  }

  lemma LabelBoundsAt(c: real, a: real, minVal: real, maxVal: real, stepVal: real)
    requires 0.0 <= c <= a && stepVal > 0.0 && maxVal == a * stepVal + minVal
    ensures minVal <= Label(c, a, minVal, maxVal, stepVal) <= maxVal
  {
    var p, r := Snap(c, a), Label(c, a, minVal, maxVal, stepVal);
    assert 0.0 <= p <= a by { SnapRange(c, a); }
    assert r == p * stepVal + minVal by { LabelIsSnap(c, a, minVal, maxVal, stepVal); }
    OrderScaled(0.0, p, stepVal, minVal, minVal, r);
    OrderScaled(p, a, stepVal, minVal, r, maxVal);
  }

  /**
   * LabelNearest on the step scale, one comparison at a time: r is the value of the Snap
   * answer and v the value under the pointer.
   */
  lemma CloserThanGrid(c: real, a: real, minVal: real, stepVal: real, k: int, v: real, r: real)
    requires 0.0 <= c <= a && stepVal > 0.0 && 0 <= k <= a.Floor
    requires v == c * stepVal + minVal && r == Snap(c, a) * stepVal + minVal
    ensures Abs(r - v) <= Abs(GridPoint(minVal, stepVal, k) - v)
  {
    var p := Snap(c, a);
    assert Abs(p - c) <= Abs(k as real - c) by { SnapNearest(c, a, k); }
    CloserScaled(p, k as real, c, stepVal, minVal, r, GridPoint(minVal, stepVal, k), v);
  }

  lemma CloserThanMax(c: real, a: real, minVal: real, maxVal: real, stepVal: real, v: real, r: real)
    requires 0.0 <= c <= a && stepVal > 0.0 && maxVal == a * stepVal + minVal
    requires v == c * stepVal + minVal && r == Snap(c, a) * stepVal + minVal
    ensures Abs(r - v) <= Abs(maxVal - v)
  {
    var p := Snap(c, a);
    assert Abs(p - c) <= Abs(a - c) by { SnapNearest(c, a, 0); }
    CloserScaled(p, a, c, stepVal, minVal, r, maxVal, v);
  }

  lemma WithinHalfStep(c: real, a: real, minVal: real, stepVal: real, v: real, r: real)
    requires 0.0 <= c <= a && stepVal > 0.0
    requires v == c * stepVal + minVal && r == Snap(c, a) * stepVal + minVal
    ensures Abs(r - v) <= stepVal * 0.5
  {
    var p := Snap(c, a);
    assert Abs(p - c) <= 0.5 by { SnapWithinHalf(c, a); }
    HalfStepScaled(p, c, stepVal, minVal, r, v);
  }

  /** Grid points are ordered as their indices, and those up to floor(allStep) lie below max. */
  lemma GridOrder(minVal: real, stepVal: real, k1: int, k2: int)
    requires stepVal > 0.0 && k1 <= k2
    ensures GridPoint(minVal, stepVal, k1) <= GridPoint(minVal, stepVal, k2)
  {
    OrderScaled(k1 as real, k2 as real, stepVal, minVal, GridPoint(minVal, stepVal, k1), GridPoint(minVal, stepVal, k2));
  }

  lemma GridBelowMax(minVal: real, maxVal: real, stepVal: real, a: real, k: int)
    requires stepVal > 0.0 && maxVal == a * stepVal + minVal && k <= a.Floor
    ensures GridPoint(minVal, stepVal, k) <= maxVal
  {
    FloorBounds(a);
    OrderScaled(k as real, a, stepVal, minVal, GridPoint(minVal, stepVal, k), maxVal);
  }

  lemma LabelMonotoneAt(c1: real, c2: real, a: real, minVal: real, maxVal: real, stepVal: real)
    requires 0.0 <= c1 <= c2 <= a && stepVal > 0.0 && maxVal == a * stepVal + minVal
    ensures Label(c1, a, minVal, maxVal, stepVal) <= Label(c2, a, minVal, maxVal, stepVal)
  {
    FloorOrder(c1, c2);
    FloorOrder(c2, a);
    if c2.Floor < a.Floor {
      FloorOrder(c1 + 0.5, c2 + 0.5);
      GridOrder(minVal, stepVal, Round(c1), Round(c2));
    } else if c1.Floor < a.Floor {
      assert Round(c1) <= a.Floor by { FloorBounds(c1); FloorBounds(c1 + 0.5); }
      GridOrder(minVal, stepVal, Round(c1), a.Floor);
      GridBelowMax(minVal, maxVal, stepVal, a, a.Floor);
    } else {
      GridBelowMax(minVal, maxVal, stepVal, a, a.Floor);
    }
  }

  lemma LabelFixedAt(k: int, a: real, minVal: real, maxVal: real, stepVal: real)
    requires 0 <= k <= a.Floor && maxVal == a * stepVal + minVal
    ensures Label(k as real, a, minVal, maxVal, stepVal) == GridPoint(minVal, stepVal, k)
    ensures Label(a, a, minVal, maxVal, stepVal) == maxVal
  {
    SnapFixed(k, a);
    LabelIsSnap(k as real, a, minVal, maxVal, stepVal);
    LabelIsSnap(a, a, minVal, maxVal, stepVal);
  }

  // ---------------------------------------------------------------- LabelValue

  /** A pointer on the track is between 0 and allStep steps along it. */
  lemma StepOnTrack(curWidth: real, maxWidth: real, minVal: real, maxVal: real, stepVal: real)
    requires maxWidth > 0.0 && minVal < maxVal && stepVal > 0.0 && 0.0 <= curWidth <= maxWidth
    ensures 0.0 <= CurStep(curWidth, maxWidth, minVal, maxVal, stepVal) <= AllStep(minVal, maxVal, stepVal)
  {
    StepOrder(0.0, curWidth, maxWidth, maxVal - minVal, stepVal);
    StepOrder(curWidth, maxWidth, maxWidth, maxVal - minVal, stepVal);
    StepWhole(maxWidth, maxVal - minVal, stepVal);
  }

  /** max is allStep steps from min. */
  lemma MaxInSteps(minVal: real, maxVal: real, stepVal: real)
    requires stepVal > 0.0
    ensures maxVal == AllStep(minVal, maxVal, stepVal) * stepVal + minVal
  {
    DivCancel(maxVal - minVal, stepVal, AllStep(minVal, maxVal, stepVal));
  }

  /** The unquantised value is curStep steps from min. */
  lemma ExactInSteps(curWidth: real, maxWidth: real, minVal: real, maxVal: real, stepVal: real)
    requires maxWidth > 0.0 && minVal < maxVal && stepVal > 0.0
    ensures Exact(curWidth, maxWidth, minVal, maxVal) == CurStep(curWidth, maxWidth, minVal, maxVal, stepVal) * stepVal + minVal
  {
    StepScale(curWidth, maxWidth, maxVal - minVal, stepVal, CurStep(curWidth, maxWidth, minVal, maxVal, stepVal));
  }

  /**
   * A label value is either `max` or a grid point `min + k * step` with k between 0 and
   * floor((max - min) / step).
   */
  lemma {:induction false} LabelOnGrid(curWidth: real, maxWidth: real, minVal: real, maxVal: real, stepVal: real)
    requires maxWidth > 0.0 && minVal < maxVal && stepVal > 0.0 && 0.0 <= curWidth <= maxWidth
    ensures var r := LabelValue(curWidth, maxWidth, minVal, maxVal, stepVal);
      r == maxVal ||
      exists k: int :: 0 <= k <= AllStep(minVal, maxVal, stepVal).Floor && r == GridPoint(minVal, stepVal, k)
  {
    StepOnTrack(curWidth, maxWidth, minVal, maxVal, stepVal);
    MaxInSteps(minVal, maxVal, stepVal);
    LabelOnGridAt(CurStep(curWidth, maxWidth, minVal, maxVal, stepVal), AllStep(minVal, maxVal, stepVal), minVal, maxVal, stepVal);
  }

  /** A label value lies between min and max. */
  lemma {:induction false} LabelBounds(curWidth: real, maxWidth: real, minVal: real, maxVal: real, stepVal: real)
    requires maxWidth > 0.0 && minVal < maxVal && stepVal > 0.0 && 0.0 <= curWidth <= maxWidth
    ensures minVal <= LabelValue(curWidth, maxWidth, minVal, maxVal, stepVal) <= maxVal
  {
    StepOnTrack(curWidth, maxWidth, minVal, maxVal, stepVal);
    MaxInSteps(minVal, maxVal, stepVal);
    LabelBoundsAt(CurStep(curWidth, maxWidth, minVal, maxVal, stepVal), AllStep(minVal, maxVal, stepVal), minVal, maxVal, stepVal);
  }

  /** The left end of the track shows min and the right end shows max. */
  lemma {:induction false} LabelEndpoints(maxWidth: real, minVal: real, maxVal: real, stepVal: real)
    requires maxWidth > 0.0 && minVal < maxVal && stepVal > 0.0
    ensures LabelValue(0.0, maxWidth, minVal, maxVal, stepVal) == minVal
    ensures LabelValue(maxWidth, maxWidth, minVal, maxVal, stepVal) == maxVal
  {
    var a := AllStep(minVal, maxVal, stepVal);
    StepOnTrack(0.0, maxWidth, minVal, maxVal, stepVal);
    StepWhole(maxWidth, maxVal - minVal, stepVal);
    MaxInSteps(minVal, maxVal, stepVal);
    assert CurStep(0.0, maxWidth, minVal, maxVal, stepVal) == 0.0;
    LabelFixedAt(0, a, minVal, maxVal, stepVal);
  }

  /**
   * The label value is an admissible value nearest to the value under the pointer: no
   * grid point in the range, and not max, is closer. It is never more than half a step away.
   */
  lemma {:induction false} LabelNearest(curWidth: real, maxWidth: real, minVal: real, maxVal: real, stepVal: real, k: int)
    requires maxWidth > 0.0 && minVal < maxVal && stepVal > 0.0 && 0.0 <= curWidth <= maxWidth
    requires 0 <= k <= AllStep(minVal, maxVal, stepVal).Floor
    ensures var r := LabelValue(curWidth, maxWidth, minVal, maxVal, stepVal);
      var v := Exact(curWidth, maxWidth, minVal, maxVal);
      Abs(r - v) <= Abs(GridPoint(minVal, stepVal, k) - v) &&
      Abs(r - v) <= Abs(maxVal - v) &&
      Abs(r - v) <= stepVal * 0.5
  {
    StepOnTrack(curWidth, maxWidth, minVal, maxVal, stepVal);
    MaxInSteps(minVal, maxVal, stepVal);
    ExactInSteps(curWidth, maxWidth, minVal, maxVal, stepVal);
    var c := CurStep(curWidth, maxWidth, minVal, maxVal, stepVal);
    var a := AllStep(minVal, maxVal, stepVal);
    LabelIsSnap(c, a, minVal, maxVal, stepVal);
    var v, r := Exact(curWidth, maxWidth, minVal, maxVal), LabelValue(curWidth, maxWidth, minVal, maxVal, stepVal);
    CloserThanGrid(c, a, minVal, stepVal, k, v, r);
    CloserThanMax(c, a, minVal, maxVal, stepVal, v, r);
    WithinHalfStep(c, a, minVal, stepVal, v, r);
  }

  /** Dragging further right never shows a smaller value. */
  lemma {:induction false} LabelMonotone(w1: real, w2: real, maxWidth: real, minVal: real, maxVal: real, stepVal: real)
    requires maxWidth > 0.0 && minVal < maxVal && stepVal > 0.0 && 0.0 <= w1 <= w2 <= maxWidth
    ensures LabelValue(w1, maxWidth, minVal, maxVal, stepVal) <= LabelValue(w2, maxWidth, minVal, maxVal, stepVal)
  {
    StepOnTrack(w1, maxWidth, minVal, maxVal, stepVal);
    StepOnTrack(w2, maxWidth, minVal, maxVal, stepVal);
    StepOrder(w1, w2, maxWidth, maxVal - minVal, stepVal);
    MaxInSteps(minVal, maxVal, stepVal);
    LabelMonotoneAt(CurStep(w1, maxWidth, minVal, maxVal, stepVal), CurStep(w2, maxWidth, minVal, maxVal, stepVal),
      AllStep(minVal, maxVal, stepVal), minVal, maxVal, stepVal);
  }

  /** The pixel offset of the k-th grid point lies exactly k steps along the track. */
  lemma GridPointStep(maxWidth: real, minVal: real, maxVal: real, stepVal: real, k: int)
    requires maxWidth > 0.0 && minVal < maxVal && stepVal > 0.0
    ensures CurStep(PixelOf(GridPoint(minVal, stepVal, k), maxWidth, minVal, maxVal), maxWidth, minVal, maxVal, stepVal) == k as real
  {
    var g := GridPoint(minVal, stepVal, k);
    var w := PixelOf(g, maxWidth, minVal, maxVal);
    GridPixel(k as real, stepVal, minVal, maxVal - minVal, maxWidth, g, w);
    StepPixel(k as real, maxWidth, maxVal - minVal, stepVal, w);
  }

  /** The grid points 0 .. floor(allStep) lie in [min, max]. */
  lemma GridPointInRange(minVal: real, maxVal: real, stepVal: real, k: int)
    requires minVal < maxVal && stepVal > 0.0
    requires 0 <= k <= AllStep(minVal, maxVal, stepVal).Floor
    ensures minVal <= GridPoint(minVal, stepVal, k) <= maxVal
  {
    var a := AllStep(minVal, maxVal, stepVal);
    MaxInSteps(minVal, maxVal, stepVal);
    FloorBounds(a);
    OrderScaled(0.0, k as real, stepVal, minVal, minVal, GridPoint(minVal, stepVal, k));
    OrderScaled(k as real, a, stepVal, minVal, GridPoint(minVal, stepVal, k), maxVal);
  }

  /** The pixel offset of a value in [min, max] is on the track. */
  lemma PixelOnTrack(x: real, maxWidth: real, minVal: real, maxVal: real)
    requires maxWidth > 0.0 && minVal < maxVal && minVal <= x <= maxVal
    ensures 0.0 <= PixelOf(x, maxWidth, minVal, maxVal) <= maxWidth
  {
    PixelFraction(x - minVal, maxVal - minVal, maxWidth);
  }

  /**
   * Every admissible value has a position on the track that shows it: the pixel offset
   * of the k-th grid point shows that grid point, and the right end (the offset of max)
   * shows max.
   */
  lemma {:induction false} LabelRoundTrip(maxWidth: real, minVal: real, maxVal: real, stepVal: real, k: int)
    requires maxWidth > 0.0 && minVal < maxVal && stepVal > 0.0
    requires 0 <= k <= AllStep(minVal, maxVal, stepVal).Floor
    ensures var w := PixelOf(GridPoint(minVal, stepVal, k), maxWidth, minVal, maxVal);
      0.0 <= w <= maxWidth && LabelValue(w, maxWidth, minVal, maxVal, stepVal) == GridPoint(minVal, stepVal, k)
    ensures PixelOf(maxVal, maxWidth, minVal, maxVal) == maxWidth
  {
    var a := AllStep(minVal, maxVal, stepVal);
    GridPointStep(maxWidth, minVal, maxVal, stepVal, k);
    GridPointInRange(minVal, maxVal, stepVal, k);
    PixelOnTrack(GridPoint(minVal, stepVal, k), maxWidth, minVal, maxVal);
    assert Label(k as real, a, minVal, maxVal, stepVal) == GridPoint(minVal, stepVal, k) by {
      MaxInSteps(minVal, maxVal, stepVal);
      LabelFixedAt(k, a, minVal, maxVal, stepVal);
    }
    assert PixelOf(maxVal, maxWidth, minVal, maxVal) == (maxVal - minVal) / (maxVal - minVal) * maxWidth;
  }

  /** x is a value `_getLabelValue` can answer: the k-th grid point within range, or max. */
  predicate GridValue(x: real, k: int, minVal: real, maxVal: real, stepVal: real)
    requires stepVal > 0.0
  {
    (0 <= k <= AllStep(minVal, maxVal, stepVal).Floor && x == GridPoint(minVal, stepVal, k)) || x == maxVal
  }

  /** A value `_getLabelValue` can answer is what it answers at that value's pixel offset. */
  lemma GridValueRoundTrip(x: real, k: int, maxWidth: real, minVal: real, maxVal: real, stepVal: real)
    requires maxWidth > 0.0 && minVal < maxVal && stepVal > 0.0 && GridValue(x, k, minVal, maxVal, stepVal)
    ensures LabelValue(PixelOf(x, maxWidth, minVal, maxVal), maxWidth, minVal, maxVal, stepVal) == x
  {
    if x == maxVal {
      LabelRoundTrip(maxWidth, minVal, maxVal, stepVal, 0);
      LabelEndpoints(maxWidth, minVal, maxVal, stepVal);
    } else {
      LabelRoundTrip(maxWidth, minVal, maxVal, stepVal, k);
    }
  }
}
