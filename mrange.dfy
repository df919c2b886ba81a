/**
 * An MRange widget: the state its methods and drag handlers change in place.
 *
 * The DOM the widget writes to is modelled by the numbers it writes there: the labels
 * (`$label`, `$labelLow`, `$labelHigh`) hold the values they display, the handles and
 * the highlighted track hold their offsets and width in percent of the track, `input`
 * holds the value given to `$input`, and `active` is the handle carrying the `activate`
 * class. Triggered events are appended to `events`. While a drag is in progress,
 * `session` holds what `_onDragStart` hands to the move listener.
 */
module Range {
  import opened Wrappers
  import opened RangeConfig
  import opened ValueMapper
  import opened TrackLayout
  import opened DragRules
  import opened DragLog
  import opened Display

  class MRange {
    const isSingle: bool
    var option: Config
    var singleLabel: real
    var labelLow: real
    var labelHigh: real
    var input: Values
    var pointer: real
    var pointerLow: real
    var pointerHigh: real
    var trackLeft: real
    var trackWidth: real
    var active: Handle
    var session: Option<Session>
    var events: seq<Event>

    /** Everything the widget displays. */
    function Current(): View
      reads this
    {
      Display.View(singleLabel, labelLow, labelHigh, input, pointer, pointerLow, pointerHigh, trackLeft, trackWidth, active)
    }

    /**
     * A positive step no larger than the range; a consistent display; a well-formed event
     * log in which a drag is open exactly while a session is, and a session that fits the
     * display.
     */
    ghost predicate Valid()
      reads this
    {
      0.0 < option.step <= option.max - option.min &&
      Fits(Current(), option.min, option.max, isSingle) &&
      WellFormed(events) && (IsOpen(events) <==> session.Some?) &&
      (session.Some? ==> SessionFits(session.value, Current(), isSingle))
    }

    /** `getValue`: one value for a single widget, a low and a high value otherwise. */
    function GetValue(): (v: Values)
      reads this
      ensures v.One? <==> isSingle
    {
      Reading(Current(), isSingle)
    }

    /**
     * `init` on accepted options, over the page's markup: the widget starts idle, with an
     * empty event log, and shows the option values laid out by `setTrack`.
     */
    constructor Init(c: Config, markup: View)
      requires Accepts(c)
      ensures Valid()
      ensures option == c && isSingle == IsSingle(c.value) && session == None && events == []
      ensures Current() == LayoutView(markup, Initial(c).value, c.min, c.max)
    {
      AcceptsMeaning(c);
      InitialMode(c);
      isSingle := IsSingle(c.value);
      option := c;
      singleLabel, labelLow, labelHigh, input := markup.singleLabel, markup.labelLow, markup.labelHigh, markup.input;
      pointer, pointerLow, pointerHigh := markup.pointer, markup.pointerLow, markup.pointerHigh;
      trackLeft, trackWidth, active := markup.trackLeft, markup.trackWidth, markup.active;
      session := None;
      events := [];
      new;
      Layout(Initial(c).value);
      LayoutFits(markup, Initial(c).value, c.min, c.max);
    }

    /**
     * The constructor: the options merged over the defaults, and a widget only when they
     * are accepted, showing the option values laid out over the page's markup.
     */
    static method Create(options: Patch, markup: View) returns (r: Option<MRange>)
      ensures r.Some? <==> Accepts(Extend(Defaults, options))
      ensures r.Some? ==>
        fresh(r.value) && r.value.Valid() && r.value.option == Extend(Defaults, options) &&
        r.value.session == None && r.value.events == [] &&
        r.value.GetValue() == Initial(Extend(Defaults, options)).value
      ensures r.Some? ==>
        var c := Extend(Defaults, options);
        c.min < c.max && r.value.Current() == LayoutView(markup, Initial(c).value, c.min, c.max)
    {
      var c := Extend(Defaults, options);
      if Accepts(c) {
        var m := new MRange.Init(c, markup);
        AcceptsMeaning(c);
        LayoutReading(markup, Initial(c).value, c.min, c.max);
        InitialMode(c);
        r := Some(m);
      } else {
        r := None;
      }
    }

    /**
     * The layout part of `setTrack` for values in the widget's mode: labels, input,
     * handles and track, and smart selection of the active handle of two.
     */
    method Layout(values: Values)
      requires option.min < option.max && (values.One? <==> isSingle)
      modifies this
      ensures option == old(option) && session == old(session) && events == old(events)
      ensures Current() == LayoutView(old(Current()), values, option.min, option.max)
    {
      match values
      case One(x) => LayoutSingle(x);
      case Two(lo, hi) => LayoutDual(lo, hi);
    }

    /** One handle: the handle and the track at the value's percent, label and input showing it. */
    method LayoutSingle(x: real)
      requires option.min < option.max
      modifies this
      ensures option == old(option) && session == old(session) && events == old(events)
      ensures Current() == LayoutView(old(Current()), One(x), option.min, option.max)
    {
      var width := SingleTrack(x, option.min, option.max);
      pointer, active := width, Single;
      singleLabel := x;
      input := One(x);
      trackWidth := width;
    }

    /**
     * Two handles: the track and the low handle at the low value's percent, the high
     * handle the track width further, labels and input showing the values, and smart
     * selection of the active handle.
     */
    method LayoutDual(lo: real, hi: real)
      requires option.min < option.max
      modifies this
      ensures option == old(option) && session == old(session) && events == old(events)
      ensures Current() == LayoutView(old(Current()), Two(lo, hi), option.min, option.max)
    {
      var width := DualTrackWidth(lo, hi, option.min, option.max);
      var left := PointerLeft(lo, option.min, option.max);
      var right := width + left;
      trackLeft, pointerLow, pointerHigh := left, left, right;
      labelLow, labelHigh := lo, hi;
      input := Two(lo, hi);
      active := SmartSelect(left, right);
      trackWidth := width;
    }

    /**
     * `setTrack(option)`: the patch merged over the current options and laid out, when the
     * merged options are accepted and keep the widget's mode; otherwise nothing changes.
     */
    method SetTrack(patch: Patch)
      requires Valid() && session == None
      modifies this
      ensures Valid()
      ensures var c := Extend(old(option), patch);
        if Accepts(c) && IsSingle(c.value) == isSingle then
          option == c && session == None && events == old(events) &&
          Current() == LayoutView(old(Current()), Initial(c).value, c.min, c.max)
        else
          unchanged(this)
    {
      var c := Extend(option, patch);
      if Accepts(c) && IsSingle(c.value) == isSingle {
        AcceptsMeaning(c);
        InitialMode(c);
        LayoutFits(Current(), Initial(c).value, c.min, c.max);
        option := c;
        Layout(Initial(c).value);
      }
    }

    /**
     * `_onDragStart` on a handle of the widget's mode: a `dragstart` carrying the current
     * value, the pressed handle made active, and the offsets of both handles recorded.
     */
    method DragStart(handle: Handle, rect: Rect, lowRect: Rect, highRect: Rect)
      requires Valid() && session == None
      requires (handle == Single <==> isSingle) && rect.width > 0.0
      modifies this
      ensures Valid()
      ensures events == old(events) + [Event(Started, old(GetValue()))]
      ensures session == Some(Session(handle, rect, lowRect, highRect, old(pointerLow), old(pointerHigh)))
      ensures Current() == old(Current()).(active := handle) && option == old(option)
    {
      StartOpens(events, GetValue());
      events := events + [Event(Started, GetValue())];
      active := handle;
      session := Some(Session(handle, rect, lowRect, highRect, pointerLow, pointerHigh));
    }

    /**
     * `_onDragMove` with the pointer at `clientX`. Idle, there is no move listener and
     * nothing changes. Otherwise the display moves as `Move` says, and the `dragmove`
     * event carries the value from before the move.
     */
    method DragMove(clientX: real)
      requires Valid()
      modifies this
      ensures Valid()
      ensures old(session).None? ==> unchanged(this)
      ensures old(session).Some? ==>
        Current() == Move(old(Current()), old(session).value, option, clientX) &&
        session == old(session) && option == old(option) &&
        events == old(events) + [Event(Moved, old(GetValue()))]
    {
      if session.None? {
        return;
      }
      ghost var before := Current();
      var s := session.value;
      var moveBase := s.rect.left;
      var maxWidth := s.rect.width;
      var curWidth := Clamp(clientX - moveBase, maxWidth);
      var labelValue := LabelValue(curWidth, maxWidth, option.min, option.max, option.step);
      MoveKeepsOpen(events, GetValue());
      if isSingle {
        DragSingle(s, curWidth, labelValue);
      } else if s.handle == Low {
        DragLow(s, curWidth, labelValue);
      } else {
        DragHigh(s, curWidth, labelValue);
      }
      MoveFits(before, s, option, clientX, isSingle);
    }

    /**
     * The rest of `_onDragMove` for the handle of a single widget, `curWidth` pixels along
     * the track where the value `labelValue` was computed: the input set to the new value,
     * the `dragmove` event triggered with the value from before, then the track, the
     * handle and the label updated.
     */
    method DragSingle(s: Session, curWidth: real, labelValue: real)
      requires s.rect.width > 0.0 && s.handle == Single && isSingle
      modifies this
      ensures Current() == Place(old(Current()), s, curWidth, labelValue)
      ensures session == old(session) && option == old(option)
      ensures events == old(events) + [Event(Moved, old(GetValue()))]
    {
      var pointerLeft := Ratio(curWidth, s.rect.width);
      var width := pointerLeft;
      input := One(labelValue);
      events := events + [Event(Moved, GetValue())];
      trackWidth := width;
      pointer, singleLabel := pointerLeft, labelValue;
    }

    /**
     * The rest of `_onDragMove` for the low handle: pinned onto the high handle, with the
     * high label, once it reaches it; the track's left end moved with it; the input set
     * to the labels from before, the `dragmove` event triggered with them, then the
     * track, the handle and the label updated.
     */
    method DragLow(s: Session, curWidth: real, labelValue: real)
      requires s.rect.width > 0.0 && s.handle == Low && !isSingle
      modifies this
      ensures Current() == Place(old(Current()), s, curWidth, labelValue)
      ensures session == old(session) && option == old(option)
      ensures events == old(events) + [Event(Moved, old(GetValue()))]
    {
      var pointerLeft := Ratio(curWidth, s.rect.width);
      var p := PlaceLow(pointerLeft, s.highSnap, curWidth, s.rect.left, s.rect.width, s.highRect);
      var width := p.track;
      pointerLeft := p.left;
      var value := if p.pinned then labelHigh else labelValue;
      trackLeft := pointerLeft;
      input := Two(labelLow, labelHigh);
      events := events + [Event(Moved, GetValue())];
      trackWidth := width;
      pointerLow, labelLow := pointerLeft, value;
    }

    /**
     * The rest of `_onDragMove` for the high handle: pinned onto the low handle, with the
     * low label, once it reaches it; the input set to the labels from before, the
     * `dragmove` event triggered with them, then the track, the handle and the label
     * updated.
     */
    method DragHigh(s: Session, curWidth: real, labelValue: real)
      requires s.rect.width > 0.0 && s.handle == High && !isSingle
      modifies this
      ensures Current() == Place(old(Current()), s, curWidth, labelValue)
      ensures session == old(session) && option == old(option)
      ensures events == old(events) + [Event(Moved, old(GetValue()))]
    {
      var pointerLeft := Ratio(curWidth, s.rect.width);
      var p := PlaceHigh(pointerLeft, s.lowSnap, curWidth, s.rect.left, s.rect.width, s.lowRect);
      var width := p.track;
      pointerLeft := p.left;
      var value := if p.pinned then labelLow else labelValue;
      input := Two(labelLow, labelHigh);
      events := events + [Event(Moved, GetValue())];
      trackWidth := width;
      pointerHigh, labelHigh := pointerLeft, value;
    }

    /**
     * `_onDragEnd`: the listeners removed and a `dragend` carrying the current value.
     * Idle, there is no end listener and nothing changes.
     */
    method DragEnd()
      requires Valid()
      modifies this
      ensures Valid()
      ensures old(session).None? ==> unchanged(this)
      ensures old(session).Some? ==>
        session == None && events == old(events) + [Event(Ended, old(GetValue()))]
      ensures Current() == old(Current()) && option == old(option)
    {
      if session.Some? {
        EndCloses(events, GetValue());
        events := events + [Event(Ended, GetValue())];
        session := None;
      }
    }
  }
}
