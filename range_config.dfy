/**
 * The options of an MRange widget, how the constructor merges them with the defaults,
 * decides between one handle and two, and accepts or rejects them.
 *
 * `min`, `max` and `step` are numbers. `value` is a number, or a text: a text with a ','
 * ("20,80") asks for two handles, and each of its first two comma-separated parts is read
 * with `parseFloat`. A comparison with NaN is false in JavaScript, so a check written as
 * "reject if value > max" lets NaN through; `AcceptsAsWritten` keeps that behaviour and
 * `Accepts` is the check the rest of the model relies on.
 */
module RangeConfig {
  import opened Wrappers
  import opened RealArith
  import opened DecimalText
  import opened DecimalMath
  import opened NumberParse

  /** An option `value`: a number, or a text. */
  datatype Setting = Num(x: real) | Str(s: string)

  /** The merged options `this.option`. */
  datatype Config = Config(min: real, max: real, step: real, value: Setting)

  /** The options passed by a caller: a missing (undefined) key is None. */
  datatype Patch = Patch(min: Option<real>, max: Option<real>, step: Option<real>, value: Option<Setting>)

  /** The numbers a widget shows: one value, or a low and a high value. */
  datatype Values = One(x: real) | Two(low: real, high: real)

  /** The defaults the constructor starts from: min 0, max 100, step 1, value 0. */
  const Defaults := Config(0.0, 100.0, 1.0, Num(0.0))

  /** A patch without any key. */
  const NoChange: Patch := Patch(None, None, None, None)

  function Or<T>(o: Option<T>, d: T): T {
    match o
    case Some(v) => v
    case None => d
  }

  /** `$.extend(c, p)`: every key present in p overrides the one in c. */
  function Extend(c: Config, p: Patch): Config {
    Config(Or(p.min, c.min), Or(p.max, c.max), Or(p.step, c.step), Or(p.value, c.value))
  }

  /** The keys of q, and those of p that q does not set. */
  function Merge(p: Patch, q: Patch): Patch {
    Patch(
      if q.min.Some? then q.min else p.min,
      if q.max.Some? then q.max else p.max,
      if q.step.Some? then q.step else p.step,
      if q.value.Some? then q.value else p.value)
  }

  /** Extending by an empty patch changes nothing. */
  lemma ExtendNoChange(c: Config)
    ensures Extend(c, NoChange) == c
  {
  }

  /** Extending twice with the same patch is extending once. */
  lemma ExtendIdempotent(c: Config, p: Patch)
    ensures Extend(Extend(c, p), p) == Extend(c, p)
  {
  }

  /** Extending by p and then by q is extending by q merged over p: later keys win. */
  lemma ExtendTwice(c: Config, p: Patch, q: Patch)
    ensures Extend(Extend(c, p), q) == Extend(c, Merge(p, q))
  {
  }

  /** A patch that sets every key decides the whole result. */
  lemma ExtendFull(c: Config, min: real, max: real, step: real, value: Setting)
    ensures Extend(c, Patch(Some(min), Some(max), Some(step), Some(value))) == Config(min, max, step, value)
  {
  }

  // ---------------------------------------------------------------- the mode

  /** One handle for a number, or for a text without ','; two handles for a text with one. */
  predicate IsSingle(v: Setting) {
    match v
    case Num(_) => true
    case Str(s) => IndexOf(s, ',') == |s|
  }

  lemma SingleMeaning(v: Setting)
    ensures IsSingle(v) <==> v.Num? || ',' !in v.s
  {
    if v.Str? && ',' in v.s {
      var i :| 0 <= i < |v.s| && v.s[i] == ',';
      assert IndexOf(v.s, ',') <= i;
    }
  }

  /** `value.split(',')[0]` */
  function LowText(s: string): string {
    s[..IndexOf(s, ',')]
  }

  /** `value.split(',')[1]`, for a text that has a ','. */
  function HighText(s: string): string
    requires ',' in s
  {
    SecondField(s, ',').value
  }

  /**
   * The single value as the comparisons `value > max` and `value < min` see it: itself,
   * or the text converted by `Number()` (None for NaN).
   */
  function SingleNumber(v: Setting): Option<real> {
    match v
    case Num(x) => Some(x)
    case Str(s) => NumberOf(s)
  }

  /** The numbers a config denotes, when they all read as numbers. */
  function Initial(c: Config): Option<Values> {
    match c.value
    case Num(x) => Some(One(x))
    case Str(s) =>
      if ',' !in s then
        (match ParseNumber(s) case Some(x) => Some(One(x)) case None => None)
      else
        match (ParseNumber(LowText(s)), ParseNumber(HighText(s)))
        case (Some(lo), Some(hi)) => Some(Two(lo, hi))
        case _ => None
  }

  /** "a,b" with white space after the ',': `split(',')` gives a, and b after the white space. */
  lemma {:induction false} SplitPair(a: string, gap: string, b: string)
    requires ',' !in a && ',' !in b && AllSpace(gap) && |b| > 0 && !IsSpace(b[0])
    ensures ',' in a + "," + gap + b
    ensures LowText(a + "," + gap + b) == a
    ensures HighText(a + "," + gap + b) == gap + b
  {
    var high := gap + b;
    assert forall k :: 0 <= k < |high| ==> high[k] != ',' by {
      forall k | 0 <= k < |high| ensures high[k] != ',' {
        if k >= |gap| { assert high[k] == b[k - |gap|]; }
      }
    }
    var s := a + "," + gap + b;
    assert s == a + [','] + high;
    OneSeparator(a, ',', high);
    assert s[|a|] == ',';
    assert s[..|a|] == a;
  }

  /** Two texts that read as x and y, written around a ',', read back as the pair. */
  lemma {:induction false} InitialPair(mn: real, mx: real, st: real, a: string, gap: string, b: string, x: real, y: real)
    requires ',' !in a && ',' !in b && AllSpace(gap) && |b| > 0 && !IsSpace(b[0])
    requires ParseNumber(a) == Some(x) && ParseNumber(b) == Some(y)
    ensures Initial(Config(mn, mx, st, Str(a + "," + gap + b))) == Some(Two(x, y))
  {
    SplitPair(a, gap, b);
    ParseAfterSpace(gap, b);
  }

  /** `toString` writes no ',' and does not start with white space. */
  lemma NoSeparator(d: Decimal)
    ensures ',' !in Text(d) && |Text(d)| > 0 && !IsSpace(Text(d)[0])
  {
    TextChars(d);
  }

  /**
   * A value written as `toString` writes it reads back as that number, and two written
   * around a ',', with white space after it if any, read back as the pair: the
   * constructor's `split(',')` and `parseFloat` undo the writing.
   */
  lemma {:induction false} InitialText(mn: real, mx: real, st: real, x: Decimal, gap: string, y: Decimal)
    requires AllSpace(gap)
    ensures Initial(Config(mn, mx, st, Str(Text(x)))) == Some(One(Value(x)))
    ensures Initial(Config(mn, mx, st, Str(Text(x) + "," + gap + Text(y)))) == Some(Two(Value(x), Value(y)))
  {
    NoSeparator(x);
    NoSeparator(y);
    ParseText(x);
    ParseText(y);
    InitialPair(mn, mx, st, Text(x), gap, Text(y), Value(x), Value(y));
  }

  /** Initial agrees with IsSingle on the number of values. */
  lemma InitialMode(c: Config)
    ensures Initial(c).Some? ==> (Initial(c).value.One? <==> IsSingle(c.value))
  {
    SingleMeaning(c.value);
  }

  // ---------------------------------------------------------------- the checks

  /** `a > b` in JavaScript, where a may be NaN. */
  predicate Above(a: Option<real>, b: real) { a.Some? && a.value > b }

  /** `a < b` in JavaScript, where a may be NaN. */
  predicate Below(a: Option<real>, b: real) { a.Some? && a.value < b }

  /**
   * The constructor's checks as written: reject when the step exceeds |max - min| or min
   * exceeds max; with one handle, when the value lies above max or below min; with two,
   * when the high part lies above max, the low part below min, or the low part above the
   * high part. Every comparison involving NaN is false.
   */
  predicate AcceptsAsWritten(c: Config) {
    if c.step > Abs(c.max - c.min) || c.min > c.max then false
    else if IsSingle(c.value) then
      var v := SingleNumber(c.value);
      !(Above(v, c.max) || Below(v, c.min))
    else
      var lo := ParseNumber(LowText(c.value.s));
      var hi := ParseNumber(HighText(c.value.s));
      !(Above(hi, c.max) || Below(lo, c.min) || (lo.Some? && hi.Some? && lo.value > hi.value))
  }

  /** Values that respect the bounds: min <= x <= max, or min <= low <= high <= max. */
  predicate InRange(v: Values, min: real, max: real) {
    match v
    case One(x) => min <= x <= max
    case Two(lo, hi) => min <= lo <= hi <= max
  }

  /**
   * The check the constructor evidently intends: the checks as written, a positive step,
   * and values that all read as numbers.
   */
  predicate Accepts(c: Config) {
    AcceptsAsWritten(c) && c.step > 0.0 && Initial(c).Some?
  }

  /**
   * An accepted config is exactly one with 0 < step <= max - min whose values read as
   * numbers and lie in order within [min, max].
   */
  lemma {:induction false} AcceptsMeaning(c: Config)
    ensures Accepts(c) <==>
      0.0 < c.step <= c.max - c.min && Initial(c).Some? && InRange(Initial(c).value, c.min, c.max)
  {
    SingleMeaning(c.value);
    if c.value.Str? && ParseNumber(c.value.s).Some? {
      NumberOfAgrees(c.value.s);
    }
  }

  /**
   * The checks as written accept a step of zero, and a negative one: `step > |max - min|`
   * is their only test of the step. `_getLabelValue` then divides by the step.
   */
  lemma ZeroStepAcceptedAsWritten()
    ensures AcceptsAsWritten(Config(0.0, 100.0, 0.0, Num(50.0)))
    ensures AcceptsAsWritten(Config(0.0, 100.0, -1.0, Num(50.0)))
    ensures !Accepts(Config(0.0, 100.0, 0.0, Num(50.0)))
  {
  }

  /**
   * A blank single value is compared as the 0 that `Number()` makes of it: the checks as
   * written reject "" on [10, 20] and accept it on [0, 100]. It denotes no value to show,
   * and the corrected checks reject it.
   */
  lemma BlankValueAsWritten()
    ensures !AcceptsAsWritten(Config(10.0, 20.0, 1.0, Str("")))
    ensures AcceptsAsWritten(Config(0.0, 100.0, 1.0, Str("  ")))
    ensures !Accepts(Config(0.0, 100.0, 1.0, Str("  ")))
  {
    assert IsSingle(Str("")) by { assert IndexOf("", ',') == 0; }
    BlankIsNotNumeral("");
    var b := "  ";
    assert IsSingle(Str(b)) by { IndexOfAt(b, ',', 2); }
    assert SkipSpace(b) == "" by {
      assert b[1..][1..] == "";
    }
    BlankIsNotNumeral(b);
  }

  /**
   * The checks as written accept "20,": its second part is empty, parseFloat reads NaN,
   * and every comparison with NaN is false. `setTrack` then leaves the high label empty
   * and, since `"" - "20"` is -20, puts the high handle 20 percent right of the low one.
   */
  lemma MalformedValueAcceptedAsWritten()
    ensures AcceptsAsWritten(Config(0.0, 100.0, 1.0, Str("20,")))
    ensures !Accepts(Config(0.0, 100.0, 1.0, Str("20,")))
  {
    var s := "20,";
    IndexOfAt(s, ',', 2);
    assert LowText(s) == "20";
    IndexOfAt("20", '.', 2);
    assert Numeral("20");
    assert SecondField("20", '.') == None;
    assert RemovePoint("20") == "20";
    assert DigitsValue("2") == 2;
    assert DigitsValue("20") == 20;
    assert Mantissa("20") == 20;
    assert ParseNumber("20") == Some(Shift(20.0, 0));
    assert Shift(20.0, 0) == 20.0;
    assert s[3..] == "";
    assert HighText(s) == "";
    assert ParseNumber("") == None;
  }
}
