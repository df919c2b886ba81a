/**
 * Reading an option value given as text: `parseFloat` on the parts of a dual value
 * ("20,80") and the conversion JavaScript applies when a single text value is compared
 * with a number.
 *
 * Leading white space is skipped, as `parseFloat` and `Number()` skip it. After it only
 * plain decimal text is read: an optional '-', at least one digit, and optionally a '.'
 * followed by at least one digit. Anything else reads as NaN, written None. The value
 * is taken the way the arithmetic helpers take it: the digits with the point deleted, as
 * one integer, over 10 to the number of digits after the point.
 */
module NumberParse {
  import opened Wrappers
  import opened DecimalText
  import opened DecimalMath

  /** The text after a leading '-'. */
  function Unsigned(s: string): string {
    if |s| > 0 && s[0] == '-' then s[1..] else s
  }

  /** Plain decimal text: digits, then optionally a point and more digits, after an optional '-'. */
  predicate Numeral(s: string) {
    var b := Unsigned(s);
    var i := IndexOf(b, '.');
    0 < i && AllDigits(b[..i]) && (i == |b| || (i + 1 < |b| && AllDigits(b[i + 1..])))
  }

  /** Space, tab, line feed and carriage return. */
  predicate IsSpace(ch: char) { ch == ' ' || ch == '\t' || ch == '\n' || ch == '\r' }

  predicate AllSpace(s: string) { forall k :: 0 <= k < |s| ==> IsSpace(s[k]) }

  /** The text from its first character that is not white space on. */
  function SkipSpace(s: string): string {
    if |s| > 0 && IsSpace(s[0]) then SkipSpace(s[1..]) else s
  }

  /** SkipSpace drops a prefix of white space and stops at the first other character. */
  lemma {:induction false} SkipSpaceMeaning(s: string)
    ensures var t := SkipSpace(s);
      |t| <= |s| && t == s[|s| - |t|..] && AllSpace(s[..|s| - |t|]) && (|t| > 0 ==> !IsSpace(t[0]))
  {
    if |s| > 0 && IsSpace(s[0]) {
      SkipSpaceMeaning(s[1..]);
      var t := SkipSpace(s);
      assert s[..|s| - |t|] == [s[0]] + s[1..][..|s[1..]| - |t|];
    }
  }

  /**
   * The number a text denotes after its leading white space, or None (NaN) when what
   * follows is not plain decimal text.
   */
  function ParseNumber(s: string): Option<real> {
    var t := SkipSpace(s);
    if Numeral(t) then Some(Shift(Mantissa(t) as real, FracDigits(t))) else None
  }

  /** Skipping leading white space skips all of it and nothing after it. */
  lemma {:induction false} SkipGap(gap: string, t: string)
    requires AllSpace(gap) && |t| > 0 && !IsSpace(t[0])
    ensures SkipSpace(gap + t) == t
  {
    if |gap| > 0 {
      assert (gap + t)[1..] == gap[1..] + t;
      SkipGap(gap[1..], t);
    } else {
      assert gap + t == t;
    }
  }

  /**
   * `Number(s)`, the conversion JavaScript applies when a text is compared with a number:
   * a blank text reads as 0, any other text as `ParseNumber` reads it. Trailing white
   * space, exponents, a '+', a point without digits on one side and hexadecimal text,
   * which `Number()` also reads, give None here.
   */
  function NumberOf(s: string): Option<real> {
    if SkipSpace(s) == "" then Some(0.0) else ParseNumber(s)
  }

  /** `parseFloat` reads a blank text as NaN, where `Number()` reads it as 0. */
  lemma BlankIsNotNumeral(s: string)
    requires SkipSpace(s) == ""
    ensures ParseNumber(s).None? && NumberOf(s) == Some(0.0)
  {
    assert !Numeral("") by { assert IndexOf("", '.') == 0; }
  }

  /** Where `parseFloat` reads a number, `Number()` reads the same one. */
  lemma NumberOfAgrees(s: string)
    requires ParseNumber(s).Some?
    ensures NumberOf(s) == ParseNumber(s)
  {
    if SkipSpace(s) == "" {
      BlankIsNotNumeral(s);
    }
  }

  /** White space in front of a text does not change the number it reads as. */
  lemma ParseAfterSpace(gap: string, t: string)
    requires AllSpace(gap) && |t| > 0 && !IsSpace(t[0])
    ensures ParseNumber(gap + t) == ParseNumber(t)
  {
    SkipGap(gap, t);
    SkipGap("", t);
    assert "" + t == t;
  }

  /** A text starting with a digit has no sign to drop. */
  lemma UnsignedText(d: Decimal, body: string)
    requires |body| > 0 && IsDigit(body[0])
    ensures Unsigned(Sign(d) + body) == body
  {
    if d.mantissa < 0 {
      assert (Sign(d) + body)[1..] == body;
    } else {
      assert Sign(d) + body == body;
    }
  }

  /** Digits alone are plain decimal text. */
  lemma {:induction false} WholeNumeral(d: Decimal, digits: string)
    requires |digits| > 0 && AllDigits(digits)
    ensures Numeral(Sign(d) + digits)
  {
    UnsignedText(d, digits);
    NoPointInNumeral(digits);
    IndexOfAt(digits, '.', |digits|);
    assert digits[..|digits|] == digits;
  }

  /** Digits, a point and more digits are plain decimal text. */
  lemma {:induction false} PointNumeral(d: Decimal, pre: string, post: string)
    requires |pre| > 0 && AllDigits(pre) && |post| > 0 && AllDigits(post)
    ensures Numeral(Sign(d) + (pre + "." + post))
  {
    var body := pre + "." + post;
    assert body[0] == pre[0];
    UnsignedText(d, body);
    NoPointInNumeral(pre);
    NoPointInNumeral(post);
    OnePoint(pre, post);
    assert body[..|pre|] == pre;
    assert body[|pre| + 1..] == post;
  }

  /** `toString` writes plain decimal text. */
  lemma {:induction false} TextIsNumeral(d: Decimal)
    ensures Numeral(Text(d))
  {
    var digits := TextDigits(d);
    var k := |digits| - d.scale;
    if d.scale == 0 {
      WholeNumeral(d, digits);
    } else {
      PointNumeral(d, digits[..k], digits[k..]);
    }
  }

  /** Reading back what `toString` writes gives the number written. */
  lemma {:induction false} ParseText(d: Decimal)
    ensures ParseNumber(Text(d)) == Some(Value(d))
  {
    TextChars(d);
    SkipGap("", Text(d));
    assert "" + Text(d) == Text(d);
    TextIsNumeral(d);
    TextMantissa(d);
    TextFracDigits(d);
  }
}
