/**
 * The decimal text of a JavaScript number and the string operations the arithmetic
 * helpers of MRange perform on it.
 *
 * A finite number whose `toString` has no exponent is written here as a `Decimal`:
 * its digits read as one integer (the mantissa) and the count of digits after the
 * point (the scale), so that the number is mantissa / 10^scale. `Text` renders it the
 * way `toString` does: an optional '-', the digits, and a '.' before the last `scale`
 * of them when there are any. The helpers take two things from that text: the count of
 * fraction digits, `split('.')[1].length` (a missing second field throws and is caught
 * as 0), and the point-free integer, `Number(text.replace('.', ''))`. The lemmas show
 * that on such a text these two give back the scale and the mantissa.
 *
 * `toString` writes no trailing zero after the point: only a `Canonical` Decimal is the
 * Decimal of a JavaScript number. The others (1.50 as Decimal(150, 2)) stand for no
 * `toString` text; they denote the same numbers as canonical ones, and everything proved
 * here holds for them too.
 */
module DecimalText {
  import opened Wrappers

  /** 10^n on integers. */
  function Pow10(n: nat): nat {
    if n == 0 then 1 else 10 * Pow10(n - 1)
  }

  /** Position of the first `c` in `s`, or |s| where JavaScript's indexOf answers -1. */
  function IndexOf(s: string, c: char): (i: nat)
    ensures i <= |s|
    ensures i < |s| ==> s[i] == c
    ensures forall j :: 0 <= j < i ==> s[j] != c
  {
    if |s| == 0 || s[0] == c then 0 else 1 + IndexOf(s[1..], c)
  }

  /**
   * `s.split(c)[1]`: the text between the first and the second `c`, or None where
   * JavaScript reads `undefined` because there is no `c` at all.
   */
  function SecondField(s: string, c: char): (f: Option<string>)
    ensures f.None? <==> c !in s
    ensures f.Some? ==> c !in f.value
    ensures f.Some? ==>
      var i := IndexOf(s, c);
      var j := i + 1 + |f.value|;
      j <= |s| && f.value == s[i + 1..j] && (j == |s| || s[j] == c)
  {
    var i := IndexOf(s, c);
    if i == |s| then None
    else
      var rest := s[i + 1..];
      Some(rest[..IndexOf(rest, c)])
  }

  /** `s.replace('.', '')`: the first '.' deleted, if there is one. */
  function RemovePoint(s: string): (t: string)
    ensures '.' !in s ==> t == s
  {
    var i := IndexOf(s, '.');
    if i < |s| then s[..i] + s[i + 1..] else s
  }

  predicate IsDigit(ch: char) { '0' <= ch <= '9' }

  predicate AllDigits(s: string) { forall k :: 0 <= k < |s| ==> IsDigit(s[k]) }

  /** The digit a character stands for (meaningful for '0' to '9' only). */
  function DigitValue(ch: char): int { ch as int - '0' as int }

  /** The integer a string of digits denotes, read from the left. */
  function DigitsValue(d: string): int {
    if d == [] then 0 else 10 * DigitsValue(d[..|d| - 1]) + DigitValue(d[|d| - 1])
  }

  function DigitChar(v: nat): (ch: char)
    requires v < 10
    ensures IsDigit(ch) && DigitValue(ch) == v
  {
    ('0' as int + v) as char
  }

  /** The decimal digits of n, without leading zeros ("0" for zero). */
  function NatDigits(n: nat): (s: string)
    ensures |s| > 0 && AllDigits(s)
    decreases n
  {
    if n < 10 then [DigitChar(n)] else NatDigits(n / 10) + [DigitChar(n % 10)]
  }

  /** k zero digits. */
  function Zeros(k: nat): (s: string)
    ensures |s| == k && AllDigits(s)
  {
    if k == 0 then [] else Zeros(k - 1) + ['0']
  }

  /** The digits of n, left-padded with '0' to at least `width` characters. */
  function Padded(n: nat, width: nat): (s: string)
    ensures |s| >= width && |s| > 0 && AllDigits(s)
  {
    var d := NatDigits(n);
    if |d| >= width then d else Zeros(width - |d|) + d
  }

  /** One more digit on the right: ten times the old value plus the digit. */
  lemma DigitsSnoc(a: string, ch: char)
    ensures DigitsValue(a + [ch]) == 10 * DigitsValue(a) + DigitValue(ch)
  {
    assert (a + [ch])[..|a|] == a;
  }

  /** Writing n in decimal and reading it back gives n. */
  lemma {:induction false} NatDigitsValue(n: nat)
    ensures DigitsValue(NatDigits(n)) == n
    decreases n
  {
    if n < 10 {
      assert NatDigits(n) == [] + [DigitChar(n)];
      DigitsSnoc([], DigitChar(n));
    } else {
      NatDigitsValue(n / 10);
      DigitsSnoc(NatDigits(n / 10), DigitChar(n % 10));
    }
  }

  /** Zeros read as zero. */
  lemma {:induction false} ZerosValue(k: nat)
    ensures DigitsValue(Zeros(k)) == 0
  {
    if k > 0 {
      ZerosValue(k - 1);
      DigitsSnoc(Zeros(k - 1), '0');
    }
  }

  /** The arithmetic step of DigitsAppend, over plain integers. */
  lemma AppendStep(v: int, x: int, p: int, y: int, last: int, bigV: int, bigP: int, bigY: int)
    requires bigV == 10 * v + last && v == x * p + y && bigP == 10 * p && bigY == 10 * y + last
    ensures bigV == x * bigP + bigY
  {
  }

  /** Appending digits shifts the digits before them left by their count. */
  lemma {:induction false} DigitsAppend(a: string, b: string)
    ensures DigitsValue(a + b) == DigitsValue(a) * Pow10(|b|) + DigitsValue(b)
  {
    if b == [] {
      assert a + b == a;
    } else {
      assert a + b == (a + b[..|b| - 1]) + [b[|b| - 1]];
      assert b == b[..|b| - 1] + [b[|b| - 1]];
      DigitsSnoc(a + b[..|b| - 1], b[|b| - 1]);
      DigitsSnoc(b[..|b| - 1], b[|b| - 1]);
      DigitsAppend(a, b[..|b| - 1]);
      AppendStep(DigitsValue(a + b[..|b| - 1]), DigitsValue(a), Pow10(|b| - 1), DigitsValue(b[..|b| - 1]),
                 DigitValue(b[|b| - 1]), DigitsValue(a + b), Pow10(|b|), DigitsValue(b));
    }
  }

  /** Leading zeros do not change the value. */
  lemma {:induction false} PaddedValue(n: nat, width: nat)
    ensures DigitsValue(Padded(n, width)) == n
  {
    NatDigitsValue(n);
    if |NatDigits(n)| < width {
      DigitsAppend(Zeros(width - |NatDigits(n)|), NatDigits(n));
      ZerosValue(width - |NatDigits(n)|);
    }
  }

  /** The number mantissa / 10^scale, written with `scale` digits after its point. */
  datatype Decimal = Decimal(mantissa: int, scale: nat)

  /** A Decimal as `toString` writes it: no trailing zero after the point. */
  predicate Canonical(d: Decimal) {
    d.scale == 0 || d.mantissa % 10 != 0
  }

  function AbsInt(x: int): nat { if x < 0 then -x else x }

  /** The digits of the text: |mantissa|, with at least one digit before the point. */
  function TextDigits(d: Decimal): (s: string)
    ensures |s| > d.scale && AllDigits(s)
  {
    Padded(AbsInt(d.mantissa), d.scale + 1)
  }

  /** The '-' of a negative number. */
  function Sign(d: Decimal): string { if d.mantissa < 0 then "-" else "" }

  /** `num.toString()` */
  function Text(d: Decimal): string {
    var digits := TextDigits(d);
    var k := |digits| - d.scale;
    Sign(d) + (if d.scale == 0 then digits else digits[..k] + "." + digits[k..])
  }

  /** `s.split('.')[1].length`, or 0 where the source catches the missing field. */
  function FracDigits(s: string): nat {
    match SecondField(s, '.')
    case None => 0
    case Some(f) => |f|
  }

  /** `Number(t)` for a text made of an optional '-' and digits. */
  function IntegerValue(t: string): int {
    if |t| > 0 && t[0] == '-' then 0 - DigitsValue(t[1..]) else DigitsValue(t)
  }

  /** `Number(s.replace('.', ''))` */
  function Mantissa(s: string): int { IntegerValue(RemovePoint(s)) }

  /** IndexOf answers the first position holding `c`. */
  lemma IndexOfAt(s: string, c: char, i: nat)
    requires i <= |s| && (i < |s| ==> s[i] == c) && forall j :: 0 <= j < i ==> s[j] != c
    ensures IndexOf(s, c) == i
  {
  }

  /** Without fraction digits the text is the sign and the digits, with no point. */
  lemma {:induction false} TextWhole(d: Decimal)
    requires d.scale == 0
    ensures Text(d) == Sign(d) + TextDigits(d)
    ensures '.' !in Text(d)
  {
    var t, sg, digits := Text(d), Sign(d), TextDigits(d);
    forall j | 0 <= j < |t| ensures t[j] != '.' {
      if j >= |sg| { assert t[j] == digits[j - |sg|]; }
    }
  }

  /**
   * A text with a single separator `c`: it is found right after `pre`, and
   * `split(c)[1]` is all of `post`.
   */
  lemma {:induction false} OneSeparator(pre: string, c: char, post: string)
    requires c !in pre && c !in post
    ensures IndexOf(pre + [c] + post, c) == |pre|
    ensures SecondField(pre + [c] + post, c) == Some(post)
  {
    var t := pre + [c] + post;
    IndexOfAt(t, c, |pre|);
    assert t[|pre| + 1..] == post;
    IndexOfAt(post, c, |post|);
    assert post[..|post|] == post;
  }

  /** A text with a single point: where the source finds it, and what it splits into. */
  lemma {:induction false} OnePoint(pre: string, post: string)
    requires '.' !in pre && '.' !in post
    ensures IndexOf(pre + "." + post, '.') == |pre|
    ensures RemovePoint(pre + "." + post) == pre + post
    ensures SecondField(pre + "." + post, '.') == Some(post)
  {
    var t := pre + "." + post;
    OneSeparator(pre, '.', post);
    assert t[..|pre|] == pre;
    assert t[|pre| + 1..] == post;
  }

  /** Signs and digits are never a point. */
  lemma NoPointInNumeral(s: string)
    requires forall k :: 0 <= k < |s| ==> s[k] == '-' || IsDigit(s[k])
    ensures '.' !in s
  {
  }

  /** With fraction digits the point sits before the last `scale` digits. */
  lemma {:induction false} TextPoint(d: Decimal)
    requires d.scale > 0
    ensures RemovePoint(Text(d)) == Sign(d) + TextDigits(d)
    ensures SecondField(Text(d), '.') == Some(TextDigits(d)[|TextDigits(d)| - d.scale..])
  {
    var digits := TextDigits(d);
    var k := |digits| - d.scale;
    assert Text(d) == (Sign(d) + digits[..k]) + "." + digits[k..];
    NoPointInNumeral(Sign(d) + digits[..k]);
    NoPointInNumeral(digits[k..]);
    OnePoint(Sign(d) + digits[..k], digits[k..]);
    Reassemble(Sign(d), digits, k);
  }

  lemma Reassemble(a: string, s: string, k: nat)
    requires k <= |s|
    ensures (a + s[..k]) + s[k..] == a + s
  {
    assert s[..k] + s[k..] == s;
  }

  /**
   * `toString` writes only a sign, digits and a point, and starts with the sign or a
   * digit: never a ',' or white space.
   */
  lemma {:induction false} TextChars(d: Decimal)
    ensures |Text(d)| > 0 && (Text(d)[0] == '-' || IsDigit(Text(d)[0]))
    ensures forall k :: 0 <= k < |Text(d)| ==> Text(d)[k] == '-' || Text(d)[k] == '.' || IsDigit(Text(d)[k])
  {
    var t, sg, digits := Text(d), Sign(d), TextDigits(d);
    var k := |digits| - d.scale;
    var body := if d.scale == 0 then digits else digits[..k] + "." + digits[k..];
    assert t == sg + body;
    assert body[0] == digits[0];
    forall j | 0 <= j < |t| ensures t[j] == '-' || t[j] == '.' || IsDigit(t[j]) {
      if j >= |sg| {
        var b := j - |sg|;
        assert t[j] == body[b];
        if d.scale > 0 && b > k {
          assert body[b] == digits[b - 1];
        }
      }
    }
  }

  /** Counting the digits after the point of `toString` gives the scale. */
  lemma {:induction false} TextFracDigits(d: Decimal)
    ensures FracDigits(Text(d)) == d.scale
  {
    if d.scale == 0 {
      TextWhole(d);
    } else {
      TextPoint(d);
    }
  }

  /** The sign followed by the digits reads back as the mantissa. */
  lemma {:induction false} SignedValue(d: Decimal)
    ensures IntegerValue(Sign(d) + TextDigits(d)) == d.mantissa
  {
    var digits := TextDigits(d);
    PaddedValue(AbsInt(d.mantissa), d.scale + 1);
    if d.mantissa < 0 {
      assert (Sign(d) + digits)[1..] == digits;
    } else {
      assert Sign(d) + digits == digits;
      assert digits[0] != '-';
    }
  }

  /** Deleting the point of `toString` and reading the rest as a number gives the mantissa. */
  lemma {:induction false} TextMantissa(d: Decimal)
    ensures Mantissa(Text(d)) == d.mantissa
  {
    if d.scale == 0 {
      TextWhole(d);
    } else {
      TextPoint(d);
    }
    SignedValue(d);
  }

  /** The fraction-digit count the helpers compute for a number. */
  function FractionDigits(d: Decimal): (t: nat)
    ensures t == d.scale
  {
    TextFracDigits(d);
    FracDigits(Text(d))
  }

  /** The integer the helpers obtain from a number by deleting its point. */
  function PointFree(d: Decimal): (r: int)
    ensures r == d.mantissa
  {
    TextMantissa(d);
    Mantissa(Text(d))
  }
}
