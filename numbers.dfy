/** Numbers as the integrations read and write them: Python's `float(text)` on
    decimal text, `round(x, n)`, `str(x)` (the value written into the daily ledger) and
    `f"{x:.3f}"` (the value written into the fine-grained ledger), all over exact
    `real` values. */
module Numbers {
  import opened Wrappers
  import Text

  predicate IsDigit(c: char) {
    '0' <= c <= '9'
  }

  predicate AllDigits(s: string) {
    forall i :: 0 <= i < |s| ==> IsDigit(s[i])
  }

  function DigitChar(d: nat): (c: char)
    requires d < 10
    ensures IsDigit(c) && c as int - '0' as int == d
  {
    ('0' as int + d) as char
  }

  function DigitValue(c: char): nat
    requires IsDigit(c)
  {
    c as int - '0' as int
  }

  function Pow10(k: nat): (p: nat)
    ensures p >= 1
  {
    if k == 0 then 1 else 10 * Pow10(k - 1)
  }

  lemma {:induction false} Pow10Add(a: nat, b: nat)
    ensures Pow10(a + b) == Pow10(a) * Pow10(b)
    decreases b
  {
    if b > 0 { Pow10Add(a, b - 1); }
  }

  lemma DigitsConcat(a: string, b: string)
    ensures AllDigits(a + b) <==> AllDigits(a) && AllDigits(b)
  {
    if AllDigits(a + b) {
      forall k | 0 <= k < |a| ensures IsDigit(a[k]) { assert a[k] == (a + b)[k]; }
      forall k | 0 <= k < |b| ensures IsDigit(b[k]) { assert b[k] == (a + b)[|a| + k]; }
    }
  }

  /** The number a string of decimal digits spells, most significant digit first. */
  function DigitsValue(s: string): (v: nat)
    requires AllDigits(s)
    ensures v < Pow10(|s|)
    decreases |s|
  {
    if s == [] then 0 else DigitsValue(s[..|s| - 1]) * 10 + DigitValue(s[|s| - 1])
  }

  lemma DigitsValueSnoc(s: string, c: char)
    requires AllDigits(s) && IsDigit(c)
    ensures AllDigits(s + [c]) && DigitsValue(s + [c]) == DigitsValue(s) * 10 + DigitValue(c)
  {
    assert (s + [c])[..|s|] == s;
  }

  /** Python's `str(n)` for a non-negative integer: its digits, no leading zeros. */
  function NatToString(n: nat): (s: string)
    ensures AllDigits(s) && |s| >= 1
    decreases n
  {
    if n < 10 then [DigitChar(n)] else NatToString(n / 10) + [DigitChar(n % 10)]
  }

  lemma {:induction false} NatToStringValue(n: nat)
    ensures DigitsValue(NatToString(n)) == n
    decreases n
  {
    if n < 10 {
      assert NatToString(n)[..0] == [];
    } else {
      NatToStringValue(n / 10);
      DigitsValueSnoc(NatToString(n / 10), DigitChar(n % 10));
    }
  }

  /** Exactly `width` digits of `n`, zero-padded on the left: strftime's `%Y`, `%m`,
      `%d`, `%H`, `%M`, `%S` and the fraction of fixed-point text. */
  function Pad(n: nat, width: nat): (s: string)
    ensures |s| == width && AllDigits(s)
    decreases width
  {
    if width == 0 then [] else Pad(n / 10, width - 1) + [DigitChar(n % 10)]
  }

  lemma {:induction false} PadValue(n: nat, width: nat)
    requires n < Pow10(width)
    ensures DigitsValue(Pad(n, width)) == n
    decreases width
  {
    if width > 0 {
      assert n / 10 < Pow10(width - 1);
      PadValue(n / 10, width - 1);
      DigitsValueSnoc(Pad(n / 10, width - 1), DigitChar(n % 10));
    }
  }

  /** Zero-padded text is injective on the numbers that fit the width. */
  lemma PadInjective(a: nat, b: nat, width: nat)
    requires a < Pow10(width) && b < Pow10(width)
    requires Pad(a, width) == Pad(b, width)
    ensures a == b
  {
    PadValue(a, width);
    PadValue(b, width);
  }

  /** Zero-padded digit strings of the same width compare as the numbers they spell. */
  lemma {:induction false} PadLess(a: nat, b: nat, width: nat)
    requires a < Pow10(width) && b < Pow10(width)
    ensures Text.Less(Pad(a, width), Pad(b, width)) <==> a < b
    decreases width
  {
    if width > 0 {
      assert a / 10 < Pow10(width - 1) && b / 10 < Pow10(width - 1);
      PadLess(a / 10, b / 10, width - 1);
      Text.LessConcat(Pad(a / 10, width - 1), [DigitChar(a % 10)], Pad(b / 10, width - 1), [DigitChar(b % 10)]);
      if Pad(a / 10, width - 1) == Pad(b / 10, width - 1) {
        PadInjective(a / 10, b / 10, width - 1);
      }
    }
  }

  lemma {:induction false} Pow10Mono(a: nat, b: nat)
    requires a <= b
    ensures Pow10(a) <= Pow10(b)
    decreases b
  {
    if a < b { Pow10Mono(a, b - 1); }
  }

  /** `10^k` as a real. */
  function Scale(k: nat): (s: real)
    ensures s >= 1.0
  {
    RealPow10(k)
  }

  function RealPow10(k: nat): (s: real)
    ensures s >= 1.0
  {
    if k == 0 then 1.0 else 10.0 * RealPow10(k - 1)
  }

  lemma {:induction false} ScaleIsPow10(k: nat)
    ensures Scale(k) == Pow10(k) as real
  {
    if k > 0 { ScaleIsPow10(k - 1); }
  }

  lemma {:induction false} ScaleAdd(a: nat, b: nat)
    ensures Scale(a + b) == Scale(a) * Scale(b)
    decreases b
  {
    if b > 0 {
      ScaleAdd(a, b - 1);
      assert Scale(a + b) == 10.0 * Scale(a + b - 1);
      assert Scale(b) == 10.0 * Scale(b - 1);
    }
  }

  function Abs(n: int): nat {
    if n < 0 then -n else n
  }

  /** The digits of `n`, zero-padded on the left to at least `width` of them. */
  function PadAtLeast(n: nat, width: nat): (s: string)
    ensures AllDigits(s) && |s| >= width && DigitsValue(s) == n
  {
    var d := NatToString(n);
    var w := if |d| > width then |d| else width;
    NatToStringValue(n);
    Pow10Mono(|d|, w);
    PadValue(n, w);
    Pad(n, w)
  }

  /** The first position of `c` in `s`. */
  function FirstIndexOf(s: string, c: char): (i: nat)
    requires c in s
    ensures i < |s| && s[i] == c && c !in s[..i]
    decreases |s|
  {
    if s[0] == c then 0 else 1 + FirstIndexOf(s[1..], c)
  }

  lemma {:induction false} FirstIndexOfAfter(x: string, c: char, t: string)
    requires c !in x
    ensures c in x + [c] + t && FirstIndexOf(x + [c] + t, c) == |x|
    decreases |x|
  {
    if x != [] {
      assert (x + [c] + t)[1..] == x[1..] + [c] + t;
      FirstIndexOfAfter(x[1..], c, t);
    }
  }

  /** The digits-and-point part of a number: `123`, `123.`, `123.45` or `.45`. */
  function ParseUnsigned(b: string): Option<real> {
    if '.' in b then
      var i := FirstIndexOf(b, '.');
      var whole, frac := b[..i], b[i + 1..];
      if AllDigits(whole + frac) && |whole + frac| > 0 then
        Some(DigitsValue(whole + frac) as real / Scale(|frac|))
      else None
    else if AllDigits(b) && |b| > 0 then Some(DigitsValue(b) as real)
    else None
  }

  /** Python's `float(text)` on decimal text: surrounding whitespace is ignored, an
      optional sign, then digits with at most one decimal point. Anything else (the
      state strings `unknown`, `unavailable`, `none`, the empty string) is the
      `ValueError` that the callers turn into "no value". */
  function ParseFloat(text: string): Option<real> {
    ParseSigned(Text.Strip(text))
  }

  /** An optional sign, then the digits-and-point part. */
  function ParseSigned(s: string): Option<real> {
    if |s| > 0 && (s[0] == '-' || s[0] == '+') then
      match ParseUnsigned(s[1..])
      case Some(v) => Some(if s[0] == '-' then -v else v)
      case None => None
    else ParseUnsigned(s)
  }

  /** Text that starts with a letter other than a sign, digit or point and ends with a
      non-blank character is not a number. */
  lemma {:induction false} WordDoesNotParse(s: string)
    requires |s| > 0 && !Text.IsSpace(s[0]) && !Text.IsSpace(s[|s| - 1])
    requires !IsDigit(s[0]) && s[0] != '.' && s[0] != '-' && s[0] != '+'
    ensures ParseFloat(s) == None
  {
    Text.StripOfTrimmed(s);
    if '.' in s {
      var i := FirstIndexOf(s, '.');
      assert i > 0;
      assert (s[..i] + s[i + 1..])[0] == s[0];
      assert !AllDigits(s[..i] + s[i + 1..]);
    }
    assert ParseUnsigned(s) == None;
  }

  /** The states a sensor reports when it has no reading are not numbers. */
  lemma SentinelsDoNotParse()
    ensures ParseFloat("unknown") == None
    ensures ParseFloat("unavailable") == None
    ensures ParseFloat("none") == None
    ensures ParseFloat("") == None
  {
    WordDoesNotParse("unknown");
    WordDoesNotParse("unavailable");
    WordDoesNotParse("none");
  }

  /** Python's rounding of a real to an integer: the nearest one, and the even one of
      two equally near. */
  function RoundHalfEven(y: real): int {
    var f := y.Floor;
    var d := y - f as real;
    if d < 0.5 then f
    else if d > 0.5 then f + 1
    else if f % 2 == 0 then f
    else f + 1
  }

  lemma RoundHalfEvenNearest(y: real)
    ensures -0.5 <= RoundHalfEven(y) as real - y <= 0.5
    ensures RoundHalfEven(y) as real - y == 0.5 || y - RoundHalfEven(y) as real == 0.5
            ==> RoundHalfEven(y) % 2 == 0
  {
  }

  lemma RoundHalfEvenOfInt(n: int)
    ensures RoundHalfEven(n as real) == n
  {
  }

  lemma DivMul(a: real, p: real)
    requires p > 0.0
    ensures (a / p) * p == a
  {
  }

  lemma MulSub(a: real, b: real, p: real)
    ensures (a - b) * p == a * p - b * p
  {
  }

  lemma ScaleSplit(a: nat, k: nat)
    requires a <= k
    ensures Scale(k) == Scale(a) * Scale(k - a)
  {
    ScaleAdd(a, k - a);
    assert a + (k - a) == k;
  }

  /** `r` is a whole multiple of `10^-nd`. */
  predicate OnGrid(r: real, nd: nat) {
    (r * Scale(nd)).Floor as real == r * Scale(nd)
  }

  lemma GridOfInt(n: int, nd: nat)
    ensures OnGrid(n as real / Scale(nd), nd)
    ensures (n as real / Scale(nd) * Scale(nd)).Floor == n
  {
    DivMul(n as real, Scale(nd));
    assert (n as real).Floor == n;
  }

  /** Python's `round(x, nd)`: the multiple of `10^-nd` nearest to `x`, ties to even. */
  function Round(x: real, nd: nat): real {
    RoundHalfEven(x * Scale(nd)) as real / Scale(nd)
  }

  lemma RoundNearest(x: real, nd: nat)
    ensures OnGrid(Round(x, nd), nd)
    ensures -0.5 <= (Round(x, nd) - x) * Scale(nd) <= 0.5
  {
    var n := RoundHalfEven(x * Scale(nd));
    RoundHalfEvenNearest(x * Scale(nd));
    GridOfInt(n, nd);
    DivMul(n as real, Scale(nd));
    MulSub(n as real / Scale(nd), x, Scale(nd));
  }

  /** The rounded value scales back to the integer it was rounded to. */
  lemma RoundScaled(x: real, nd: nat)
    ensures RoundHalfEven(Round(x, nd) * Scale(nd)) == RoundHalfEven(x * Scale(nd))
  {
    var n := RoundHalfEven(x * Scale(nd));
    DivMul(n as real, Scale(nd));
    RoundHalfEvenOfInt(n);
  }

  /** Rounding a value that is already a multiple of `10^-nd` leaves it alone, so
      rounding twice is rounding once. */
  lemma RoundOnGrid(r: real, nd: nat)
    requires OnGrid(r, nd)
    ensures Round(r, nd) == r
  {
    var n := (r * Scale(nd)).Floor;
    RoundHalfEvenOfInt(n);
    DivMul(r, Scale(nd));
  }

  lemma RoundIdempotent(x: real, nd: nat)
    ensures Round(Round(x, nd), nd) == Round(x, nd)
  {
    RoundNearest(x, nd);
    RoundOnGrid(Round(x, nd), nd);
  }

  /** Characters that can appear in printed numbers. */
  predicate NumberText(s: string) {
    forall i :: 0 <= i < |s| ==> IsDigit(s[i]) || s[i] == '.' || s[i] == '-'
  }

  /** Printed numbers hold no whitespace ... */
  lemma NumberTextStrip(s: string)
    requires NumberText(s)
    ensures Text.Strip(s) == s
  {
    Text.StripNoSpace(s);
  }

  /** ... and no field separator of either ledger. */
  lemma NumberTextNoSeparator(s: string)
    requires NumberText(s)
    ensures ',' !in s && '|' !in s
  {
  }

  /** Unsigned decimal text `whole.frac`. */
  function Decimal(whole: string, frac: string): string {
    whole + "." + frac
  }

  lemma DecimalParse(whole: string, frac: string)
    requires AllDigits(whole) && AllDigits(frac) && |whole| > 0
    ensures NumberText(Decimal(whole, frac)) && IsDigit(Decimal(whole, frac)[0])
    ensures ParseUnsigned(Decimal(whole, frac))
            == Some(DigitsValue(whole + frac) as real / Scale(|frac|))
  {
    var s := whole + "." + frac;
    assert '.' !in whole by {
      forall k | 0 <= k < |whole| ensures whole[k] != '.' { assert IsDigit(whole[k]); }
    }
    FirstIndexOfAfter(whole, '.', frac);
    assert s[..|whole|] == whole && s[|whole| + 1..] == frac;
    assert NumberText(s) by {
      forall k | 0 <= k < |s| ensures IsDigit(s[k]) || s[k] == '.' || s[k] == '-' {
        if k < |whole| { assert s[k] == whole[k]; }
        else if k > |whole| { assert s[k] == frac[k - |whole| - 1]; }
      }
    }
    DigitsConcat(whole, frac);
    assert s[0] == whole[0];
  }

  /** A minus sign in front of unsigned text when `negative`. */
  function Signed(negative: bool, t: string): string {
    (if negative then "-" else "") + t
  }

  function ApplySign(negative: bool, m: int): int {
    if negative then -m else m
  }

  lemma NegRatio(m: int, p: real)
    requires p > 0.0
    ensures (-m) as real / p == -(m as real / p)
  {
  }

  /** A printed number is read as it stands. */
  lemma ParseNumberText(s: string)
    requires NumberText(s)
    ensures ParseFloat(s) == ParseSigned(s)
  {
    NumberTextStrip(s);
  }

  /** Signed text reads back as the unsigned value with the sign applied. */
  lemma SignedParse(negative: bool, t: string, m: int, k: nat)
    requires NumberText(t) && |t| > 0 && IsDigit(t[0])
    requires ParseUnsigned(t) == Some(m as real / Scale(k))
    ensures NumberText(Signed(negative, t))
    ensures ParseSigned(Signed(negative, t)) == Some(ApplySign(negative, m) as real / Scale(k))
  {
    var s := Signed(negative, t);
    if negative {
      assert s == "-" + t;
      assert NumberText(s) by {
        forall i | 0 <= i < |s| ensures IsDigit(s[i]) || s[i] == '.' || s[i] == '-' {
          if i > 0 { assert s[i] == t[i - 1]; }
        }
      }
      assert s[1..] == t;
      NegRatio(m, Scale(k));
    } else {
      assert s == t;
    }
  }

  /** Signed digits with a point before the last `places`. */
  function PointText(negative: bool, d: string, places: nat): string
    requires |d| > places
  {
    Signed(negative, Decimal(d[..|d| - places], d[|d| - places..]))
  }

  lemma PointTextParse(negative: bool, d: string, places: nat)
    requires AllDigits(d) && |d| > places
    ensures NumberText(PointText(negative, d, places))
    ensures |PointText(negative, d, places)| > places
    ensures ParseSigned(PointText(negative, d, places))
            == Some(ApplySign(negative, DigitsValue(d)) as real / Scale(places))
  {
    var whole, frac := d[..|d| - places], d[|d| - places..];
    assert whole + frac == d;
    DigitsConcat(whole, frac);
    DecimalParse(whole, frac);
    SignedParse(negative, Decimal(whole, frac), DigitsValue(d), places);
  }

  /** The integer `n` as decimal text with exactly `places` digits after the point. */
  function PlacesText(n: int, places: nat): (s: string)
  {
    PointText(n < 0, PadAtLeast(Abs(n), places + 1), places)
  }

  lemma PlacesTextParse(n: int, places: nat)
    ensures NumberText(PlacesText(n, places))
    ensures ParseFloat(PlacesText(n, places)) == Some(n as real / Scale(places))
    ensures |PlacesText(n, places)| > places
  {
    var d := PadAtLeast(Abs(n), places + 1);
    PointTextParse(n < 0, d, places);
    assert ApplySign(n < 0, DigitsValue(d)) == n;
    ParseNumberText(PlacesText(n, places));
  }

  /** The fraction digits Python's `str` prints: trailing zeros dropped, and a single
      `0` when nothing is left. */
  function FracDigits(frac: string): (s: string)
    ensures |s| >= 1
  {
    var t := Text.RStrip(frac, '0');
    if t == [] then "0" else t
  }

  lemma CancelTen(a: real, b: real)
    requires b > 0.0
    ensures (a * 10.0) / (b * 10.0) == a / b
  {
  }

  /** Dropping trailing zeros of the fraction does not change the value. */
  lemma {:induction false} StripZerosValue(whole: string, frac: string)
    requires AllDigits(whole + frac)
    ensures AllDigits(whole + Text.RStrip(frac, '0'))
    ensures DigitsValue(whole + Text.RStrip(frac, '0')) as real / Scale(|Text.RStrip(frac, '0')|)
            == DigitsValue(whole + frac) as real / Scale(|frac|)
    decreases |frac|
  {
    if frac != [] && frac[|frac| - 1] == '0' {
      var g := frac[..|frac| - 1];
      assert whole + frac == (whole + g) + ['0'];
      assert (whole + frac)[..|whole + g|] == whole + g;
      StripZerosValue(whole, g);
      DigitsValueSnoc(whole + g, '0');
      CancelTen(DigitsValue(whole + g) as real, Scale(|g|));
    }
  }

  lemma FracDigitsValue(whole: string, frac: string)
    requires AllDigits(whole + frac)
    ensures AllDigits(whole + FracDigits(frac))
    ensures DigitsValue(whole + FracDigits(frac)) as real / Scale(|FracDigits(frac)|)
            == DigitsValue(whole + frac) as real / Scale(|frac|)
  {
    StripZerosValue(whole, frac);
    if Text.RStrip(frac, '0') == [] {
      assert whole + Text.RStrip(frac, '0') == whole;
      assert AllDigits(whole + "0") by {
        forall k | 0 <= k < |whole| + 1 ensures IsDigit((whole + "0")[k]) {
          if k < |whole| { assert (whole + "0")[k] == (whole + frac)[k]; }
        }
      }
      DigitsValueSnoc(whole, '0');
      CancelTen(DigitsValue(whole) as real, 1.0);
    }
  }

  /** Decimal places kept by `Repr`: Python prints a float with as many digits as it
      needs; the model keeps twelve places, which covers every rounding setting up to
      twelve decimals exactly. */
  const ReprPlaces: nat := 12

  /** Signed digits with a point before the last `ReprPlaces`, trailing zeros of the
      fraction dropped. */
  function ReprText(negative: bool, d: string): string
    requires |d| > ReprPlaces
  {
    Signed(negative, Decimal(d[..|d| - ReprPlaces], FracDigits(d[|d| - ReprPlaces..])))
  }

  lemma FracDigitsParse(whole: string, frac: string)
    requires AllDigits(whole) && AllDigits(frac) && |whole| > 0
    ensures NumberText(Decimal(whole, FracDigits(frac)))
    ensures IsDigit(Decimal(whole, FracDigits(frac))[0])
    ensures ParseUnsigned(Decimal(whole, FracDigits(frac)))
            == Some(DigitsValue(whole + frac) as real / Scale(|frac|))
  {
    DigitsConcat(whole, frac);
    FracDigitsValue(whole, frac);
    DigitsConcat(whole, FracDigits(frac));
    DecimalParse(whole, FracDigits(frac));
  }

  lemma ReprTextParse(negative: bool, d: string)
    requires AllDigits(d) && |d| > ReprPlaces
    ensures NumberText(ReprText(negative, d))
    ensures ParseSigned(ReprText(negative, d))
            == Some(ApplySign(negative, DigitsValue(d)) as real / Scale(ReprPlaces))
  {
    var whole, frac := d[..|d| - ReprPlaces], d[|d| - ReprPlaces..];
    assert whole + frac == d;
    DigitsConcat(whole, frac);
    FracDigitsParse(whole, frac);
    SignedParse(negative, Decimal(whole, FracDigits(frac)), DigitsValue(d), ReprPlaces);
  }

  /** Python's `str(x)` / `f"{x}"` for a float, in positional notation: sign, whole
      part, a point, and the fraction without trailing zeros (at least one digit). */
  function Repr(x: real): string {
    ReprOfInt(RoundHalfEven(x * Scale(ReprPlaces)))
  }

  /** The text `Repr` prints for the value `n / 10^ReprPlaces`. */
  function ReprOfInt(n: int): string {
    ReprText(n < 0, PadAtLeast(Abs(n), ReprPlaces + 1))
  }

  /** Reading back what `Repr` printed gives `x` on the printing grid; the text is a
      plain number. */
  lemma ReprParse(x: real)
    ensures NumberText(Repr(x))
    ensures ParseFloat(Repr(x)) == Some(Round(x, ReprPlaces))
  {
    ReprOfIntParse(RoundHalfEven(x * Scale(ReprPlaces)));
    RoundUnfold(x, ReprPlaces);
  }

  lemma RoundUnfold(x: real, k: nat)
    ensures Round(x, k) == RoundHalfEven(x * Scale(k)) as real / Scale(k)
  {
  }

  lemma ReprOfIntParse(n: int)
    ensures NumberText(ReprOfInt(n))
    ensures ParseFloat(ReprOfInt(n)) == Some(n as real / Scale(ReprPlaces))
  {
    var d := PadAtLeast(Abs(n), ReprPlaces + 1);
    ReprTextParse(n < 0, d);
    assert ApplySign(n < 0, DigitsValue(d)) == n;
    ParseNumberText(ReprOfInt(n));
  }

  /** A value already on the grid of `nd <= ReprPlaces` decimals is printed exactly. */
  lemma ReprOnGrid(r: real, nd: nat)
    requires OnGrid(r, nd) && nd <= ReprPlaces
    ensures ParseFloat(Repr(r)) == Some(r)
  {
    GridCoarser(r, nd, ReprPlaces);
    RoundOnGrid(r, ReprPlaces);
    ReprParse(r);
  }

  /** A multiple of `10^-nd` is a multiple of `10^-k` for every `k >= nd`. */
  lemma GridCoarser(r: real, nd: nat, k: nat)
    requires OnGrid(r, nd) && nd <= k
    ensures OnGrid(r, k)
  {
    var m := (r * Scale(nd)).Floor;
    ScaleSplit(nd, k);
    ScaleIsPow10(k - nd);
    GridRefine(r, Scale(nd), Scale(k), m, Pow10(k - nd));
    IntOnGrid(r * Scale(k), m * Pow10(k - nd));
  }

  lemma IntOnGrid(y: real, g: int)
    requires y == g as real
    ensures y.Floor as real == y
  {
  }

  lemma GridRefine(r: real, p: real, q: real, m: int, k: nat)
    requires r * p == m as real && q == p * k as real
    ensures r * q == (m * k) as real
  {
  }

  lemma MulDiv(r: real, p: real)
    requires p > 0.0
    ensures (r * p) / p == r
  {
  }

  /** Printing the value read back prints the same text: a row rewritten unchanged. */
  lemma ReprStable(x: real)
    ensures Repr(Round(x, ReprPlaces)) == Repr(x)
  {
    RoundScaled(x, ReprPlaces);
  }

  /** Python's `f"{x:.3f}"` (for `places` = 3): rounded half-to-even, exactly
      `places` digits after the point; a negative value that rounds to zero prints
      without the sign Python keeps (`-0.000`). */
  function Fixed(x: real, places: nat): string {
    PlacesText(RoundHalfEven(x * Scale(places)), places)
  }

  /** Fixed-point text reads back as `x` rounded to `places` decimals, and holds no
      whitespace or separator. */
  lemma FixedParse(x: real, places: nat)
    ensures NumberText(Fixed(x, places))
    ensures ParseFloat(Fixed(x, places)) == Some(Round(x, places))
    ensures |Fixed(x, places)| > places
  {
    PlacesTextParse(RoundHalfEven(x * Scale(places)), places);
  }

  /** A value as a configuration form or the options store hands it over: nothing, a
      number, or text. */
  datatype Raw = Null | Num(x: real) | Str(s: string)

  /** Python's `float(v)`, `None` where it raises: `float(None)` is a type error, a
      number converts to itself, text is parsed. */
  function RawFloat(v: Raw): Option<real> {
    match v
    case Null => None
    case Num(x) => Some(x)
    case Str(s) => ParseFloat(s)
  }
}
