/** Digit-buffer formatting (backend/internal/prediction/trend.go and
    backend/internal/calculator/gaming.go, `itoa`; trend.go, `fmtFloat`). */
module Formatting {
  import opened Wrappers

  const MAX_INT64 := 0x7fff_ffff_ffff_ffff
  const MIN_INT64 := -0x8000_0000_0000_0000

  /** Two's-complement negation: the smallest integer is its own negative. */
  function Negate64(n: int): int { if n == MIN_INT64 then MIN_INT64 else -n }

  /** Two's-complement increment. */
  function Increment64(n: int): int { if n == MAX_INT64 then MIN_INT64 else n + 1 }

  function DigitChar(d: int): (c: char)
    requires 0 <= d < 10
    ensures c as int == '0' as int + d
  {
    "0123456789"[d]
  }

  function DigitValue(c: char): (d: Option<nat>)
    ensures d.Some? ==> d.value < 10 && DigitChar(d.value) == c
  {
    if '0' <= c <= '9' then Some(c as int - '0' as int) else None
  }

  /** Decimal digits, most significant first, no leading zero. */
  function Digits(n: nat): (s: string)
    ensures |s| > 0
  {
    if n < 10 then [DigitChar(n)] else Digits(n / 10) + [DigitChar(n % 10)]
  }

  /** What `itoa` prints; the smallest integer prints as a bare sign. */
  function Decimal(n: int): string {
    if n == MIN_INT64 then "-"
    else if n < 0 then "-" + Digits(-n)
    else Digits(n)
  }

  function ParseDigits(s: string): (r: Option<int>)
    ensures r.Some? ==> r.value >= 0
  {
    if |s| == 0 then None
    else
      var last := DigitValue(s[|s| - 1]);
      if |s| == 1 then (if last.Some? then Some(last.value) else None)
      else
        var front := ParseDigits(s[..|s| - 1]);
        if front.Some? && last.Some? then Some(front.value * 10 + last.value) else None
  }

  function ParseInt(s: string): Option<int> {
    if |s| > 0 && s[0] == '-' then
      var n := ParseDigits(s[1..]);
      if n.Some? then Some(-n.value) else None
    else
      ParseDigits(s)
  }

  lemma {:induction false} ParseOfDigits(n: nat)
    ensures ParseDigits(Digits(n)) == Some(n)
    ensures Digits(n)[0] != '-'
  {
    if n >= 10 {
      ParseOfDigits(n / 10);
      assert Digits(n)[..|Digits(n)| - 1] == Digits(n / 10);
    }
  }

  /** Parsing what `itoa` prints gives the number back, except for the one
      64-bit integer whose negation overflows. */
  lemma DecimalRoundTrip(n: int)
    requires MIN_INT64 <= n <= MAX_INT64
    ensures ParseInt(Decimal(n)) == Some(n) <==> n != MIN_INT64
  {
    if n != MIN_INT64 {
      if n < 0 {
        ParseOfDigits(-n);
        assert Decimal(n)[1..] == Digits(-n);
      } else {
        ParseOfDigits(n);
      }
    }
  }

  function Pow10(k: nat): nat { if k == 0 then 1 else 10 * Pow10(k - 1) }

  lemma {:induction false} DigitsFit(n: nat, k: nat)
    requires 1 <= k && n < Pow10(k)
    ensures |Digits(n)| <= k
  {
    if n >= 10 {
      assert k >= 2;
      DigitsFit(n / 10, k - 1);
    }
  }

  lemma Pow10Of19()
    ensures Pow10(19) == 10_000_000_000_000_000_000
  {
    assert Pow10(5) == 100_000;
    assert Pow10(10) == 10_000_000_000;
    assert Pow10(15) == 1_000_000_000_000_000;
  }

  /** The digits still to be written; none once the number is not positive. */
  function Remaining(n: int): string { if n > 0 then Digits(n) else "" }

  lemma RemainingFits(n: int)
    requires n <= MAX_INT64
    ensures |Remaining(n)| <= 19
  {
    if n > 0 {
      Pow10Of19();
      DigitsFit(n, 19);
    }
  }

  lemma RemainingStep(n: int)
    requires n > 0
    ensures Remaining(n) == Remaining(n / 10) + [DigitChar(n % 10)]
  {}

  /** `itoa`: fills a 20-byte buffer from the right and never leaves it. */
  method Itoa(n0: int) returns (s: string)
    requires MIN_INT64 <= n0 <= MAX_INT64
    ensures s == Decimal(n0)
  {
    hide Remaining, Digits, DigitChar, Decimal;
    DecimalOfMagnitude(n0);
    if n0 == 0 {
      return "0";
    }
    var n := n0;
    var neg := n < 0;
    if neg {
      n := Negate64(n);
    }
    ghost var magnitude := n;
    var buf := new char[20];
    var i := buf.Length;
    RemainingFits(magnitude);
    while n > 0
      invariant 0 <= i <= 20 && |Remaining(magnitude)| <= 19
      invariant Remaining(n) + buf[i..] == Remaining(magnitude)
    {
      RemainingStep(n);
      assert |Remaining(n) + buf[i..]| == |Remaining(n)| + (20 - i);
      ghost var written := buf[i..];
      i := i - 1;
      buf[i] := DigitChar(n % 10);
      assert buf[i..] == [DigitChar(n % 10)] + written;
      assert Remaining(n / 10) + buf[i..] == Remaining(n) + written;
      n := n / 10;
    }
    RemainingEnds(n);
    assert buf[i..] == Remaining(magnitude);
    if neg {
      assert |buf[i..]| == 20 - i;
      ghost var written := buf[i..];
      i := i - 1;
      buf[i] := '-';
      assert buf[i..] == "-" + written;
    }
    s := buf[i..];
  }

  lemma RemainingEnds(n: int)
    requires n <= 0
    ensures Remaining(n) == ""
  {}

  lemma DecimalOfMagnitude(n: int)
    requires MIN_INT64 <= n <= MAX_INT64
    ensures n == 0 ==> Decimal(n) == "0"
    ensures n > 0 ==> Decimal(n) == Remaining(n)
    ensures n < 0 ==> Decimal(n) == "-" + Remaining(Negate64(n))
  {}

  // ---------- two decimals ----------

  function Magnitude(f: real): real { if f < 0.0 then -f else f }

  /** The number of hundredths nearest to |f|, halves rounding up. */
  function Hundredths(f: real): (h: nat) { (Magnitude(f) * 100.0 + 0.5).Floor }

  function TwoDigits(n: nat): (s: string)
    requires n < 100
    ensures |s| == 2
  {
    [DigitChar(n / 10), DigitChar(n % 10)]
  }

  /** What `fmtFloat` prints, without its separate carry: the nearest number of
      hundredths, unless that no longer fits a 64-bit whole part. */
  function FixedPoint(f: real): string {
    var h := Hundredths(f);
    (if f < 0.0 then "-" else "") + Decimal(if h / 100 > MAX_INT64 then MIN_INT64 else h / 100)
      + "." + TwoDigits(h % 100)
  }

  function Signed(negative: bool, v: real): real { if negative then -v else v }

  function ParseFixed(s: string): Option<real> {
    if |s| < 4 || s[|s| - 3] != '.' then None
    else
      var sign := s[0] == '-';
      var whole := ParseDigits(if sign then s[1..|s| - 3] else s[..|s| - 3]);
      var tens, units := DigitValue(s[|s| - 2]), DigitValue(s[|s| - 1]);
      if whole.None? || tens.None? || units.None? then None
      else
        var v := whole.value as real + (tens.value * 10 + units.value) as real / 100.0;
        Some(Signed(sign, v))
  }

  /** The whole/fraction split with carry used by `fmtFloat` counts hundredths. */
  lemma SplitCountsHundredths(g: real)
    requires g >= 0.0
    ensures var whole := g.Floor;
            var frac := ((g - whole as real) * 100.0 + 0.5).Floor;
            && 0 <= frac <= 100
            && (g * 100.0 + 0.5).Floor == whole * 100 + frac
  {
    var whole := g.Floor;
    var part := (g - whole as real) * 100.0 + 0.5;
    assert g * 100.0 + 0.5 == (whole * 100) as real + part;
  }

  /** `fmtFloat`; the argument is below 2^63 in magnitude, where converting a
      float to an integer is defined. */
  method FmtFloat(f0: real) returns (s: string)
    requires Magnitude(f0) < 9223372036854775808.0
    ensures s == FixedPoint(f0)
  {
    hide Decimal, TwoDigits;
    var f := f0;
    var neg := f < 0.0;
    if neg {
      f := -f;
    }
    SplitCountsHundredths(f);
    var whole := f.Floor;
    var frac := ((f - whole as real) * 100.0 + 0.5).Floor;
    ghost var h := whole * 100 + frac;
    assert h == Hundredths(f0);
    if frac >= 100 {
      whole := Increment64(whole);
      frac := 0;
    }
    assert frac == h % 100 && whole == if h / 100 > MAX_INT64 then MIN_INT64 else h / 100;
    var digits := Itoa(whole);
    var out := digits + ".";
    if frac < 10 {
      out := out + "0";
    }
    digits := Itoa(frac);
    TwoDigitsPadded(frac);
    out := out + digits;
    assert out == Decimal(whole) + "." + TwoDigits(frac);
    if neg {
      assert "-" + out == "-" + Decimal(whole) + "." + TwoDigits(frac);
      return "-" + out;
    }
    assert out == "" + Decimal(whole) + "." + TwoDigits(frac);
    return out;
  }

  lemma TwoDigitsPadded(n: nat)
    requires n < 100
    ensures (if n < 10 then "0" else "") + Decimal(n) == TwoDigits(n)
  {
    if n < 10 {
      assert Decimal(n) == [DigitChar(n)];
    } else {
      assert Digits(n / 10) == [DigitChar(n / 10)];
    }
  }

  /** The printed text reads back as the nearest hundredth, within 0.005 of the
      argument and carrying its sign, exactly while the rounded whole part fits. */
  lemma FixedPointIsWithinHalfAHundredth(f: real)
    requires Magnitude(f) < 9223372036854775808.0
    ensures ParseFixed(FixedPoint(f)).Some? <==> Magnitude(f) < 9223372036854775807.995
    ensures ParseFixed(FixedPoint(f)).Some? ==>
              var v := ParseFixed(FixedPoint(f)).value;
              v == Signed(f < 0.0, Hundredths(f) as real / 100.0)
              && -0.005 <= v - f <= 0.005
  {
    hide ParseFixed, Decimal, TwoDigits;
    var h := Hundredths(f);
    WholePartFits(f);
    NearestHundredth(f);
    if h / 100 <= MAX_INT64 {
      DecimalOfNat(h / 100);
      ParseFixedOf(f < 0.0, h);
    } else {
      BareSign();
      ParseFixedOfBareSign(f < 0.0, h % 100);
    }
  }

  lemma NearestHundredth(f: real)
    ensures -0.005 <= Signed(f < 0.0, Hundredths(f) as real / 100.0) - f <= 0.005
  {
    var g := Magnitude(f) * 100.0 + 0.5;
    assert Hundredths(f) as real <= g < Hundredths(f) as real + 1.0;
  }

  lemma WholePartFits(f: real)
    requires Magnitude(f) < 9223372036854775808.0
    ensures Hundredths(f) / 100 <= MAX_INT64 <==> Magnitude(f) < 9223372036854775807.995
  {
    var g := Magnitude(f) * 100.0 + 0.5;
    assert g < 922337203685477580800.0 <==> Magnitude(f) < 9223372036854775807.995;
  }

  lemma BareSign()
    ensures Decimal(MIN_INT64) == "-"
  {}

  lemma DecimalOfNat(n: nat)
    ensures Decimal(n) == Digits(n)
  {}

  lemma ParseFixedOf(sign: bool, h: nat)
    ensures var s := (if sign then "-" else "") + Digits(h / 100) + "." + TwoDigits(h % 100);
            ParseFixed(s) == Some(Signed(sign, h as real / 100.0))
  {
    hide TwoDigits, DigitValue;
    var digits, frac := Digits(h / 100), TwoDigits(h % 100);
    var s := (if sign then "-" else "") + digits + "." + frac;
    ParseOfDigits(h / 100);
    assert s[|s| - 3] == '.' && s[|s| - 2] == frac[0] && s[|s| - 1] == frac[1];
    if sign {
      assert s[1..|s| - 3] == digits;
    } else {
      assert s[..|s| - 3] == digits;
      assert s[0] == digits[0];
    }
    DigitValues(h % 100);
    WholeAndHundredths(h);
  }

  lemma DigitValues(n: nat)
    requires n < 100
    ensures DigitValue(TwoDigits(n)[0]) == Some(n / 10)
    ensures DigitValue(TwoDigits(n)[1]) == Some(n % 10)
  {}

  lemma WholeAndHundredths(h: nat)
    ensures (h / 100) as real + ((h % 100) / 10 * 10 + (h % 100) % 10) as real / 100.0 == h as real / 100.0
  {
    assert h as real == (h / 100) as real * 100.0 + (h % 100) as real;
  }

  lemma ParseFixedOfBareSign(sign: bool, r: nat)
    requires r < 100
    ensures ParseFixed((if sign then "-" else "") + "-" + "." + TwoDigits(r)) == None
  {
    var s := (if sign then "-" else "") + "-" + "." + TwoDigits(r);
    if sign {
      assert s[1..|s| - 3] == "-";
    } else {
      assert s[1..|s| - 3] == "";
    }
  }
}
