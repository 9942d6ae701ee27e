/** `parseWad` and `formatWad` of backend/services/option_math.go: the decimal text
    in which strikes, volatilities and prices are stored. */
module WadText {
  import opened Outcomes
  import opened FixedPoint

  datatype TextError = Empty | NoDigits | TooManyDecimals | NotANumber

  const FRACTION_DIGITS := 18

  predicate IsDigit(c: char)
  {
    '0' <= c <= '9'
  }

  predicate AllDigits(s: string)
  {
    forall i :: 0 <= i < |s| ==> IsDigit(s[i])
  }

  /** unicode.IsSpace, which strings.TrimSpace uses. */
  predicate IsSpace(c: char)
  {
    c in {'\t', '\n', '\U{0B}', '\U{0C}', '\r', ' ', '\U{85}', '\U{A0}', '\U{1680}',
          '\U{2028}', '\U{2029}', '\U{202F}', '\U{205F}', '\U{3000}'}
    || '\U{2000}' <= c <= '\U{200A}'
  }

  function TrimLeft(s: string): string
  {
    if s != "" && IsSpace(s[0]) then TrimLeft(s[1..]) else s
  }

  function TrimRight(s: string): string
  {
    if s != "" && IsSpace(s[|s| - 1]) then TrimRight(s[..|s| - 1]) else s
  }

  function TrimSpace(s: string): string
  {
    TrimRight(TrimLeft(s))
  }

  function DigitChar(d: int): char
    requires 0 <= d < 10
  {
    '0' + d as char
  }

  /** big.Int.String of a non-negative number. */
  function Decimal(n: nat): string
  {
    if n < 10 then [DigitChar(n)] else Decimal(n / 10) + [DigitChar(n % 10)]
  }

  /** big.Int.SetString in base ten, on digits only. */
  function Number(s: string): nat
    requires AllDigits(s)
  {
    if s == "" then 0 else 10 * Number(s[..|s| - 1]) + (s[|s| - 1] as int - '0' as int)
  }

  function Zeros(k: nat): (z: string)
    ensures |z| == k && AllDigits(z)
  {
    if k == 0 then "" else Zeros(k - 1) + "0"
  }

  /** Digits filled up with zeros on the right. */
  function Padded(f: string, k: nat): (p: string)
    requires AllDigits(f) && |f| <= k
    ensures |p| == k && AllDigits(p)
  {
    f + Zeros(k - |f|)
  }

  function TrimZeros(s: string): string
  {
    if s != "" && s[|s| - 1] == '0' then TrimZeros(s[..|s| - 1]) else s
  }

  /** Index of the first '.', or the length when there is none. */
  function DotIndex(s: string): (i: nat)
    ensures i <= |s|
    ensures i < |s| ==> s[i] == '.'
    ensures forall j :: 0 <= j < i ==> s[j] != '.'
  {
    if s == "" || s[0] == '.' then 0 else 1 + DotIndex(s[1..])
  }

  function Whole(s: string): string
  {
    s[..DotIndex(s)]
  }

  function Fraction(s: string): string
  {
    if DotIndex(s) < |s| then s[DotIndex(s) + 1..] else ""
  }

  /** Digits with at most `k` decimals, scaled by 10^k. */
  function ParseUnsigned(s: string, k: nat): Result<int, TextError>
  {
    if s == "" then Err(NoDigits) else
      var whole, fraction := Whole(s), Fraction(s);
      if whole == "" && fraction == "" then Err(NoDigits)
      else if k < |fraction| then Err(TooManyDecimals)
      else if !AllDigits(whole) || !AllDigits(fraction) then Err(NotANumber)
      else Ok(Number((if whole == "" then "0" else whole) + Padded(fraction, k)))
  }

  function ParseTrimmed(trimmed: string): Result<int, TextError>
  {
    if trimmed == "" then Err(Empty)
    else if trimmed[0] == '-' then
      var v :- ParseUnsigned(trimmed[1..], FRACTION_DIGITS);
      Ok(-v)
    else if trimmed[0] == '+' then ParseUnsigned(trimmed[1..], FRACTION_DIGITS)
    else ParseUnsigned(trimmed, FRACTION_DIGITS)
  }

  function ParseWad(s: string): Result<int, TextError>
  {
    ParseTrimmed(TrimSpace(s))
  }

  /** `k` fractional digits without their trailing zeros. */
  function FractionText(n: nat, k: nat): string
    requires 0 < n < Pow10(k)
  {
    DecimalLength(n, k);
    TrimZeros(Zeros(k - |Decimal(n)|) + Decimal(n))
  }

  function FormatPieces(whole: nat, fraction: nat, k: nat): string
    requires fraction < Pow10(k)
  {
    Decimal(whole) + if fraction == 0 then "" else "." + FractionText(fraction, k)
  }

  /** big.Int.QuoRem on non-negative numbers. */
  function QuoRem(v: nat, unit: int): (r: (nat, nat))
    requires 0 < unit
    ensures v == r.0 * unit + r.1 && r.1 < unit
  {
    (v / unit, v % unit)
  }

  function FormatUnsigned(v: nat, k: nat): string
  {
    var r := QuoRem(v, Pow10(k));
    FormatPieces(r.0, r.1, k)
  }

  function FormatWad(v: int): string
  {
    if v < 0 then "-" + FormatUnsigned(-v, FRACTION_DIGITS) else FormatUnsigned(v, FRACTION_DIGITS)
  }

  function Pow10(k: nat): (p: int)
    ensures 0 < p
  {
    if k == 0 then 1 else 10 * Pow10(k - 1)
  }

  lemma WadIsPow10()
    ensures Pow10(FRACTION_DIGITS) == WAD
  {
    assert Pow10(6) == 1_000_000;
    assert Pow10(12) == 1_000_000_000_000;
  }

  lemma {:induction false} DecimalDigits(n: nat)
    ensures AllDigits(Decimal(n)) && Decimal(n) != "" && Number(Decimal(n)) == n
    ensures |Decimal(n)| == 1 || Decimal(n)[0] != '0'
    ensures 0 < n ==> Decimal(n)[0] != '0'
  {
    if n < 10 {
      assert Number("") == 0;
      assert Decimal(n)[..0] == "";
    } else {
      DecimalDigits(n / 10);
      var s := Decimal(n);
      assert s[..|s| - 1] == Decimal(n / 10);
    }
  }

  lemma {:induction false} DecimalLength(n: nat, k: nat)
    requires 0 < k && n < Pow10(k)
    ensures |Decimal(n)| <= k
  {
    if 10 <= n { DecimalLength(n / 10, k - 1); }
  }

  lemma {:induction false} NumberConcat(a: string, b: string)
    requires AllDigits(a) && AllDigits(b)
    ensures AllDigits(a + b)
    ensures Number(a + b) == Number(a) * Pow10(|b|) + Number(b)
    decreases |b|
  {
    if b == "" {
      assert a + b == a;
    } else {
      var c := b[..|b| - 1];
      NumberConcat(a, c);
      assert (a + b)[..|a + b| - 1] == a + c;
      assert Pow10(|b|) == 10 * Pow10(|c|);
      MulTen(Number(a), Pow10(|c|));
    }
  }

  lemma MulTen(x: int, y: int)
    ensures x * (10 * y) == 10 * (x * y)
  {
  }

  lemma {:induction false} NumberBound(s: string)
    requires AllDigits(s)
    ensures Number(s) < Pow10(|s|)
    decreases |s|
  {
    if s != "" { NumberBound(s[..|s| - 1]); }
  }

  lemma {:induction false} NumberOfZeros(k: nat)
    ensures Number(Zeros(k)) == 0
  {
    if k != 0 {
      NumberOfZeros(k - 1);
      assert Zeros(k)[..k - 1] == Zeros(k - 1);
    }
  }

  /** Zeros on the left do not change a number. */
  lemma NumberPadded(s: string, k: nat)
    requires AllDigits(s)
    ensures AllDigits(Zeros(k) + s) && Number(Zeros(k) + s) == Number(s)
  {
    NumberConcat(Zeros(k), s);
    NumberOfZeros(k);
  }

  /** Zeros on the right keep it positive. */
  lemma PaddedPositive(f: string, k: nat)
    requires AllDigits(f) && |f| <= k && 0 < Number(f)
    ensures 0 < Number(Padded(f, k))
  {
    NumberConcat(f, Zeros(k - |f|));
    MulMono(1, Number(f), Pow10(k - |f|));
  }

  lemma LastDigit(f: string)
    requires AllDigits(f) && f != "" && f[|f| - 1] != '0'
    ensures 0 < Number(f)
  {
  }

  lemma {:induction false} TrimZerosSpec(s: string)
    ensures |TrimZeros(s)| <= |s| && s == TrimZeros(s) + Zeros(|s| - |TrimZeros(s)|)
    ensures TrimZeros(s) == "" || TrimZeros(s)[|TrimZeros(s)| - 1] != '0'
    decreases |s|
  {
    if s != "" && s[|s| - 1] == '0' {
      TrimZerosSpec(s[..|s| - 1]);
      assert s == s[..|s| - 1] + "0";
    }
  }

  lemma {:induction false} TrimZerosAppend(s: string, k: nat)
    requires s != "" && s[|s| - 1] != '0'
    ensures TrimZeros(s + Zeros(k)) == s
  {
    if k == 0 {
      assert s + Zeros(0) == s;
    } else {
      TrimZerosAppend(s, k - 1);
      assert (s + Zeros(k))[..|s| + k - 1] == s + Zeros(k - 1);
    }
  }

  /** Text that neither begins nor ends with a space is not trimmed. */
  lemma TrimNothing(s: string)
    requires s != "" && !IsSpace(s[0]) && !IsSpace(s[|s| - 1])
    ensures TrimSpace(s) == s
  {
  }

  lemma {:induction false} DotAt(d: string, rest: string)
    requires AllDigits(d)
    requires rest == "" || rest[0] == '.'
    ensures DotIndex(d + rest) == |d|
  {
    var s := d + rest;
    assert forall j :: 0 <= j < |d| ==> s[j] == d[j] && IsDigit(d[j]);
    assert rest != "" ==> s[|d|] == rest[0];
  }

  lemma {:induction false} DecimalOfNumber(w: string)
    requires AllDigits(w) && w != "" && (|w| == 1 || w[0] != '0')
    ensures Decimal(Number(w)) == w
    decreases |w|
  {
    var q := w[..|w| - 1];
    if |w| == 1 {
      assert q == "" && Number(q) == 0;
    } else {
      LeadingDigit(q);
      DecimalOfNumber(q);
      assert w == q + [w[|w| - 1]];
    }
  }

  lemma {:induction false} LeadingDigit(w: string)
    requires AllDigits(w) && w != "" && w[0] != '0'
    ensures 0 < Number(w)
    decreases |w|
  {
    if |w| == 1 {
      assert w[..0] == "" && Number("") == 0;
    } else {
      LeadingDigit(w[..|w| - 1]);
    }
  }

  lemma DecimalStep(m: nat, digit: int)
    requires 0 < m && 0 <= digit < 10
    ensures Decimal(10 * m + digit) == Decimal(m) + [DigitChar(digit)]
  {
  }

  lemma LastStep(q: string, last: char)
    requires AllDigits(q) && IsDigit(last)
    ensures AllDigits(q + [last]) && Number(q + [last]) == 10 * Number(q) + (last as int - '0' as int)
    ensures DigitChar(last as int - '0' as int) == last
  {
    assert (q + [last])[..|q|] == q;
  }

  /** A digit string is its number's decimal, padded with zeros on the left. */
  lemma {:induction false} PadDecimal(p: string)
    requires AllDigits(p) && p != ""
    ensures var d := Decimal(Number(p)); |d| <= |p| && Zeros(|p| - |d|) + d == p
    decreases |p|
  {
    var q, last := p[..|p| - 1], p[|p| - 1];
    assert p == q + [last];
    LastStep(q, last);
    if q != "" { PadDecimal(q); }
    PadStep(q, last, Number(q));
  }

  lemma PadStep(q: string, last: char, n: nat)
    requires IsDigit(last)
    requires if q == "" then n == 0 else |Decimal(n)| <= |q| && Zeros(|q| - |Decimal(n)|) + Decimal(n) == q
    ensures var d := Decimal(10 * n + (last as int - '0' as int));
            |d| <= |q| + 1 && Zeros(|q| + 1 - |d|) + d == q + [last]
  {
    var digit := last as int - '0' as int;
    if n == 0 {
      assert Decimal(digit) == [last];
      assert q == Zeros(|q|);
    } else {
      DecimalStep(n, digit);
      var d := Decimal(n);
      assert Zeros(|q| - |d|) + (d + [last]) == q + [last];
    }
  }

  lemma TrimmedFraction(padded: string)
    requires AllDigits(padded) && 0 < Number(padded)
    ensures var f := TrimZeros(padded);
            && AllDigits(f) && 1 <= |f| <= |padded| && f[|f| - 1] != '0'
            && Padded(f, |padded|) == padded
  {
    TrimZerosSpec(padded);
    var f := TrimZeros(padded);
    assert forall i :: 0 <= i < |f| ==> f[i] == padded[i];
    NumberOfZeros(|padded|);
    assert f == "" ==> padded == Zeros(|padded|);
  }

  lemma TrimmedValue(pad: string, n: nat)
    requires AllDigits(pad) && Number(pad) == n && 0 < n
    ensures var f := TrimZeros(pad);
            && AllDigits(f) && 1 <= |f| <= |pad| && f[|f| - 1] != '0'
            && Number(Padded(f, |pad|)) == n
  {
    TrimmedFraction(pad);
  }

  /** The printed fraction keeps its value once padded again. */
  lemma FractionTextSpec(n: nat, k: nat)
    requires 0 < n < Pow10(k)
    ensures var f := FractionText(n, k);
            && AllDigits(f) && 1 <= |f| <= k && f[|f| - 1] != '0'
            && Number(Padded(f, k)) == n
  {
    DecimalLength(n, k);
    var pad := Zeros(k - |Decimal(n)|) + Decimal(n);
    assert AllDigits(pad) && Number(pad) == n by {
      DecimalDigits(n);
      NumberPadded(Decimal(n), k - |Decimal(n)|);
    }
    TrimmedValue(pad, n);
  }

  lemma PaddedBounds(pad: string, f: string)
    requires AllDigits(f) && f != "" && f[|f| - 1] != '0' && |f| <= |pad|
    requires pad == Padded(f, |pad|)
    ensures AllDigits(pad) && 0 < Number(pad) < Pow10(|pad|)
  {
    LastDigit(f);
    PaddedPositive(f, |pad|);
    NumberBound(pad);
  }

  /** The converse: a fraction without trailing zeros is what padding and trimming
      its value gives back. */
  lemma FractionPrinted(f: string, k: nat)
    requires AllDigits(f) && 1 <= |f| <= k && f[|f| - 1] != '0'
    ensures var n := Number(Padded(f, k));
            0 < n < Pow10(k) && FractionText(n, k) == f
  {
    PaddedPrinted(Padded(f, k), f);
  }

  lemma PaddedPrinted(pad: string, f: string)
    requires AllDigits(f) && 1 <= |f| <= |pad| && f[|f| - 1] != '0'
    requires pad == Padded(f, |pad|)
    ensures AllDigits(pad) && 0 < Number(pad) < Pow10(|pad|)
    ensures FractionText(Number(pad), |pad|) == f
  {
    PaddedBounds(pad, f);
    TextOfPadded(pad, Number(pad), |pad|);
    TrimPadded(f, |pad|);
  }

  lemma TrimPadded(f: string, k: nat)
    requires AllDigits(f) && 1 <= |f| <= k && f[|f| - 1] != '0'
    ensures TrimZeros(Padded(f, k)) == f
  {
    TrimZerosAppend(f, k - |f|);
  }

  lemma TextOfPadded(pad: string, n: nat, k: nat)
    requires AllDigits(pad) && k == |pad| && n == Number(pad) && 0 < n < Pow10(k)
    ensures FractionText(n, k) == TrimZeros(pad)
  {
    assert |Decimal(n)| <= k && Zeros(k - |Decimal(n)|) + Decimal(n) == pad by { PadDecimal(pad); }
    PaddedText(n, k, pad);
  }

  lemma PaddedText(n: nat, k: nat, pad: string)
    requires 0 < n < Pow10(k) && |Decimal(n)| <= k && Zeros(k - |Decimal(n)|) + Decimal(n) == pad
    ensures FractionText(n, k) == TrimZeros(pad)
  {
  }

  /** How text splits and what it is worth, when it is digits with an optional
      non-empty fraction. */
  lemma ParseParts(whole: string, fraction: string, s: string, k: nat)
    requires AllDigits(whole) && whole != "" && AllDigits(fraction) && |fraction| <= k
    requires s == whole + if fraction == "" then "" else "." + fraction
    ensures Whole(s) == whole && Fraction(s) == fraction
    ensures ParseUnsigned(s, k) == Ok(Number(whole) * Pow10(k) + Number(Padded(fraction, k)))
  {
    SplitParts(whole, fraction, s);
    var pad := Padded(fraction, k);
    assert |pad| == k;
    assert AllDigits(whole + pad) && Number(whole + pad) == Number(whole) * Pow10(k) + Number(pad) by {
      NumberConcat(whole, pad);
    }
    assert whole + Padded(fraction, k) == whole + pad;
  }

  lemma SplitParts(whole: string, fraction: string, s: string)
    requires AllDigits(whole)
    requires s == whole + if fraction == "" then "" else "." + fraction
    ensures Whole(s) == whole && Fraction(s) == fraction && (DotIndex(s) < |s| <==> fraction != "")
  {
    DotAt(whole, if fraction == "" then "" else "." + fraction);
  }

  /** The pieces of the printed form. */
  lemma PieceParts(w: nat, n: nat, k: nat) returns (whole: string, fraction: string)
    requires n < Pow10(k)
    ensures AllDigits(whole) && whole != "" && (|whole| == 1 || whole[0] != '0')
    ensures AllDigits(fraction) && |fraction| <= k
    ensures fraction == "" || fraction[|fraction| - 1] != '0'
    ensures FormatPieces(w, n, k) == whole + if fraction == "" then "" else "." + fraction
    ensures Number(whole) == w && Number(Padded(fraction, k)) == n
  {
    whole := Decimal(w);
    DecimalDigits(w);
    if n == 0 {
      fraction := "";
      EmptyFraction(k);
    } else {
      fraction := FractionText(n, k);
      FractionTextSpec(n, k);
    }
  }

  lemma FormatParts(v: nat, k: nat) returns (whole: string, fraction: string)
    ensures AllDigits(whole) && whole != "" && (|whole| == 1 || whole[0] != '0')
    ensures AllDigits(fraction) && |fraction| <= k
    ensures fraction == "" || fraction[|fraction| - 1] != '0'
    ensures FormatUnsigned(v, k) == whole + if fraction == "" then "" else "." + fraction
    ensures Number(whole) * Pow10(k) + Number(Padded(fraction, k)) == v
  {
    var r := QuoRem(v, Pow10(k));
    whole, fraction := PieceParts(r.0, r.1, k);
  }

  lemma EmptyFraction(k: nat)
    ensures AllDigits("" + Zeros(k)) && Number("" + Zeros(k)) == 0
  {
    NumberOfZeros(k);
    assert "" + Zeros(k) == Zeros(k);
  }

  /** What the printer prints: an optional minus, no leading zeros, no trailing
      fractional zeros, no bare point, and no negative zero. */
  predicate CanonicalUnsigned(s: string, k: nat)
  {
    var whole, fraction := Whole(s), Fraction(s);
    && AllDigits(whole) && whole != "" && (|whole| == 1 || whole[0] != '0')
    && (DotIndex(s) < |s| ==>
          && AllDigits(fraction) && 1 <= |fraction| <= k
          && fraction[|fraction| - 1] != '0')
  }

  predicate Canonical(s: string)
  {
    if s != "" && s[0] == '-' then CanonicalUnsigned(s[1..], FRACTION_DIGITS) && s != "-0"
    else CanonicalUnsigned(s, FRACTION_DIGITS)
  }

  lemma UnsignedRoundTrip(v: nat, k: nat)
    ensures ParseUnsigned(FormatUnsigned(v, k), k) == Ok(v)
    ensures CanonicalUnsigned(FormatUnsigned(v, k), k)
  {
    var whole, fraction := FormatParts(v, k);
    ParseParts(whole, fraction, FormatUnsigned(v, k), k);
    SplitParts(whole, fraction, FormatUnsigned(v, k));
  }

  /** Printed text starts and ends with a digit after its sign, so trimming and
      sign handling leave it alone. */
  lemma FormatEnds(v: nat, k: nat)
    ensures var s := FormatUnsigned(v, k);
            && s != "" && IsDigit(s[0])
            && TrimSpace(s) == s && TrimSpace("-" + s) == "-" + s
  {
    var s := FormatUnsigned(v, k);
    var whole, fraction := FormatParts(v, k);
    assert s[0] == whole[0];
    assert IsDigit(s[|s| - 1]) by {
      assert s[|s| - 1] == if fraction == "" then whole[|whole| - 1] else fraction[|fraction| - 1];
    }
    TrimNothing(s);
    TrimNothing("-" + s);
  }

  lemma UnsignedZero(k: nat)
    ensures FormatUnsigned(0, k) == "0"
  {
    assert Decimal(0) == "0";
  }

  lemma UnitSplit(v: nat, w: nat, n: nat, unit: int)
    requires n < unit && v == w * unit + n
    ensures QuoRem(v, unit) == (w, n)
  {
    FloorSpec(v, unit, w);
  }

  lemma PaddedValue(fraction: string, k: nat)
    requires AllDigits(fraction) && |fraction| <= k
    requires fraction == "" || fraction[|fraction| - 1] != '0'
    ensures AllDigits(Padded(fraction, k))
    ensures var n := Number(Padded(fraction, k));
            n < Pow10(k) && (n == 0 <==> fraction == "") && (0 < n ==> FractionText(n, k) == fraction)
  {
    if fraction == "" {
      EmptyFraction(k);
    } else {
      FractionPrinted(fraction, k);
    }
  }

  /** Printing a whole part and a padded fraction. */
  lemma PrintParts(whole: string, fraction: string, n: nat, v: nat, k: nat)
    requires AllDigits(whole) && whole != "" && (|whole| == 1 || whole[0] != '0')
    requires n < Pow10(k) && (n == 0 <==> fraction == "") && (0 < n ==> FractionText(n, k) == fraction)
    requires v == Number(whole) * Pow10(k) + n
    ensures FormatUnsigned(v, k) == whole + if fraction == "" then "" else "." + fraction
  {
    UnitSplit(v, Number(whole), n, Pow10(k));
    PrintPieces(whole, fraction, n, k);
  }

  lemma PrintPieces(whole: string, fraction: string, n: nat, k: nat)
    requires AllDigits(whole) && whole != "" && (|whole| == 1 || whole[0] != '0')
    requires n < Pow10(k) && (n == 0 <==> fraction == "") && (0 < n ==> FractionText(n, k) == fraction)
    ensures FormatPieces(Number(whole), n, k) == whole + if fraction == "" then "" else "." + fraction
  {
    DecimalOfNumber(whole);
  }

  lemma CanonicalUnsignedPrinted(s: string, k: nat)
    requires CanonicalUnsigned(s, k)
    ensures ParseUnsigned(s, k).Ok? && 0 <= ParseUnsigned(s, k).value
    ensures FormatUnsigned(ParseUnsigned(s, k).value, k) == s
  {
    var whole, fraction := Whole(s), Fraction(s);
    assert s == whole + if fraction == "" then "" else "." + fraction;
    ParseParts(whole, fraction, s, k);
    PaddedValue(fraction, k);
    PrintParts(whole, fraction, Number(Padded(fraction, k)), ParseUnsigned(s, k).value, k);
  }

  /** Every 1e18 fixed-point value survives being printed and parsed. */
  lemma RoundTrip(v: int)
    ensures ParseWad(FormatWad(v)) == Ok(v)
    ensures Canonical(FormatWad(v))
  {
    var k, u: nat := FRACTION_DIGITS, if v < 0 then -v else v;
    FormatEnds(u, k);
    UnsignedRoundTrip(u, k);
    UnsignedRoundTrip(0, k);
    UnsignedZero(k);
    var s := FormatUnsigned(u, k);
    assert ("-" + s)[1..] == s;
  }

  lemma NonZeroText(v: nat, t: string, k: nat)
    requires FormatUnsigned(v, k) == t && t != "0"
    ensures 0 < v
  {
    UnsignedZero(k);
  }

  lemma CanonicalValue(t: string, k: nat) returns (v: int)
    requires CanonicalUnsigned(t, k)
    ensures ParseUnsigned(t, k) == Ok(v) && 0 <= v && (t != "0" ==> 0 < v)
    ensures FormatUnsigned(v, k) == t
    ensures TrimSpace(t) == t && TrimSpace("-" + t) == "-" + t
  {
    CanonicalUnsignedPrinted(t, k);
    v := ParseUnsigned(t, k).value;
    FormatEnds(v, k);
    if t != "0" { NonZeroText(v, t, k); }
  }

  lemma PositivePrinted(s: string)
    requires CanonicalUnsigned(s, FRACTION_DIGITS)
    ensures ParseWad(s).Ok? && FormatWad(ParseWad(s).value) == s
  {
    var v := CanonicalValue(s, FRACTION_DIGITS);
    assert IsDigit(Whole(s)[0]);
  }

  lemma TrimmedNegative(t: string, v: int)
    requires ParseUnsigned(t, FRACTION_DIGITS) == Ok(v)
    ensures ParseTrimmed("-" + t) == Ok(-v)
  {
    var s := "-" + t;
    assert s[0] == '-' && s[1..] == t;
  }

  lemma ParseNegative(t: string, v: int)
    requires TrimSpace("-" + t) == "-" + t && ParseUnsigned(t, FRACTION_DIGITS) == Ok(v)
    ensures ParseWad("-" + t) == Ok(-v)
  {
    TrimmedNegative(t, v);
  }

  lemma NegativePrinted(t: string)
    requires CanonicalUnsigned(t, FRACTION_DIGITS) && t != "0"
    ensures ParseWad("-" + t).Ok? && FormatWad(ParseWad("-" + t).value) == "-" + t
  {
    var v := CanonicalValue(t, FRACTION_DIGITS);
    ParseNegative(t, v);
  }

  lemma CanonicalKept(s: string)
    requires Canonical(s)
    ensures ParseWad(s).Ok? && FormatWad(ParseWad(s).value) == s
  {
    if s[0] == '-' {
      assert s == "-" + s[1..];
      NegativePrinted(s[1..]);
    } else {
      PositivePrinted(s);
    }
  }

  lemma KeptCanonical(s: string)
    requires ParseWad(s).Ok? && FormatWad(ParseWad(s).value) == s
    ensures Canonical(s)
  {
    RoundTrip(ParseWad(s).value);
  }

  /** The canonical texts are exactly those the parser and printer leave unchanged;
      in particular one round trip reaches a form a second one does not change. */
  lemma CanonicalIff(s: string)
    ensures Canonical(s) <==> ParseWad(s).Ok? && FormatWad(ParseWad(s).value) == s
  {
    if Canonical(s) {
      CanonicalKept(s);
    } else if ParseWad(s).Ok? && FormatWad(ParseWad(s).value) == s {
      KeptCanonical(s);
    }
  }

  /** Whatever text parses, one parse and print reaches a form a second leaves alone. */
  lemma PrintStable(s: string)
    requires ParseWad(s).Ok?
    ensures var t := FormatWad(ParseWad(s).value);
            ParseWad(t) == ParseWad(s) && FormatWad(ParseWad(t).value) == t
  {
    RoundTrip(ParseWad(s).value);
  }

  /** Distinct values print differently. */
  lemma FormatInjective(v: int, w: int)
    ensures FormatWad(v) == FormatWad(w) <==> v == w
  {
    RoundTrip(v);
    RoundTrip(w);
  }
}
