/** Exact decimal text: the canonical form, comparison and checksum field of
    apps/api/src/market/krakenBook.ts, against the rational value a text denotes.

    A plain decimal is `\d+(\.\d+)?`.  Its value is the numeral before the dot plus the
    fraction after it; nothing is ever rounded. */
module DecimalText {
  import opened Wrappers

  // ---------- digits and values ----------

  predicate IsDigit(c: char) { '0' <= c <= '9' }

  predicate Digits(s: string) { forall i :: 0 <= i < |s| ==> IsDigit(s[i]) }

  function Digit(c: char): (d: nat)
    requires IsDigit(c)
    ensures d <= 9
  {
    c as int - '0' as int
  }

  /** The number a digit string denotes; the empty string denotes 0. */
  function Numeral(s: string): nat
    requires Digits(s)
  {
    if s == [] then 0 else 10 * Numeral(s[..|s| - 1]) + Digit(s[|s| - 1])
  }

  /** The number `0.f` denotes. */
  function Fraction(f: string): (r: real)
    requires Digits(f)
    ensures 0.0 <= r < 1.0
  {
    if f == [] then 0.0 else (Digit(f[0]) as real + Fraction(f[1..])) / 10.0
  }

  function Pow10(n: nat): (p: nat)
    ensures p > 0
  {
    if n == 0 then 1 else 10 * Pow10(n - 1)
  }

  // ---------- splitting at the dot ----------

  /** `s.indexOf(".")`, with |s| standing for "no dot". */
  function DotIndex(s: string): (i: nat)
    ensures i <= |s|
    ensures forall j :: 0 <= j < i ==> s[j] != '.'
    ensures i < |s| ==> s[i] == '.'
  {
    if s == [] || s[0] == '.' then 0 else 1 + DotIndex(s[1..])
  }

  function IntPart(s: string): string { s[..DotIndex(s)] }

  function FracPart(s: string): string {
    if DotIndex(s) == |s| then "" else s[DotIndex(s) + 1..]
  }

  /** The regular expression PLAIN_DECIMAL. */
  predicate IsPlain(s: string) {
    && IntPart(s) != ""
    && Digits(IntPart(s))
    && Digits(FracPart(s))
    && (DotIndex(s) < |s| ==> FracPart(s) != "")
  }

  /** The rational number a plain decimal denotes. */
  function Value(s: string): (v: real)
    requires IsPlain(s)
    ensures v >= 0.0
  {
    Numeral(IntPart(s)) as real + Fraction(FracPart(s))
  }

  // ---------- the canonical form ----------

  function Zeros(n: nat): (z: string)
    ensures |z| == n && Digits(z)
    ensures forall i :: 0 <= i < n ==> z[i] == '0'
  {
    seq(n, _ => '0')
  }

  function StripLeadingZeros(s: string): (t: string)
    ensures Digits(s) ==> Digits(t)
    ensures t != [] ==> t[0] != '0'
  {
    if s != [] && s[0] == '0' then StripLeadingZeros(s[1..]) else s
  }

  function StripTrailingZeros(s: string): (t: string)
    ensures Digits(s) ==> Digits(t)
    ensures t != [] ==> t[|t| - 1] != '0'
  {
    if s != [] && s[|s| - 1] == '0' then StripTrailingZeros(s[..|s| - 1]) else s
  }

  /** JavaScript's white space, as `trim` removes it. */
  predicate IsSpace(c: char) {
    || c in "\t\n\r \U{000B}\U{000C}\U{00A0}\U{1680}\U{2028}\U{2029}\U{202F}\U{205F}\U{3000}\U{FEFF}"
    || '\U{2000}' <= c <= '\U{200A}'
  }

  function TrimStart(s: string): string {
    if s != [] && IsSpace(s[0]) then TrimStart(s[1..]) else s
  }

  function TrimEnd(s: string): string {
    if s != [] && IsSpace(s[|s| - 1]) then TrimEnd(s[..|s| - 1]) else s
  }

  function Trim(s: string): string { TrimEnd(TrimStart(s)) }

  function Join(whole: string, frac: string): string {
    if frac == "" then whole else whole + "." + frac
  }

  /** `canonicalDecimal`; None is the malformed level that the source refuses with an exception. */
  function CanonicalDecimal(text: string): Option<string> {
    var s := Trim(text);
    if !IsPlain(s) then None else
      var whole := StripLeadingZeros(IntPart(s));
      Some(Join(if whole == "" then "0" else whole, StripTrailingZeros(FracPart(s))))
  }

  predicate IsCanonical(s: string) {
    && IsPlain(s)
    && (IntPart(s) == "0" || IntPart(s)[0] != '0')
    && (FracPart(s) != "" ==> FracPart(s)[|FracPart(s)| - 1] != '0')
  }

  lemma JoinParts(whole: string, frac: string)
    requires Digits(whole) && Digits(frac)
    ensures IntPart(Join(whole, frac)) == whole
    ensures FracPart(Join(whole, frac)) == frac
    ensures DotIndex(Join(whole, frac)) < |Join(whole, frac)| <==> frac != ""
  {
    var s := Join(whole, frac);
    if frac == "" {
      assert forall j :: 0 <= j < |s| ==> s[j] != '.';
    } else {
      assert s[|whole|] == '.';
      assert forall j :: 0 <= j < |whole| ==> s[j] == whole[j];
      assert DotIndex(s) == |whole|;
    }
  }

  lemma PartsJoin(s: string)
    requires IsPlain(s)
    ensures s == Join(IntPart(s), FracPart(s))
  {
  }

  lemma {:induction false} NumeralPrependZero(s: string)
    requires Digits(s)
    ensures Numeral("0" + s) == Numeral(s)
  {
    if s != [] {
      NumeralPrependZero(s[..|s| - 1]);
      assert ("0" + s)[..|s|] == "0" + s[..|s| - 1];
    } else {
      assert "0" + s == "0";
      assert "0"[..0] == "";
    }
  }

  lemma {:induction false} StripLeadingKeepsNumeral(s: string)
    requires Digits(s)
    ensures Numeral(StripLeadingZeros(s)) == Numeral(s)
  {
    if s != [] && s[0] == '0' {
      StripLeadingKeepsNumeral(s[1..]);
      NumeralPrependZero(s[1..]);
      assert "0" + s[1..] == s;
    }
  }

  lemma {:induction false} FractionAppendZero(f: string)
    requires Digits(f)
    ensures Fraction(f + "0") == Fraction(f)
  {
    if f != [] {
      FractionAppendZero(f[1..]);
      assert (f + "0")[1..] == f[1..] + "0";
    }
  }

  lemma {:induction false} StripTrailingKeepsFraction(f: string)
    requires Digits(f)
    ensures Fraction(StripTrailingZeros(f)) == Fraction(f)
  {
    if f != [] && f[|f| - 1] == '0' {
      StripTrailingKeepsFraction(f[..|f| - 1]);
      FractionAppendZero(f[..|f| - 1]);
      assert f[..|f| - 1] + "0" == f;
    }
  }

  /** A plain decimal has a canonical form, and it denotes the same number. */
  lemma CanonicalKeepsValue(text: string)
    requires IsPlain(Trim(text))
    ensures CanonicalDecimal(text).Some?
    ensures IsCanonical(CanonicalDecimal(text).value)
    ensures Value(CanonicalDecimal(text).value) == Value(Trim(text))
  {
    var s := Trim(text);
    var stripped := StripLeadingZeros(IntPart(s));
    var whole := if stripped == "" then "0" else stripped;
    JoinParts(whole, StripTrailingZeros(FracPart(s)));
    StripLeadingKeepsNumeral(IntPart(s));
    StripTrailingKeepsFraction(FracPart(s));
    assert Numeral("0") == 0 == Numeral("") by { assert "0"[..0] == ""; }
  }

  lemma TrimNothing(s: string)
    requires s != "" ==> !IsSpace(s[0]) && !IsSpace(s[|s| - 1])
    ensures Trim(s) == s
  {
  }

  lemma DigitsAreNotSpace(c: char)
    requires IsDigit(c)
    ensures !IsSpace(c)
  {
  }

  lemma CanonicalEnds(s: string)
    requires IsCanonical(s)
    ensures s != "" && IsDigit(s[0]) && IsDigit(s[|s| - 1])
  {
    PartsJoin(s);
  }

  lemma StripNothing(s: string)
    requires IsCanonical(s)
    ensures StripTrailingZeros(FracPart(s)) == FracPart(s)
    ensures StripLeadingZeros(IntPart(s)) == if IntPart(s) == "0" then "" else IntPart(s)
  {
    if IntPart(s) == "0" {
      assert "0"[1..] == "";
    }
  }

  /** Canonical text is a fixed point, so a level has one key however often it is re-read. */
  lemma CanonicalIdempotent(s: string)
    requires IsCanonical(s)
    ensures CanonicalDecimal(s) == Some(s)
  {
    CanonicalEnds(s);
    DigitsAreNotSpace(s[0]);
    DigitsAreNotSpace(s[|s| - 1]);
    TrimNothing(s);
    StripNothing(s);
    PartsJoin(s);
  }

  // ---------- comparison ----------

  /** JavaScript's `a < b` on strings. */
  predicate TextLess(a: string, b: string) {
    if b == [] then false
    else if a == [] then true
    else if a[0] != b[0] then a[0] < b[0]
    else TextLess(a[1..], b[1..])
  }

  function PadZeros(f: string, n: nat): (p: string)
    ensures |p| == if |f| < n then n else |f|
    ensures Digits(f) ==> Digits(p)
  {
    if |f| < n then f + Zeros(n - |f|) else f
  }

  /** `compareDecimal`: -1, 0 or 1. */
  function CompareDecimal(a: string, b: string): int {
    var aInt, bInt := IntPart(a), IntPart(b);
    if |aInt| != |bInt| then (if |aInt| < |bInt| then -1 else 1)
    else if aInt != bInt then (if TextLess(aInt, bInt) then -1 else 1)
    else
      var len := if |FracPart(a)| < |FracPart(b)| then |FracPart(b)| else |FracPart(a)|;
      var ap, bp := PadZeros(FracPart(a), len), PadZeros(FracPart(b), len);
      if ap == bp then 0 else if TextLess(ap, bp) then -1 else 1
  }

  lemma {:induction false} NumeralBounds(s: string)
    requires Digits(s)
    ensures Numeral(s) < Pow10(|s|)
    ensures s != "" && s[0] != '0' ==> Pow10(|s| - 1) <= Numeral(s)
  {
    if |s| > 0 {
      NumeralBounds(s[..|s| - 1]);
      if |s| == 1 {
        assert s[..0] == "";
      }
    }
  }

  lemma {:induction false} PowMonotone(m: nat, n: nat)
    requires m <= n
    ensures Pow10(m) <= Pow10(n)
    decreases n
  {
    if m < n {
      PowMonotone(m, n - 1);
    }
  }

  lemma {:induction false} TextLessSnoc(a: string, b: string, x: char, y: char)
    requires |a| == |b|
    ensures TextLess(a + [x], b + [y]) <==> TextLess(a, b) || (a == b && x < y)
  {
    if a == [] {
      assert a + [x] == [x] && b + [y] == [y];
    } else {
      assert (a + [x])[1..] == a[1..] + [x];
      assert (b + [y])[1..] == b[1..] + [y];
      TextLessSnoc(a[1..], b[1..], x, y);
      assert a == [a[0]] + a[1..] && b == [b[0]] + b[1..];
    }
  }

  /** On numerals of one length, text order is numeric order. */
  lemma {:induction false} TextOrderIsNumeralOrder(a: string, b: string)
    requires |a| == |b| && Digits(a) && Digits(b)
    ensures TextLess(a, b) <==> Numeral(a) < Numeral(b)
    ensures a == b <==> Numeral(a) == Numeral(b)
  {
    if a != [] {
      var n := |a| - 1;
      TextOrderIsNumeralOrder(a[..n], b[..n]);
      TextLessSnoc(a[..n], b[..n], a[n], b[n]);
      assert a == a[..n] + [a[n]] && b == b[..n] + [b[n]];
    }
  }

  /** On fractions of one length, text order is numeric order. */
  lemma {:induction false} TextOrderIsFractionOrder(a: string, b: string)
    requires |a| == |b| && Digits(a) && Digits(b)
    ensures TextLess(a, b) <==> Fraction(a) < Fraction(b)
    ensures a == b <==> Fraction(a) == Fraction(b)
  {
    if a != [] {
      TextOrderIsFractionOrder(a[1..], b[1..]);
      assert a == [a[0]] + a[1..] && b == [b[0]] + b[1..];
    }
  }

  lemma {:induction false} PaddingKeepsFraction(f: string, n: nat)
    requires Digits(f)
    ensures Fraction(PadZeros(f, n)) == Fraction(f)
    decreases n
  {
    if |f| < n {
      PaddingKeepsFraction(f, n - 1);
      FractionAppendZero(PadZeros(f, n - 1));
      assert PadZeros(f, n) == PadZeros(f, n - 1) + "0";
    }
  }

  function Sign(x: real): int {
    if x < 0.0 then -1 else if x > 0.0 then 1 else 0
  }

  lemma LongerIntIsGreater(a: string, b: string)
    requires IsCanonical(a) && IsCanonical(b)
    requires |IntPart(a)| < |IntPart(b)|
    ensures Numeral(IntPart(a)) + 1 <= Numeral(IntPart(b))
  {
    NumeralBounds(IntPart(a));
    NumeralBounds(IntPart(b));
    PowMonotone(|IntPart(a)|, |IntPart(b)| - 1);
  }

  /** `compareDecimal` is the sign of the numeric difference. */
  lemma CompareIsSign(a: string, b: string)
    requires IsCanonical(a) && IsCanonical(b)
    ensures CompareDecimal(a, b) == Sign(Value(a) - Value(b))
  {
    var aInt, bInt := IntPart(a), IntPart(b);
    if |aInt| < |bInt| {
      LongerIntIsGreater(a, b);
    } else if |bInt| < |aInt| {
      LongerIntIsGreater(b, a);
    } else {
      TextOrderIsNumeralOrder(aInt, bInt);
      if aInt == bInt {
        var len := if |FracPart(a)| < |FracPart(b)| then |FracPart(b)| else |FracPart(a)|;
        PaddingKeepsFraction(FracPart(a), len);
        PaddingKeepsFraction(FracPart(b), len);
        TextOrderIsFractionOrder(PadZeros(FracPart(a), len), PadZeros(FracPart(b), len));
      }
    }
  }

  lemma PaddingInjective(f: string, g: string)
    requires f != "" ==> f[|f| - 1] != '0'
    requires g != "" ==> g[|g| - 1] != '0'
    ensures PadZeros(f, |g|) == PadZeros(g, |f|) <==> f == g
  {
    var fp, gp := PadZeros(f, |g|), PadZeros(g, |f|);
    assert |f| < |g| ==> fp[|g| - 1] == '0' && gp[|g| - 1] == g[|g| - 1];
    assert |g| < |f| ==> gp[|f| - 1] == '0' && fp[|f| - 1] == f[|f| - 1];
  }

  /** Canonical text is unique: one number, one string. */
  lemma CanonicalUnique(a: string, b: string)
    requires IsCanonical(a) && IsCanonical(b)
    ensures Value(a) == Value(b) <==> a == b
  {
    if Value(a) == Value(b) {
      CompareIsSign(a, b);
      PaddingInjective(FracPart(a), FracPart(b));
      PartsJoin(a);
      PartsJoin(b);
    }
  }

  /** Two plain texts get one key exactly when they denote one number. */
  lemma SameKeyIffSameValue(a: string, b: string)
    requires IsPlain(Trim(a)) && IsPlain(Trim(b))
    ensures CanonicalDecimal(a) == CanonicalDecimal(b) <==> Value(Trim(a)) == Value(Trim(b))
  {
    CanonicalKeepsValue(a);
    CanonicalKeepsValue(b);
    CanonicalUnique(CanonicalDecimal(a).value, CanonicalDecimal(b).value);
  }

  /** The comparison is a strict total order on canonical text. */
  lemma CompareTotalOrder(a: string, b: string, c: string)
    requires IsCanonical(a) && IsCanonical(b) && IsCanonical(c)
    ensures CompareDecimal(a, b) == 0 <==> a == b
    ensures CompareDecimal(a, b) == -CompareDecimal(b, a)
    ensures CompareDecimal(a, b) < 0 && CompareDecimal(b, c) < 0 ==> CompareDecimal(a, c) < 0
  {
    CompareIsSign(a, b);
    CompareIsSign(b, a);
    CompareIsSign(b, c);
    CompareIsSign(a, c);
    CanonicalUnique(a, b);
  }

  lemma ZeroIsZero(s: string)
    requires IsCanonical(s)
    ensures s == "0" <==> Value(s) == 0.0
  {
    assert "0"[..0] == "";
    assert DotIndex("0") == 1 by { assert "0"[1..] == ""; }
    CanonicalUnique(s, "0");
  }

  // ---------- checksum fields ----------

  /** `checksumField`: padded to `decimals` places, dot removed, leading zeros stripped. */
  function ChecksumField(canonical: string, decimals: nat): string {
    StripLeadingZeros(IntPart(canonical) + PadZeros(FracPart(canonical), decimals))
  }

  /** The number of places a field carries: the precision, or more when the text has more. */
  function Places(canonical: string, decimals: nat): nat {
    if |FracPart(canonical)| < decimals then decimals else |FracPart(canonical)|
  }

  /** `v` with its decimal point moved `n` places right: v * 10^n. */
  function Scale(v: real, n: nat): (r: real)
    ensures v == 0.0 <==> r == 0.0
    decreases n
  {
    if n == 0 then v else Scale(10.0 * v, n - 1)
  }

  lemma {:induction false} ScaleInjective(v: real, w: real, n: nat)
    ensures Scale(v, n) == Scale(w, n) <==> v == w
    decreases n
  {
    if n > 0 {
      ScaleInjective(10.0 * v, 10.0 * w, n - 1);
    }
  }

  lemma {:induction false} ScaleIsPow10(v: real, n: nat)
    ensures Scale(v, n) == v * Pow10(n) as real
    decreases n
  {
    if n > 0 {
      ScaleIsPow10(10.0 * v, n - 1);
      assert Pow10(n) as real == 10.0 * Pow10(n - 1) as real;
    }
  }

  /** Reading the fraction's digits as part of the numeral moves the dot past them. */
  lemma {:induction false} ShiftDot(whole: string, f: string)
    requires Digits(whole) && Digits(f)
    ensures Scale(Numeral(whole) as real + Fraction(f), |f|) == Numeral(whole + f) as real
    decreases |f|
  {
    if f == [] {
      assert whole + f == whole;
    } else {
      var next := whole + [f[0]];
      assert next[..|whole|] == whole;
      ShiftDot(next, f[1..]);
      assert next + f[1..] == whole + f;
    }
  }

  /** A checksum field is the digit string of value * 10^places without leading zeros. */
  lemma FieldIsScaledValue(c: string, decimals: nat)
    requires IsCanonical(c)
    ensures Digits(ChecksumField(c, decimals))
    ensures Numeral(ChecksumField(c, decimals)) as real == Scale(Value(c), Places(c, decimals))
    ensures ChecksumField(c, decimals) == "" <==> c == "0"
  {
    var f := PadZeros(FracPart(c), decimals);
    StripLeadingKeepsNumeral(IntPart(c) + f);
    ShiftDot(IntPart(c), f);
    PaddingKeepsFraction(FracPart(c), decimals);
    ZeroIsZero(c);
    var field := ChecksumField(c, decimals);
    assert field == "" <==> Numeral(field) == 0 by { NumeralBounds(field); }
  }

  lemma {:induction false} NumeralDeterminesText(a: string, b: string)
    requires Digits(a) && Digits(b)
    requires a != "" ==> a[0] != '0'
    requires b != "" ==> b[0] != '0'
    requires Numeral(a) == Numeral(b)
    ensures a == b
  {
    NumeralBounds(a);
    NumeralBounds(b);
    if |a| < |b| {
      PowMonotone(|a|, |b| - 1);
    } else if |b| < |a| {
      PowMonotone(|b|, |a| - 1);
    } else {
      TextOrderIsNumeralOrder(a, b);
    }
  }

  /** Fields agree exactly when the scaled values agree ... */
  lemma FieldsAgreeIff(a: string, b: string, decimals: nat)
    requires IsCanonical(a) && IsCanonical(b)
    ensures ChecksumField(a, decimals) == ChecksumField(b, decimals)
       <==> Scale(Value(a), Places(a, decimals)) == Scale(Value(b), Places(b, decimals))
  {
    FieldIsScaledValue(a, decimals);
    FieldIsScaledValue(b, decimals);
    if Numeral(ChecksumField(a, decimals)) == Numeral(ChecksumField(b, decimals)) {
      NumeralDeterminesText(ChecksumField(a, decimals), ChecksumField(b, decimals));
    }
  }

  /** ... so with the fraction inside the precision the field determines the number ... */
  lemma FieldInjective(a: string, b: string, decimals: nat)
    requires IsCanonical(a) && IsCanonical(b)
    requires |FracPart(a)| <= decimals && |FracPart(b)| <= decimals
    requires ChecksumField(a, decimals) == ChecksumField(b, decimals)
    ensures a == b
  {
    FieldsAgreeIff(a, b, decimals);
    ScaleInjective(Value(a), Value(b), decimals);
    CanonicalUnique(a, b);
  }

  /** ... and with a fraction beyond the precision it need not. */
  lemma FieldCollidesBeyondPrecision()
    ensures IsCanonical("1.25") && IsCanonical("12.5")
    ensures ChecksumField("1.25", 1) == ChecksumField("12.5", 1)
  {
    assert DotIndex("1.25") == 1 && DotIndex("12.5") == 2;
    assert ChecksumField("1.25", 1) == "125";
  }
}
