/** Money in minor units (biz/money.go): rendering and the exact decimal parse. */
module Money {
  import opened Wrappers
  import opened DecimalText

  const MAX_INT64 := 0x7FFF_FFFF_FFFF_FFFF

  newtype int64 = x: int | -0x8000_0000_0000_0000 <= x <= 0x7FFF_FFFF_FFFF_FFFF

  newtype int8 = x: int | -128 <= x <= 127

  /** Strings hold one character per byte. */
  datatype Money = Money(amount: int64, currency: string, exponent: int8) {
    predicate Valid() {
      && 0 <= amount
      && |currency| == 3
      && (forall i :: 0 <= i < 3 ==> 'A' <= currency[i] <= 'Z')
      && 0 <= exponent <= 4
    }
  }

  datatype ParseError = BadExponent | NotDecimal | DecimalsAtExponentZero | TooManyDecimals | Overflow

  // ---- the text form ----

  function IndexOf(s: string, c: char): (i: nat)
    ensures i <= |s|
    ensures c !in s[..i]
    ensures i < |s| ==> s[i] == c
  {
    if s == "" || s[0] == c then 0 else
      var i := IndexOf(s[1..], c);
      assert s[..i + 1] == [s[0]] + s[1..][..i];
      i + 1
  }

  predicate HasPoint(s: string) { IndexOf(s, '.') < |s| }

  function Whole(s: string): string { s[..IndexOf(s, '.')] }

  function Fraction(s: string): string { if HasPoint(s) then s[IndexOf(s, '.') + 1..] else "" }

  /** A plain decimal with at most `exponent` fraction digits, and no point at
      all when the exponent is zero. */
  predicate IsAmount(s: string, exponent: nat) {
    && Whole(s) != "" && AllDigits(Whole(s))
    && AllDigits(Fraction(s))
    && (HasPoint(s) ==> 0 < |Fraction(s)| <= exponent)
  }

  /** The amount with its point moved `exponent` places to the right: the digits
      before the point, those after it, and zeros to fill. */
  function MinorDigits(s: string, exponent: nat): (d: string)
    requires IsAmount(s, exponent)
    ensures AllDigits(d)
  {
    Whole(s) + Fraction(s) + seq(exponent - |Fraction(s)|, _ => '0')
  }

  function MinorValue(s: string, exponent: nat): nat
    requires IsAmount(s, exponent)
  {
    NatOf(MinorDigits(s, exponent))
  }

  lemma {:induction false} NatOfZeros(k: nat)
    ensures AllDigits(seq(k, _ => '0')) && NatOf(seq(k, _ => '0')) == 0
  {
    if k > 0 {
      NatOfZeros(k - 1);
      assert seq(k, _ => '0')[..k - 1] == seq(k - 1, _ => '0');
    }
  }

  lemma MinorValueSplits(s: string, exponent: nat)
    requires IsAmount(s, exponent)
    ensures MinorValue(s, exponent)
         == Shift(NatOf(Whole(s)), exponent) + Shift(NatOf(Fraction(s)), exponent - |Fraction(s)|)
  {
    var zeros := seq(exponent - |Fraction(s)|, _ => '0');
    NatOfZeros(|zeros|);
    NatOfConcat(Fraction(s), zeros);
    NatOfConcat(Whole(s), Fraction(s) + zeros);
    assert Whole(s) + (Fraction(s) + zeros) == MinorDigits(s, exponent);
  }

  // ---- ParseMinor ----

  /** The digit loop shared by both halves of the amount. All arithmetic is
      int64, so its verification also shows that nothing overflows. */
  method Digits(str: string) returns (r: Result<int64, ParseError>)
    ensures r.Success? <==> AllDigits(str) && NatOf(str) <= MAX_INT64
    ensures r.Success? ==> r.value as int == NatOf(str)
    ensures r.Failure? && AllDigits(str) ==> r.error == Overflow
    ensures r.Failure? && !AllDigits(str) ==> r.error == NotDecimal || r.error == Overflow
  {
    var v: int64 := 0;
    for i := 0 to |str|
      invariant AllDigits(str[..i])
      invariant v as int == NatOf(str[..i])
    {
      if !IsDigit(str[i]) {
        return Failure(NotDecimal);
      }
      assert str[..i + 1][..i] == str[..i];
      var d: int64 := DigitValue(str[i]) as int64;
      if v > (0x7FFF_FFFF_FFFF_FFFF - d) / 10 {
        assert NatOf(str[..i + 1]) > MAX_INT64;
        if AllDigits(str) {
          NatOfPrefix(str, i + 1);
        }
        return Failure(Overflow);
      }
      v := v * 10 + d;
    }
    assert str[..|str|] == str;
    r := Success(v);
  }

  method ParseMinor(s: string, exponent: int8) returns (r: Result<int64, ParseError>)
    ensures r.Success? <==> && 0 <= exponent <= 4
                            && IsAmount(s, exponent as nat)
                            && MinorValue(s, exponent as nat) <= MAX_INT64
    ensures r.Success? ==> r.value as int == MinorValue(s, exponent as nat)
    ensures 0 <= exponent <= 4 && IsAmount(s, exponent as nat) && r.Failure? ==> r.error == Overflow
    ensures r == Failure(BadExponent) <==> !(0 <= exponent <= 4)
    ensures r == Failure(DecimalsAtExponentZero) <==>
              exponent == 0 && HasPoint(s) && Whole(s) != "" && Fraction(s) != ""
    ensures r == Failure(TooManyDecimals) <==>
              1 <= exponent <= 4 && Whole(s) != "" && |Fraction(s)| > exponent as nat
  {
    if exponent < 0 || exponent > 4 {
      return Failure(BadExponent);
    }
    var e := exponent as nat;
    var point := IndexOf(s, '.');
    var hasDot := point < |s|;
    var whole, frac := s[..point], if hasDot then s[point + 1..] else "";
    if whole == "" || (hasDot && frac == "") {
      return Failure(NotDecimal);
    }
    if hasDot && exponent == 0 {
      return Failure(DecimalsAtExponentZero);
    }
    if hasDot && |frac| > e {
      return Failure(TooManyDecimals);
    }
    var w := Digits(whole);
    if w.Failure? {
      if IsAmount(s, e) {
        WholeAlone(s, e);
      }
      return w;
    }
    var f: int64 := 0;
    if hasDot {
      var parsed := Digits(frac);
      if parsed.Failure? {
        if AllDigits(frac) {
          FractionSmall(frac, e, 0);
        }
        return parsed;
      }
      f := parsed.value;
    }
    f := ScaleUp(f, frac, e);
    var pow := PowerOfTen(e);
    MinorValueSplits(s, e);
    ShiftIsTimes(w.value as nat, e);
    r := Combine(w.value, f, pow);
  }

  /** The closing range test and sum. */
  method Combine(w: int64, f: int64, pow: int64) returns (r: Result<int64, ParseError>)
    requires 0 <= w && 0 <= f && 1 <= pow
    ensures r.Success? <==> w as int * pow as int + f as int <= MAX_INT64
    ensures r.Success? ==> r.value as int == w as int * pow as int + f as int
    ensures r.Failure? ==> r.error == Overflow
  {
    QuotientTest(w as nat, MAX_INT64 - f as nat, pow as nat);
    if w > (0x7FFF_FFFF_FFFF_FFFF - f) / pow {
      return Failure(Overflow);
    }
    r := Success(w * pow + f);
  }

  /** Pads the fraction out to `e` digits by repeated multiplication. */
  method ScaleUp(f: int64, frac: string, e: nat) returns (scaled: int64)
    requires AllDigits(frac) && |frac| <= e <= 4 && f as int == NatOf(frac)
    ensures scaled as int == Shift(NatOf(frac), e - |frac|)
    ensures 0 <= scaled < 10000
  {
    scaled := f;
    FractionSmall(frac, e, 0);
    for i := 0 to e - |frac|
      invariant scaled as int == Shift(NatOf(frac), i) < 10000
    {
      FractionSmall(frac, e, i + 1);
      scaled := scaled * 10;
    }
  }

  method PowerOfTen(e: nat) returns (pow: int64)
    requires e <= 4
    ensures pow as int == Pow10(e)
    ensures 1 <= pow <= 10000
  {
    pow := 1;
    for i := 0 to e
      invariant pow as int == Pow10(i) <= 10000
    {
      PowersUpToFour(i + 1);
      pow := pow * 10;
    }
  }

  lemma PowersUpToFour(k: nat)
    requires k <= 4
    ensures Pow10(k) <= 10000
  {
    assert Pow10(1) == 10 && Pow10(2) == 100 && Pow10(3) == 1000 && Pow10(4) == 10000;
  }

  lemma FractionSmall(frac: string, e: nat, i: nat)
    requires AllDigits(frac) && |frac| <= e <= 4 && i <= e - |frac|
    ensures Shift(NatOf(frac), i) < 10000
  {
    NatOfBound(frac);
    ShiftGrows(NatOf(frac), Pow10(|frac|), i);
    ShiftTwice(1, |frac|, i);
    PowersUpToFour(|frac| + i);
  }

  lemma WholeAlone(s: string, e: nat)
    requires IsAmount(s, e)
    ensures NatOf(Whole(s)) <= MinorValue(s, e)
  {
    NatOfPrefix(MinorDigits(s, e), |Whole(s)|);
    assert MinorDigits(s, e)[..|Whole(s)|] == Whole(s);
  }

  lemma MulLe(a: int, b: int, p: int)
    requires a <= b && 0 <= p
    ensures a * p <= b * p
  {
  }

  lemma QuotientTest(w: nat, n: nat, p: nat)
    requires 0 < p
    ensures n / p <= n
    ensures w <= n / p <==> w * p <= n
    ensures w <= w * p
  {
    var q := n / p;
    DivMod(n, p);
    assert n < (q + 1) * p by {
      assert (q + 1) * p == q * p + p;
    }
    if w <= q {
      MulLe(w, q, p);
    } else {
      MulLe(q + 1, w, p);
    }
    MulLe(1, p, q);
    MulLe(1, p, w);
  }

  // ---- String ----

  /** The digits String prints after the currency code. */
  function Numeric(m: Money): string
    requires m.Valid()
  {
    var e := m.exponent as nat;
    if e == 0 then Decimal(m.amount as nat)
    else Decimal(m.amount as nat / Pow10(e)) + "." + Padded(m.amount as nat % Pow10(e), e)
  }

  function FormatInvalid(m: Money): string {
    m.currency + " INVALID(" + FormatInt(m.amount as int) + " e" + FormatInt(m.exponent as int) + ")"
  }

  function Text(m: Money): string { if m.Valid() then m.currency + " " + Numeric(m) else FormatInvalid(m) }

  method String(m: Money) returns (text: string)
    ensures text == Text(m)
  {
    if !m.Valid() {
      return FormatInvalid(m);
    }
    if m.exponent == 0 {
      return m.currency + " " + Decimal(m.amount as nat);
    }
    var pow := PowerOfTen(m.exponent as nat);
    text := m.currency + " " +
      (Decimal((m.amount / pow) as nat) + "." + Padded((m.amount % pow) as nat, m.exponent as nat));
  }

  lemma {:induction false} IndexOfAfter(a: string, c: char, b: string)
    requires c !in a
    ensures IndexOf(a + [c] + b, c) == |a|
  {
    if a != "" {
      assert (a + [c] + b)[1..] == a[1..] + [c] + b;
      IndexOfAfter(a[1..], c, b);
    }
  }

  /** Parsing the numeric part of a valid amount at its own exponent gives the
      amount back, whatever it is. */
  lemma NumericParsesBack(m: Money)
    requires m.Valid()
    ensures IsAmount(Numeric(m), m.exponent as nat)
    ensures MinorValue(Numeric(m), m.exponent as nat) == m.amount as int
    ensures |Fraction(Numeric(m))| == m.exponent as nat
  {
    var e, n := m.exponent as nat, m.amount as nat;
    if e == 0 {
      WholeParsesBack(n);
    } else {
      var p := Pow10(e);
      DivMod(n, p);
      PointedParsesBack(n / p, n % p, e);
    }
    hide IsAmount, MinorValue, Fraction, Shift, Decimal, Padded;
  }

  lemma WholeParsesBack(n: nat)
    ensures IsAmount(Decimal(n), 0) && MinorValue(Decimal(n), 0) == n && |Fraction(Decimal(n))| == 0
  {
    assert IndexOf(Decimal(n), '.') == |Decimal(n)|;
    assert MinorDigits(Decimal(n), 0) == Decimal(n);
  }

  lemma DivMod(n: nat, p: nat)
    requires p > 0
    ensures n / p * p + n % p == n && n % p < p
  {
  }

  lemma PointedParsesBack(q: nat, r: nat, e: nat)
    requires e > 0 && r < Pow10(e)
    ensures var text := Decimal(q) + "." + Padded(r, e);
            && IsAmount(text, e) && |Fraction(text)| == e
            && MinorValue(text, e) == q * Pow10(e) + r
  {
    var whole, frac := Decimal(q), Padded(r, e);
    var text := whole + ['.'] + frac;
    IndexOfAfter(whole, '.', frac);
    assert text == whole + "." + frac;
    assert Whole(text) == whole && Fraction(text) == frac;
    MinorValueSplits(text, e);
    ShiftIsTimes(q, e);
  }

  /** Three capitals, a space, and an amount with at most four digits after its point. */
  ghost predicate ReadsAsMoney(text: string) {
    && |text| > 4 && (forall i :: 0 <= i < 3 ==> 'A' <= text[i] <= 'Z') && text[3] == ' '
    && exists e: nat :: e <= 4 && IsAmount(text[4..], e) && |Fraction(text[4..])| == e
  }

  lemma AmountEndsInDigit(s: string, e: nat)
    requires IsAmount(s, e)
    ensures s != "" && IsDigit(s[|s| - 1])
  {
    if HasPoint(s) {
      assert s[|s| - 1] == Fraction(s)[|Fraction(s)| - 1];
    }
  }

  lemma ValidReads(m: Money)
    requires m.Valid()
    ensures ReadsAsMoney(Text(m))
  {
    NumericParsesBack(m);
    AmountEndsInDigit(Numeric(m), m.exponent as nat);
    hide Numeric, IsAmount, MinorValue, Fraction;
    var text := Text(m);
    assert text[..3] == m.currency && text[4..] == Numeric(m);
    assert forall i :: 0 <= i < 3 ==> text[i] == m.currency[i];
    var e := m.exponent as nat;
    assert IsAmount(text[4..], e) && |Fraction(text[4..])| == e;
  }

  lemma InvalidEndsInBracket(m: Money)
    requires !m.Valid()
    ensures Text(m) != "" && Text(m)[|Text(m)| - 1] == ')'
  {
  }

  /** What is printed reads as money exactly if it is valid. */
  lemma OnlyValidReads(m: Money)
    ensures ReadsAsMoney(Text(m)) <==> m.Valid()
  {
    if m.Valid() {
      ValidReads(m);
    } else {
      InvalidEndsInBracket(m);
      hide Text, IsAmount, Fraction;
      if ReadsAsMoney(Text(m)) {
        var e: nat :| e <= 4 && IsAmount(Text(m)[4..], e) && |Fraction(Text(m)[4..])| == e;
        AmountEndsInDigit(Text(m)[4..], e);
        assert false;
      }
    }
  }

  /** The rendering loses nothing: two valid amounts print the same exactly if they
      are the same amount, currency and exponent. */
  lemma StringIsInjective(m: Money, m': Money)
    requires m.Valid() && m'.Valid()
    ensures m.currency + " " + Numeric(m) == m'.currency + " " + Numeric(m') <==> m == m'
  {
    var text, text' := m.currency + " " + Numeric(m), m'.currency + " " + Numeric(m');
    if text == text' {
      assert m.currency == text[..3] == m'.currency;
      assert Numeric(m) == text[4..] == Numeric(m');
      NumericParsesBack(m);
      NumericParsesBack(m');
    }
  }
}
