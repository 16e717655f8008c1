/** Decimal text for integers: the digits, the canonical rendering and the
    signed parse that the money and wire-format code build on. */
module DecimalText {
  import opened Wrappers

  predicate IsDigit(c: char) {
    '0' <= c <= '9'
  }

  predicate AllDigits(s: string) {
    forall i :: 0 <= i < |s| ==> IsDigit(s[i])
  }

  function DigitValue(c: char): (d: nat)
    requires IsDigit(c)
    ensures d <= 9
  {
    c as int - '0' as int
  }

  function DigitChar(d: nat): (c: char)
    requires d <= 9
    ensures IsDigit(c) && DigitValue(c) == d
  {
    ('0' as int + d) as char
  }

  /** The number a digit string denotes, most significant digit first. */
  function NatOf(s: string): nat
    requires AllDigits(s)
  {
    if s == "" then 0 else 10 * NatOf(s[..|s| - 1]) + DigitValue(s[|s| - 1])
  }

  /** n with k zeros appended: n times ten to the power k. */
  function Shift(n: nat, k: nat): (r: nat)
    ensures r >= n
  {
    if k == 0 then n else 10 * Shift(n, k - 1)
  }

  function Pow10(k: nat): (p: nat)
    ensures p >= 1
  {
    Shift(1, k)
  }

  /** The canonical digits of n: no leading zero except for 0 itself. */
  function Decimal(n: nat): (s: string)
    ensures |s| > 0 && AllDigits(s)
    ensures NatOf(s) == n
  {
    if n < 10 then
      var s := [DigitChar(n)];
      assert s[..|s| - 1] == "";
      s
    else
      var hi := Decimal(n / 10);
      var s := hi + [DigitChar(n % 10)];
      assert s[..|s| - 1] == hi;
      s
  }

  /** The last k digits of n, zero-padded. */
  function Padded(n: nat, k: nat): (s: string)
    ensures |s| == k && AllDigits(s)
    ensures n < Pow10(k) ==> NatOf(s) == n
    decreases k
  {
    if k == 0 then "" else
      var hi := Padded(n / 10, k - 1);
      var s := hi + [DigitChar(n % 10)];
      assert s[..|s| - 1] == hi;
      s
  }

  lemma {:induction false} NatOfBound(s: string)
    requires AllDigits(s)
    ensures NatOf(s) < Pow10(|s|)
  {
    if s != "" {
      NatOfBound(s[..|s| - 1]);
    }
  }

  lemma {:induction false} NatOfConcat(a: string, b: string)
    requires AllDigits(a) && AllDigits(b)
    ensures AllDigits(a + b)
    ensures NatOf(a + b) == Shift(NatOf(a), |b|) + NatOf(b)
  {
    if b == "" {
      assert a + b == a;
    } else {
      var b' := b[..|b| - 1];
      NatOfConcat(a, b');
      assert (a + b)[..|a + b| - 1] == a + b';
    }
  }

  lemma {:induction false} ShiftTwice(n: nat, a: nat, b: nat)
    ensures Shift(Shift(n, a), b) == Shift(n, a + b)
  {
    if b > 0 {
      ShiftTwice(n, a, b - 1);
    }
  }

  lemma {:induction false} ShiftGrows(m: nat, n: nat, k: nat)
    requires m < n
    ensures Shift(m, k) < Shift(n, k)
  {
    if k > 0 {
      ShiftGrows(m, n, k - 1);
    }
  }

  lemma {:induction false} ShiftIsTimes(n: nat, k: nat)
    ensures Shift(n, k) == n * Pow10(k)
  {
    if k > 0 {
      ShiftIsTimes(n, k - 1);
    }
  }

  /** The value never falls when digits are appended, so a prefix that is too
      large makes the whole too large. */
  lemma {:induction false} NatOfPrefix(s: string, k: nat)
    requires AllDigits(s) && k <= |s|
    ensures NatOf(s[..k]) <= NatOf(s)
  {
    if k < |s| {
      NatOfPrefix(s[..|s| - 1], k);
      assert s[..|s| - 1][..k] == s[..k];
    } else {
      assert s[..k] == s;
    }
  }

  /** No digit string for n is shorter than its canonical digits, and only the
      canonical digits are that short. */
  lemma {:induction false} DecimalIsShortest(s: string)
    requires s != "" && AllDigits(s)
    ensures |Decimal(NatOf(s))| <= |s|
    ensures |Decimal(NatOf(s))| == |s| ==> s == Decimal(NatOf(s))
  {
    var hi := s[..|s| - 1];
    if hi == "" {
      assert NatOf(hi) == 0;
    } else {
      DecimalIsShortest(hi);
      if NatOf(s) >= 10 {
        assert NatOf(s) / 10 == NatOf(hi);
      }
    }
    assert s == hi + [s[|s| - 1]];
  }

  // ---- signed integers ----

  function FormatInt(v: int): (s: string)
    ensures |s| > 0
  {
    if v < 0 then "-" + Decimal(-v) else Decimal(v)
  }

  /** Base-10 strconv.ParseInt for a type whose values run from lo to hi: one
      optional sign, at least one digit, value in range. */
  function ParseInt(s: string, lo: int, hi: int): (r: Option<int>)
    ensures r.Some? ==> lo <= r.value <= hi
  {
    var signed := s != "" && (s[0] == '+' || s[0] == '-');
    var digits := if signed then s[1..] else s;
    if digits == "" || !AllDigits(digits) then None else
      var v: int := if signed && s[0] == '-' then 0 - NatOf(digits) else NatOf(digits);
      if lo <= v <= hi then Some(v) else None
  }

  /** t is digits for v, after a plus or, for its negation, a minus sign or none. */
  predicate SpellsInt(t: string, v: int) {
    || (t != "" && AllDigits(t) && v == NatOf(t))
    || (|t| > 1 && t[0] == '+' && AllDigits(t[1..]) && v == NatOf(t[1..]))
    || (|t| > 1 && t[0] == '-' && AllDigits(t[1..]) && v == 0 - NatOf(t[1..]))
  }

  /** Exactly the spellings of the numbers in range parse, each to its number. */
  lemma ParsesSpellings(t: string, lo: int, hi: int, v: int)
    ensures ParseInt(t, lo, hi) == Some(v) <==> lo <= v <= hi && SpellsInt(t, v)
  {
    if t != "" && AllDigits(t) {
      assert IsDigit(t[0]);
    }
  }

  lemma ParseFormatInt(v: int, lo: int, hi: int)
    requires lo <= v <= hi
    ensures ParseInt(FormatInt(v), lo, hi) == Some(v)
  {
    var s := FormatInt(v);
    if v < 0 {
      assert s[1..] == Decimal(-v);
    } else {
      assert IsDigit(s[0]);
    }
  }

  /** Whatever spelling ParseInt accepts (a plus sign, a minus zero, leading
      zeros), rendering the value never lengthens it, and keeps its length only
      when the spelling was canonical already. */
  lemma FormatParseIntShrinks(s: string, lo: int, hi: int)
    requires ParseInt(s, lo, hi).Some?
    ensures var t := FormatInt(ParseInt(s, lo, hi).value);
            |t| <= |s| && (|t| == |s| ==> t == s)
  {
    if s[0] == '+' || s[0] == '-' {
      DecimalIsShortest(s[1..]);
      assert s == [s[0]] + s[1..];
    } else {
      DecimalIsShortest(s);
    }
  }
}
