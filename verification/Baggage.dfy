/** The biz.vc wire codec (biz/baggage.go): eleven '|'-separated fields, every
    string field percent-escaped, 512 bytes at most. */
module Baggage {
  import opened Wrappers
  import opened DecimalText

  const MAX_ENCODED_BYTES := 512
  const CODEC_VERSION := "1"
  const MAX_DEADLINE_UNIX := 32503680000
  const NANOS_PER_SECOND := 1000000000
  const MIN_INT64 := -0x8000_0000_0000_0000
  const MAX_INT64 := 0x7FFF_FFFF_FFFF_FFFF

  /** One character of a wire string stands for one byte. */
  type byte = c: char | c as int < 256 witness 'a'

  type bytes = seq<byte>

  /** A deadline is an instant in nanoseconds since the Unix epoch; None is the
      zero time. */
  datatype ValueContext = ValueContext(
    flow: bytes, entity: bytes, customer: bytes, segment: bytes,
    amount: int, currency: bytes, exponent: int, kind: bytes,
    estimated: bool, deadline: Option<int>)
  {
    /** The ranges of the fixed-width Go fields. */
    predicate Typed() {
      MIN_INT64 <= amount <= MAX_INT64 && -128 <= exponent <= 127
    }
  }

  datatype EncodeError = DeadlineOutOfDomain | Oversize(size: nat)

  datatype DecodeError =
    | TooLong | WrongFieldCount | UnknownVersion | BadString | BadNumber | BadFlags | BadDeadline

  // ---- escaping ----

  predicate NeedsEscape(c: byte) {
    || c == '|' || c == '%' || c == '"' || c == ',' || c == ';' || c == '\\' || c == ' '
    || (c as int) < 0x21 || (c as int) > 0x7E
  }

  /** baggage-octet of section 3.3.1 of the W3C Baggage specification. */
  predicate IsBaggageOctet(c: byte) {
    var v := c as int;
    v == 0x21 || 0x23 <= v <= 0x2B || 0x2D <= v <= 0x3A || 0x3C <= v <= 0x5B || 0x5D <= v <= 0x7E
  }

  function HexDigit(n: nat): (c: byte)
    requires n < 16
  {
    (if n < 10 then '0' as int + n else 'A' as int + (n - 10)) as char
  }

  /** The value of an uppercase hexadecimal digit, None for anything else. */
  function HexVal(c: byte): (n: Option<nat>)
    ensures n.Some? ==> n.value < 16 && c == HexDigit(n.value)
  {
    if '0' <= c <= '9' then Some(c as int - '0' as int)
    else if 'A' <= c <= 'F' then Some(c as int - 'A' as int + 10)
    else None
  }

  /** Fit to stand in one field of the wire text. */
  predicate Clean(s: bytes) {
    forall i :: 0 <= i < |s| ==> IsBaggageOctet(s[i]) && s[i] != '|'
  }

  /** t is what s becomes when re-encoded: never longer, and s itself if as long. */
  predicate Shrinks(t: bytes, s: bytes) {
    |t| <= |s| && (|t| == |s| ==> t == s)
  }

  function EscapeByte(c: byte): bytes {
    if NeedsEscape(c) then ['%', HexDigit(c as int / 16), HexDigit(c as int % 16)] else [c]
  }

  function Escape(s: bytes): bytes {
    if s == [] then [] else EscapeByte(s[0]) + Escape(s[1..])
  }

  function Prepend(b: bytes, tail: Option<bytes>): Option<bytes> {
    if tail.None? then None else Some(b + tail.value)
  }

  function Unescape(s: bytes): Option<bytes> {
    if s == [] then Some([])
    else if s[0] != '%' then
      if NeedsEscape(s[0]) then None else Prepend([s[0]], Unescape(s[1..]))
    else if |s| < 3 then None
    else
      var hi, lo := HexVal(s[1]), HexVal(s[2]);
      if hi.None? || lo.None? then None
      else Prepend([(hi.value * 16 + lo.value) as char], Unescape(s[3..]))
  }

  /** Appends the escaped form of s to the output b, byte by byte. */
  method EscapeInto(b: bytes, s: bytes) returns (b': bytes)
    ensures b' == b + Escape(s)
  {
    b' := b;
    for i := 0 to |s|
      invariant b' + Escape(s[i..]) == b + Escape(s)
    {
      var c := s[i];
      assert s[i..][1..] == s[i + 1..];
      assert b' + (EscapeByte(c) + Escape(s[i + 1..])) == (b' + EscapeByte(c)) + Escape(s[i + 1..]);
      if NeedsEscape(c) {
        b' := b' + ['%', HexDigit(c as int / 16), HexDigit(c as int % 16)];
      } else {
        b' := b' + [c];
      }
    }
  }

  lemma {:induction false} UnescapeClean(s: bytes)
    requires forall i :: 0 <= i < |s| ==> !NeedsEscape(s[i])
    ensures Unescape(s) == Some(s)
  {
    if s != [] {
      UnescapeClean(s[1..]);
      assert s == [s[0]] + s[1..];
    }
  }

  method UnescapeField(s: bytes) returns (r: Option<bytes>)
    ensures r == Unescape(s)
  {
    var clean := true;
    var j := 0;
    while j < |s| && clean
      invariant 0 <= j <= |s|
      invariant clean ==> forall k :: 0 <= k < j ==> !NeedsEscape(s[k])
      decreases |s| - j, clean
    {
      if s[j] == '%' || NeedsEscape(s[j]) {
        clean := false;
      } else {
        j := j + 1;
      }
    }
    if clean {
      UnescapeClean(s);
      return Some(s);
    }
    var b: bytes := [];
    var i := 0;
    assert s[0..] == s;
    assert Unescape(s).Some? ==> b + Unescape(s).value == Unescape(s).value;
    while i < |s|
      invariant 0 <= i <= |s|
      invariant Unescape(s) == Prepend(b, Unescape(s[i..]))
    {
      var c := s[i];
      assert s[i..][1..] == s[i + 1..];
      if c != '%' {
        if NeedsEscape(c) {
          return None;
        }
        PrependTwice(b, [c], Unescape(s[i + 1..]));
        b := b + [c];
        i := i + 1;
      } else {
        if i + 2 >= |s| {
          return None;
        }
        var hi, lo := HexVal(s[i + 1]), HexVal(s[i + 2]);
        if hi.None? || lo.None? {
          return None;
        }
        assert s[i..][3..] == s[i + 3..];
        var decoded: bytes := [(hi.value * 16 + lo.value) as char];
        PrependTwice(b, decoded, Unescape(s[i + 3..]));
        b := b + decoded;
        i := i + 3;
      }
    }
    assert s[i..] == [];
    assert b + [] == b;
    r := Some(b);
  }

  lemma PrependTwice(a: bytes, b: bytes, tail: Option<bytes>)
    ensures Prepend(a, Prepend(b, tail)) == Prepend(a + b, tail)
  {
    if tail.Some? {
      assert a + (b + tail.value) == (a + b) + tail.value;
    }
  }

  lemma HexDigitRoundTrip(n: nat)
    requires n < 16
    ensures HexVal(HexDigit(n)) == Some(n)
    ensures !NeedsEscape(HexDigit(n)) && IsBaggageOctet(HexDigit(n))
  {
  }

  /** Escaping can always be undone, and emits only bytes that the baggage value
      grammar allows, never the field delimiter. */
  lemma {:induction false} UnescapeEscape(s: bytes)
    ensures Unescape(Escape(s)) == Some(s)
    ensures Clean(Escape(s))
  {
    if s != [] {
      var c, rest := s[0], Escape(s[1..]);
      UnescapeEscape(s[1..]);
      assert s == [c] + s[1..];
      if NeedsEscape(c) {
        HexDigitRoundTrip(c as int / 16);
        HexDigitRoundTrip(c as int % 16);
        assert Escape(s)[3..] == rest;
      } else {
        assert Escape(s)[1..] == rest;
      }
    }
  }

  /** Any escaped text that decodes re-encodes no longer, and equally long only
      if it was canonical. */
  lemma {:induction false} EscapeUnescapeShrinks(s: bytes)
    requires Unescape(s).Some?
    ensures Shrinks(Escape(Unescape(s).value), s)
  {
    if s == [] {
    } else if s[0] != '%' {
      EscapeUnescapeShrinks(s[1..]);
      assert Unescape(s).value[1..] == Unescape(s[1..]).value;
      assert s == [s[0]] + s[1..];
    } else {
      EscapeUnescapeShrinks(s[3..]);
      var c := Unescape(s).value[0];
      assert Unescape(s).value[1..] == Unescape(s[3..]).value;
      assert c as int / 16 == HexVal(s[1]).value && c as int % 16 == HexVal(s[2]).value;
      assert s == [s[0], s[1], s[2]] + s[3..];
    }
  }

  // ---- what escaped text is ----

  const HEX_DIGITS := "0123456789ABCDEF"

  /** A byte that stands for itself on the wire. */
  predicate Ordinary(c: byte) { IsBaggageOctet(c) && c != '|' && c != '%' }

  /** t is s with any of its bytes, and every one that is not ordinary, written as
      '%' and its two hexadecimal digits. */
  predicate Spells(t: bytes, s: bytes) {
    if s == [] then t == []
    else
      || (t != [] && t[0] == s[0] && Ordinary(s[0]) && Spells(t[1..], s[1..]))
      || (|t| >= 3 && t[0] == '%' && t[1] == HEX_DIGITS[s[0] as int / 16] && t[2] == HEX_DIGITS[s[0] as int % 16]
          && Spells(t[3..], s[1..]))
  }

  lemma HexValIsIndex(c: byte, n: nat)
    requires n < 16
    ensures HexVal(c) == Some(n) <==> c == HEX_DIGITS[n]
  {
    HexDigitRoundTrip(n);
  }

  lemma NibblesMakeByte(hi: nat, lo: nat, c: byte)
    requires hi < 16 && lo < 16
    ensures c == (hi * 16 + lo) as char <==> hi == c as int / 16 && lo == c as int % 16
  {
  }

  /** Exactly the spellings of a text unescape to it: nothing else is accepted, an
      ordinary byte never has to be escaped, and any other never may stand raw. */
  lemma {:induction false} UnescapesSpellings(t: bytes, s: bytes)
    ensures Unescape(t) == Some(s) <==> Spells(t, s)
  {
    if t == [] {
    } else if t[0] != '%' {
      if s != [] {
        UnescapesSpellings(t[1..], s[1..]);
        assert s == [s[0]] + s[1..];
      }
    } else if |t| >= 3 && s != [] {
      UnescapesSpellings(t[3..], s[1..]);
      assert s == [s[0]] + s[1..];
      HexValIsIndex(t[1], s[0] as int / 16);
      HexValIsIndex(t[2], s[0] as int % 16);
      if HexVal(t[1]).Some? && HexVal(t[2]).Some? {
        NibblesMakeByte(HexVal(t[1]).value, HexVal(t[2]).value, s[0]);
      }
    }
  }

  lemma EscapesOneByte(c: byte)
    ensures EscapeByte(c) == if Ordinary(c) then [c] else ['%', HEX_DIGITS[c as int / 16], HEX_DIGITS[c as int % 16]]
  {
    HexDigitRoundTrip(c as int / 16);
    HexDigitRoundTrip(c as int % 16);
    HexValIsIndex(HexDigit(c as int / 16), c as int / 16);
    HexValIsIndex(HexDigit(c as int % 16), c as int % 16);
    hide HexDigit, HexVal;
  }

  /** Escaping goes byte by byte and leaves ordinary bytes alone. */
  lemma {:induction false} EscapesOnlyTheOthers(s: bytes, c: byte)
    ensures Escape(s + [c]) == Escape(s) + if Ordinary(c) then [c]
                                           else ['%', HEX_DIGITS[c as int / 16], HEX_DIGITS[c as int % 16]]
  {
    EscapesOneByte(c);
    hide EscapeByte, Ordinary;
    if s == [] {
      assert Escape([c]) == EscapeByte(c) + Escape([]);
    } else {
      EscapesOnlyTheOthers(s[1..], c);
      assert (s + [c])[1..] == s[1..] + [c];
    }
  }

  /** So a text is escaped as itself exactly if all its bytes are ordinary. */
  lemma {:induction false} OrdinaryStaysRaw(s: bytes)
    ensures |Escape(s)| >= |s|
    ensures Escape(s) == s <==> forall i :: 0 <= i < |s| ==> Ordinary(s[i])
    ensures |Escape(s)| == |s| ==> Escape(s) == s
  {
    if s != [] {
      var n := |s| - 1;
      OrdinaryStaysRaw(s[..n]);
      EscapesOnlyTheOthers(s[..n], s[n]);
      assert s == s[..n] + [s[n]];
    }
  }

  // ---- fields ----

  function Join(fields: seq<bytes>): bytes
    requires fields != []
  {
    if |fields| == 1 then fields[0] else fields[0] + ['|'] + Join(fields[1..])
  }

  function Split(s: bytes): (fields: seq<bytes>)
    ensures fields != []
  {
    if s == [] then [[]]
    else
      var rest := Split(s[1..]);
      if s[0] == '|' then [[]] + rest else [[s[0]] + rest[0]] + rest[1..]
  }

  lemma {:induction false} JoinSplit(s: bytes)
    ensures Join(Split(s)) == s
    ensures forall i :: 0 <= i < |Split(s)| ==> '|' !in Split(s)[i]
  {
    if s != [] {
      JoinSplit(s[1..]);
      var rest := Split(s[1..]);
      assert s == [s[0]] + s[1..];
      if s[0] == '|' {
        assert Split(s)[1..] == rest;
      } else {
        assert Split(s)[1..] == rest[1..];
      }
    }
  }

  lemma {:induction false} SplitJoin(fields: seq<bytes>)
    requires fields != []
    requires forall i :: 0 <= i < |fields| ==> '|' !in fields[i]
    ensures Split(Join(fields)) == fields
    decreases |fields|, |fields[0]|
  {
    var f := fields[0];
    if f == [] {
      if |fields| > 1 {
        SplitJoin(fields[1..]);
        assert Join(fields)[1..] == Join(fields[1..]);
      }
      assert fields == [f] + fields[1..];
    } else {
      var shorter := [f[1..]] + fields[1..];
      assert shorter[1..] == fields[1..];
      SplitJoin(shorter);
      assert Join(fields) == [f[0]] + Join(shorter);
      assert [f[0]] + f[1..] == f;
      assert fields == [f] + fields[1..];
    }
  }

  /** Field-wise shorter makes the whole shorter, and equal only if equal. */
  lemma {:induction false} JoinShrinks(short: seq<bytes>, long: seq<bytes>)
    requires |short| == |long| > 0
    requires forall i :: 0 <= i < |short| ==> Shrinks(short[i], long[i])
    ensures |Join(short)| <= |Join(long)|
    ensures |Join(short)| == |Join(long)| ==> short == long
  {
    if |short| == 1 {
    } else {
      JoinShrinks(short[1..], long[1..]);
      assert short == [short[0]] + short[1..] && long == [long[0]] + long[1..];
    }
  }

  // ---- EncodeVC ----

  function UnixSeconds(nanos: int): int { nanos / NANOS_PER_SECOND }

  predicate DeadlineEncodable(d: Option<int>) {
    d.Some? ==> 0 < UnixSeconds(d.value) <= MAX_DEADLINE_UNIX
  }

  function WireDeadline(d: Option<int>): int {
    if d.None? then 0 else UnixSeconds(d.value)
  }

  function FormatBytes(v: int): (s: bytes)
    ensures s == FormatInt(v)
  {
    FormatIntIsText(v);
    var s := FormatInt(v);
    assert forall i :: 0 <= i < |s| ==> s[i] == '-' || IsDigit(s[i]);
    s
  }

  lemma FormatIntIsText(v: int)
    ensures forall i :: 0 <= i < |FormatInt(v)| ==> FormatInt(v)[i] == '-' || IsDigit(FormatInt(v)[i])
  {
  }

  function Fields(vc: ValueContext): (fs: seq<bytes>)
    ensures |fs| == 11
  {
    [CODEC_VERSION,
     Escape(vc.flow), Escape(vc.entity), Escape(vc.customer), Escape(vc.segment),
     FormatBytes(vc.amount), Escape(vc.currency), FormatBytes(vc.exponent), Escape(vc.kind),
     if vc.estimated then "1" else "0",
     FormatBytes(WireDeadline(vc.deadline))]
  }

  function Encoding(vc: ValueContext): bytes { Join(Fields(vc)) }

  /** The eleven fields in wire order. */
  method WriteFields(vc: ValueContext, flags: int, deadline: int) returns (b: bytes)
    requires flags == (if vc.estimated then 1 else 0) && deadline == WireDeadline(vc.deadline)
    ensures b == Encoding(vc)
  {
    ghost var fs := Fields(vc);
    b := CODEC_VERSION;
    var texts := [vc.flow, vc.entity, vc.customer, vc.segment];
    for i := 0 to 4
      invariant b == JoinUpTo(fs, i + 1)
    {
      b := EscapeInto(b + ['|'], texts[i]);
      assert Escape(texts[i]) == fs[i + 1];
    }
    b := WriteMoney(vc, b, fs);
    b := EscapeInto(b + ['|'], vc.kind);
    assert b == JoinUpTo(fs, 9);
    b := b + ['|'] + FormatBytes(flags);
    assert FormatBytes(flags) == fs[9];
    b := b + ['|'] + FormatBytes(deadline);
    assert b == JoinUpTo(fs, 11);
    JoinUpToIsJoin(fs);
  }

  method WriteMoney(vc: ValueContext, b: bytes, ghost fs: seq<bytes>) returns (b': bytes)
    requires fs == Fields(vc) && b == JoinUpTo(fs, 5)
    ensures b' == JoinUpTo(fs, 8)
  {
    b' := b + ['|'] + FormatBytes(vc.amount);
    assert b' == JoinUpTo(fs, 6);
    b' := EscapeInto(b' + ['|'], vc.currency);
    assert b' == JoinUpTo(fs, 7);
    b' := b' + ['|'] + FormatBytes(vc.exponent);
  }

  method EncodeVC(vc: ValueContext) returns (r: Result<bytes, EncodeError>)
    ensures r == if !DeadlineEncodable(vc.deadline) then Failure(DeadlineOutOfDomain)
                 else if |Encoding(vc)| > MAX_ENCODED_BYTES then Failure(Oversize(|Encoding(vc)|))
                 else Success(Encoding(vc))
  {
    var deadline := 0;
    if vc.deadline.Some? {
      deadline := UnixSeconds(vc.deadline.value);
      if deadline <= 0 || deadline > MAX_DEADLINE_UNIX {
        return Failure(DeadlineOutOfDomain);
      }
    }
    var flags := 0;
    if vc.estimated {
      flags := 1;
    }
    var b := WriteFields(vc, flags, deadline);
    if |b| > MAX_ENCODED_BYTES {
      return Failure(Oversize(|b|));
    }
    r := Success(b);
  }

  /** The first n fields joined left to right, as the builder grows. */
  ghost function JoinUpTo(fields: seq<bytes>, n: nat): bytes
    requires 0 < n <= |fields|
  {
    if n == 1 then fields[0] else JoinUpTo(fields, n - 1) + ['|'] + fields[n - 1]
  }

  lemma {:induction false} JoinSnoc(fields: seq<bytes>, last: bytes)
    requires fields != []
    ensures Join(fields + [last]) == Join(fields) + ['|'] + last
  {
    if |fields| > 1 {
      JoinSnoc(fields[1..], last);
      assert (fields + [last])[1..] == fields[1..] + [last];
    } else {
      assert (fields + [last])[1..] == [last];
    }
  }

  lemma {:induction false} JoinUpToPrefix(fields: seq<bytes>, n: nat)
    requires 0 < n <= |fields|
    ensures JoinUpTo(fields, n) == Join(fields[..n])
  {
    if n > 1 {
      JoinUpToPrefix(fields, n - 1);
      JoinSnoc(fields[..n - 1], fields[n - 1]);
      assert fields[..n] == fields[..n - 1] + [fields[n - 1]];
    }
  }

  lemma JoinUpToIsJoin(fields: seq<bytes>)
    requires fields != []
    ensures JoinUpTo(fields, |fields|) == Join(fields)
  {
    JoinUpToPrefix(fields, |fields|);
    assert fields[..|fields|] == fields;
  }

  // ---- DecodeVC ----

  const BLANK := ValueContext([], [], [], [], 0, [], 0, [], false, None)

  /** The context a well-formed list of fields denotes. Deadlines come back as
      whole seconds. */
  function DecodeFields(fs: seq<bytes>): Option<ValueContext>
    requires |fs| == 11
  {
    var flow, entity, customer := Unescape(fs[1]), Unescape(fs[2]), Unescape(fs[3]);
    var segment, currency, kind := Unescape(fs[4]), Unescape(fs[6]), Unescape(fs[8]);
    var amount := ParseInt(fs[5], MIN_INT64, MAX_INT64);
    var exponent := ParseInt(fs[7], -128, 127);
    var deadline := ParseInt(fs[10], 0, MAX_DEADLINE_UNIX);
    if || fs[0] != CODEC_VERSION || (fs[9] != "0" && fs[9] != "1")
       || flow.None? || entity.None? || customer.None? || segment.None? || currency.None? || kind.None?
       || amount.None? || exponent.None? || deadline.None?
    then None
    else Some(ValueContext(flow.value, entity.value, customer.value, segment.value,
                           amount.value, currency.value, exponent.value, kind.value,
                           fs[9] == "1",
                           if deadline.value == 0 then None else Some(deadline.value * NANOS_PER_SECOND)))
  }

  function Decoded(s: bytes): Option<ValueContext> {
    if |s| > MAX_ENCODED_BYTES || |Split(s)| != 11 then None else DecodeFields(Split(s))
  }

  method DecodeVC(s: bytes) returns (r: Result<ValueContext, DecodeError>)
    ensures r.Success? <==> Decoded(s).Some?
    ensures r.Success? ==> r.value == Decoded(s).value
    ensures r == Failure(TooLong) <==> |s| > MAX_ENCODED_BYTES
    ensures r == Failure(WrongFieldCount) <==> |s| <= MAX_ENCODED_BYTES && |Split(s)| != 11
    ensures r == Failure(UnknownVersion) <==>
              |s| <= MAX_ENCODED_BYTES && |Split(s)| == 11 && Split(s)[0] != CODEC_VERSION
  {
    if |s| > MAX_ENCODED_BYTES {
      return Failure(TooLong);
    }
    var fields := Split(s);
    if |fields| != 11 {
      return Failure(WrongFieldCount);
    }
    if fields[0] != CODEC_VERSION {
      return Failure(UnknownVersion);
    }
    var vc := BLANK;
    var flow := UnescapeField(fields[1]);
    if flow.None? {
      return Failure(BadString);
    }
    vc := vc.(flow := flow.value);
    var entity := UnescapeField(fields[2]);
    if entity.None? {
      return Failure(BadString);
    }
    vc := vc.(entity := entity.value);
    var customer := UnescapeField(fields[3]);
    if customer.None? {
      return Failure(BadString);
    }
    vc := vc.(customer := customer.value);
    var segment := UnescapeField(fields[4]);
    if segment.None? {
      return Failure(BadString);
    }
    vc := vc.(segment := segment.value);
    var amount := ParseInt(fields[5], MIN_INT64, MAX_INT64);
    if amount.None? {
      return Failure(BadNumber);
    }
    var currency := UnescapeField(fields[6]);
    if currency.None? {
      return Failure(BadString);
    }
    var exponent := ParseInt(fields[7], -128, 127);
    if exponent.None? {
      return Failure(BadNumber);
    }
    var kind := UnescapeField(fields[8]);
    if kind.None? {
      return Failure(BadString);
    }
    vc := vc.(amount := amount.value, currency := currency.value, exponent := exponent.value, kind := kind.value);
    if fields[9] == "1" {
      vc := vc.(estimated := true);
    } else if fields[9] != "0" {
      return Failure(BadFlags);
    }
    var deadline := ParseInt(fields[10], MIN_INT64, MAX_INT64);
    if deadline.None? || deadline.value < 0 || deadline.value > MAX_DEADLINE_UNIX {
      return Failure(BadDeadline);
    }
    if deadline.value > 0 {
      vc := vc.(deadline := Some(deadline.value * NANOS_PER_SECOND));
    }
    r := Success(vc);
  }

  // ---- the codec laws ----

  /** What survives a hop: everything but the fraction of a second. */
  function WholeSeconds(vc: ValueContext): ValueContext {
    if vc.deadline.None? then vc
    else vc.(deadline := Some(UnixSeconds(vc.deadline.value) * NANOS_PER_SECOND))
  }

  predicate Encodable(vc: ValueContext) {
    DeadlineEncodable(vc.deadline) && |Encoding(vc)| <= MAX_ENCODED_BYTES
  }

  lemma FormatBytesIsClean(v: int)
    ensures Clean(FormatBytes(v))
  {
    FormatIntIsText(v);
  }

  lemma LayoutIsClean(a: bytes, b: bytes, c: bytes, d: bytes, e: bytes, f: bytes, g: bytes, h: bytes,
                      flags: bytes, i: bytes)
    requires Clean(a) && Clean(b) && Clean(c) && Clean(d) && Clean(e) && Clean(f) && Clean(g) && Clean(h) && Clean(i)
    requires flags == "0" || flags == "1"
    ensures var fs := [CODEC_VERSION, a, b, c, d, e, f, g, h, flags, i];
            forall k :: 0 <= k < 11 ==> Clean(fs[k]) && '|' !in fs[k]
  {
    assert Clean("0") && Clean("1");
  }

  lemma FieldsAreClean(vc: ValueContext)
    ensures forall k :: 0 <= k < 11 ==> Clean(Fields(vc)[k]) && '|' !in Fields(vc)[k]
  {
    UnescapeEscape(vc.flow);
    UnescapeEscape(vc.entity);
    UnescapeEscape(vc.customer);
    UnescapeEscape(vc.segment);
    UnescapeEscape(vc.currency);
    UnescapeEscape(vc.kind);
    FormatBytesIsClean(vc.amount);
    FormatBytesIsClean(vc.exponent);
    FormatBytesIsClean(WireDeadline(vc.deadline));
    LayoutIsClean(Escape(vc.flow), Escape(vc.entity), Escape(vc.customer), Escape(vc.segment),
                  FormatBytes(vc.amount), Escape(vc.currency), FormatBytes(vc.exponent), Escape(vc.kind),
                  if vc.estimated then "1" else "0", FormatBytes(WireDeadline(vc.deadline)));
  }

  lemma {:induction false} JoinIsClean(fields: seq<bytes>)
    requires fields != []
    requires forall k :: 0 <= k < |fields| ==> Clean(fields[k])
    ensures forall i :: 0 <= i < |Join(fields)| ==> IsBaggageOctet(Join(fields)[i])
  {
    assert Clean(fields[0]);
    if |fields| > 1 {
      JoinIsClean(fields[1..]);
      assert Join(fields) == fields[0] + ['|'] + Join(fields[1..]);
    }
  }

  /** Everything that encodes decodes to itself, cut to whole seconds; the wire
      text has eleven fields, at most 512 bytes, all inside the baggage value
      grammar. */
  lemma DecodeEncode(vc: ValueContext)
    requires vc.Typed() && Encodable(vc)
    ensures Decoded(Encoding(vc)) == Some(WholeSeconds(vc))
    ensures |Split(Encoding(vc))| == 11
    ensures forall i :: 0 <= i < |Encoding(vc)| ==> IsBaggageOctet(Encoding(vc)[i])
  {
    FieldsAreClean(vc);
    SplitJoin(Fields(vc));
    JoinIsClean(Fields(vc));
    DecodeOwnFields(vc);
  }

  lemma DecodeOwnFields(vc: ValueContext)
    requires vc.Typed() && DeadlineEncodable(vc.deadline)
    ensures DecodeFields(Fields(vc)) == Some(WholeSeconds(vc))
  {
    UnescapeEscape(vc.flow);
    UnescapeEscape(vc.entity);
    UnescapeEscape(vc.customer);
    UnescapeEscape(vc.segment);
    UnescapeEscape(vc.currency);
    UnescapeEscape(vc.kind);
    ParseFormatInt(vc.amount, MIN_INT64, MAX_INT64);
    ParseFormatInt(vc.exponent, -128, 127);
    ParseFormatInt(WireDeadline(vc.deadline), 0, MAX_DEADLINE_UNIX);
    DeadlineSpelled(FormatBytes(WireDeadline(vc.deadline)), WholeSeconds(vc).deadline);
    DecodesReads(Fields(vc), WholeSeconds(vc));
    hide Unescape, Escape, Clean, ParseInt, FormatInt, DecodeFields, SpellsDeadline;
  }

  // ---- what each position of the wire text says ----

  predicate SpellsDeadline(t: bytes, d: Option<int>) {
    if d.None? then SpellsInt(t, 0)
    else exists seconds :: d.value == seconds * 1000000000 && 0 < seconds <= 32503680000 && SpellsInt(t, seconds)
  }

  /** version|flow|entity|customer|segment|amount|currency|exponent|kind|flags|deadline */
  predicate WireSays(fs: seq<bytes>, vc: ValueContext) {
    && |fs| == 11 && vc.Typed() && fs[0] == "1"
    && Spells(fs[1], vc.flow) && Spells(fs[2], vc.entity) && Spells(fs[3], vc.customer) && Spells(fs[4], vc.segment)
    && SpellsInt(fs[5], vc.amount) && Spells(fs[6], vc.currency) && SpellsInt(fs[7], vc.exponent) && Spells(fs[8], vc.kind)
    && fs[9] == (if vc.estimated then "1" else "0")
    && SpellsDeadline(fs[10], vc.deadline)
  }

  lemma DeadlineSpelled(t: bytes, d: Option<int>)
    ensures SpellsDeadline(t, d)
       <==> var v := ParseInt(t, 0, MAX_DEADLINE_UNIX);
            v.Some? && d == if v.value == 0 then None else Some(v.value * NANOS_PER_SECOND)
  {
    var v := ParseInt(t, 0, MAX_DEADLINE_UNIX);
    if v.Some? {
      ParsesSpellings(t, 0, MAX_DEADLINE_UNIX, v.value);
    }
    if d.None? && SpellsInt(t, 0) {
      ParsesSpellings(t, 0, MAX_DEADLINE_UNIX, 0);
    }
    if d.Some? && SpellsDeadline(t, d) {
      var seconds :| d.value == seconds * NANOS_PER_SECOND && 0 < seconds <= MAX_DEADLINE_UNIX && SpellsInt(t, seconds);
      ParsesSpellings(t, 0, MAX_DEADLINE_UNIX, seconds);
    }
  }

  /** Field by field, what decodes to a context. */
  ghost predicate Reads(fs: seq<bytes>, vc: ValueContext)
    requires |fs| == 11
  {
    && fs[0] == "1" && fs[9] == (if vc.estimated then "1" else "0")
    && Unescape(fs[1]) == Some(vc.flow) && Unescape(fs[2]) == Some(vc.entity)
    && Unescape(fs[3]) == Some(vc.customer) && Unescape(fs[4]) == Some(vc.segment)
    && Unescape(fs[6]) == Some(vc.currency) && Unescape(fs[8]) == Some(vc.kind)
    && ParseInt(fs[5], MIN_INT64, MAX_INT64) == Some(vc.amount) && ParseInt(fs[7], -128, 127) == Some(vc.exponent)
    && SpellsDeadline(fs[10], vc.deadline)
  }

  lemma DecodesReads(fs: seq<bytes>, vc: ValueContext)
    requires |fs| == 11
    ensures DecodeFields(fs) == Some(vc) <==> Reads(fs, vc)
  {
    DeadlineSpelled(fs[10], vc.deadline);
    hide Unescape, SpellsDeadline, ParseInt;
  }

  lemma ReadsWhatIsSaid(fs: seq<bytes>, vc: ValueContext)
    requires |fs| == 11
    ensures Reads(fs, vc) <==> WireSays(fs, vc)
  {
    UnescapesSpellings(fs[1], vc.flow);
    UnescapesSpellings(fs[2], vc.entity);
    UnescapesSpellings(fs[3], vc.customer);
    UnescapesSpellings(fs[4], vc.segment);
    ParsesSpellings(fs[5], MIN_INT64, MAX_INT64, vc.amount);
    UnescapesSpellings(fs[6], vc.currency);
    ParsesSpellings(fs[7], -128, 127, vc.exponent);
    UnescapesSpellings(fs[8], vc.kind);
    hide Unescape, Spells, SpellsInt, SpellsDeadline, ParseInt;
  }

  /** Exactly the texts of at most 512 bytes that say a context decode to it. */
  lemma DecodesWhatIsSaid(s: bytes, vc: ValueContext)
    ensures Decoded(s) == Some(vc) <==> |s| <= 512 && WireSays(Split(s), vc)
  {
    if |Split(s)| == 11 {
      DecodesReads(Split(s), vc);
      ReadsWhatIsSaid(Split(s), vc);
    }
  }

  /** The wire text says the context, cut to whole seconds, in its canonical
      spelling: no text says it in fewer bytes. */
  lemma EncodingSays(vc: ValueContext)
    requires vc.Typed() && Encodable(vc)
    ensures WireSays(Split(Encoding(vc)), WholeSeconds(vc))
    ensures vc.deadline.Some? ==> 0 <= vc.deadline.value - WholeSeconds(vc).deadline.value < NANOS_PER_SECOND
    ensures forall s :: |s| <= MAX_ENCODED_BYTES && WireSays(Split(s), WholeSeconds(vc)) ==>
                          |Encoding(vc)| <= |s| && (|s| == |Encoding(vc)| ==> s == Encoding(vc))
  {
    DecodeEncode(vc);
    DecodesWhatIsSaid(Encoding(vc), WholeSeconds(vc));
    SameWireFields(vc);
    forall s | |s| <= MAX_ENCODED_BYTES && WireSays(Split(s), WholeSeconds(vc))
      ensures |Encoding(vc)| <= |s| && (|s| == |Encoding(vc)| ==> s == Encoding(vc))
    {
      DecodesWhatIsSaid(s, WholeSeconds(vc));
      EncodeDecode(s);
    }
    hide WireSays, Split, Encoding, Decoded;
  }

  /** Contexts that agree on the wire agree on everything but the fraction of a
      second of their deadlines. */
  lemma EncodingIsInjective(vc: ValueContext, vc': ValueContext)
    requires vc.Typed() && Encodable(vc) && vc'.Typed() && Encodable(vc')
    ensures Encoding(vc) == Encoding(vc') <==> WholeSeconds(vc) == WholeSeconds(vc')
  {
    DecodeEncode(vc);
    DecodeEncode(vc');
    SameWireFields(vc);
    SameWireFields(vc');
  }

  lemma SameWireFields(vc: ValueContext)
    ensures Encoding(vc) == Encoding(WholeSeconds(vc))
  {
    if vc.deadline.Some? {
      assert UnixSeconds(UnixSeconds(vc.deadline.value) * NANOS_PER_SECOND) == UnixSeconds(vc.deadline.value);
    }
    assert Fields(vc) == Fields(WholeSeconds(vc));
  }

  /** Every text DecodeVC accepts, however oddly spelled, re-encodes to a text
      no longer than it; that text decodes to the same context and re-encodes to
      itself. The input is that text exactly when it is no longer than it. */
  lemma EncodeDecode(s: bytes)
    requires Decoded(s).Some?
    ensures var vc := Decoded(s).value;
            && vc.Typed() && Encodable(vc)
            && |Encoding(vc)| <= |s|
            && (|Encoding(vc)| == |s| <==> Encoding(vc) == s)
            && Decoded(Encoding(vc)) == Some(vc)
  {
    var vc, fs := Decoded(s).value, Split(s);
    JoinSplit(s);
    ReencodedFieldsShrink(fs);
    DecodedIsWhole(fs);
    JoinShrinks(Fields(vc), fs);
    DecodeEncode(vc);
  }

  lemma DecodedIsWhole(fs: seq<bytes>)
    requires |fs| == 11 && DecodeFields(fs).Some?
    ensures var vc := DecodeFields(fs).value; vc.Typed() && WholeSeconds(vc) == vc
  {
    var seconds := ParseInt(fs[10], 0, MAX_DEADLINE_UNIX).value;
    assert UnixSeconds(seconds * NANOS_PER_SECOND) == seconds;
  }

  lemma NumberShrinks(f: bytes, lo: int, hi: int)
    requires ParseInt(f, lo, hi).Some?
    ensures Shrinks(FormatBytes(ParseInt(f, lo, hi).value), f)
  {
    FormatParseIntShrinks(f, lo, hi);
  }

  lemma ReencodedFieldsShrink(fs: seq<bytes>)
    requires |fs| == 11 && DecodeFields(fs).Some?
    ensures forall i :: 0 <= i < 11 ==> Shrinks(Fields(DecodeFields(fs).value)[i], fs[i])
    ensures DeadlineEncodable(DecodeFields(fs).value.deadline)
  {
    EscapeUnescapeShrinks(fs[1]);
    EscapeUnescapeShrinks(fs[2]);
    EscapeUnescapeShrinks(fs[3]);
    EscapeUnescapeShrinks(fs[4]);
    EscapeUnescapeShrinks(fs[6]);
    EscapeUnescapeShrinks(fs[8]);
    NumberShrinks(fs[5], MIN_INT64, MAX_INT64);
    NumberShrinks(fs[7], -128, 127);
    NumberShrinks(fs[10], 0, MAX_DEADLINE_UNIX);
    var seconds := ParseInt(fs[10], 0, MAX_DEADLINE_UNIX).value;
    assert WireDeadline(DecodeFields(fs).value.deadline) == seconds;
  }
}
