/** Byte strings, and the number spellings the engine's on-disk formats share.

    A byte is a `char` below 256, so an ASCII literal is a byte string. Decimal and hex are
    printed the way `format!` prints them and parsed the way `str::parse` and `char::to_digit`
    parse them, which accept more spellings than are ever printed. */
module Bytes {
  type Byte = c: char | c as int < 256 witness '\0'
  type Bytes = seq<Byte>
  type Digest = d: Bytes | |d| == 32 witness seq(32, _ => '\0')

  datatype Option<+T> = None | Some(value: T) {
    predicate IsFailure() { None? }

    function PropagateFailure<U>(): Option<U>
      requires None?
    {
      None
    }

    function Extract(): T
      requires Some?
    {
      value
    }

    function OkOr<E>(error: E): Result<T, E> {
      match this
      case Some(v) => Ok(v)
      case None => Err(error)
    }
  }

  datatype Result<+T, +E> = Ok(value: T) | Err(error: E) {
    predicate IsFailure() { Err? }

    function PropagateFailure<U>(): Result<U, E>
      requires Err?
    {
      Err(error)
    }

    function Extract(): T
      requires Ok?
    {
      value
    }
  }

  const I64_MIN: int := -0x8000_0000_0000_0000
  const I64_MAX: int := 0x7FFF_FFFF_FFFF_FFFF
  const U64_MAX: int := 0xFFFF_FFFF_FFFF_FFFF
  const U32_MAX: int := 0xFFFF_FFFF

  type U64 = n: int | 0 <= n <= U64_MAX
  type U32 = n: int | 0 <= n <= U32_MAX
  type I64 = n: int | I64_MIN <= n <= I64_MAX

  // ---- splitting -------------------------------------------------------------------------

  /** The position of the first `b`, or `|s|`. */
  function Find(s: Bytes, b: Byte): (i: nat)
    ensures i <= |s|
    ensures i < |s| ==> s[i] == b
    ensures b !in s[..i]
  {
    if s == [] || s[0] == b then 0 else 1 + Find(s[1..], b)
  }

  /** Split at the first `b`: what precedes it and everything after it. */
  function SplitOnce(s: Bytes, b: Byte): (r: Option<(Bytes, Bytes)>)
    ensures r.None? <==> b !in s
    ensures r.Some? ==> s == r.value.0 + [b] + r.value.1 && b !in r.value.0
  {
    var i := Find(s, b);
    if i == |s| then
      assert s[..i] == s;
      None
    else
      assert s == s[..i] + [s[i]] + s[i + 1..];
      Some((s[..i], s[i + 1..]))
  }

  lemma {:induction false} FindAt(head: Bytes, b: Byte, tail: Bytes)
    requires b !in head
    ensures Find(head + [b] + tail, b) == |head|
  {
    if head != [] {
      assert head[0] in head && forall c | c in head[1..] :: c in head;
      assert (head + [b] + tail)[1..] == head[1..] + [b] + tail;
      FindAt(head[1..], b, tail);
    }
  }

  lemma SplitOnceAt(head: Bytes, b: Byte, tail: Bytes)
    requires b !in head
    ensures SplitOnce(head + [b] + tail, b) == Some((head, tail))
  {
    FindAt(head, b, tail);
    var s := head + [b] + tail;
    assert s[..|head|] == head && s[|head| + 1..] == tail;
  }

  /** Whether `s` starts with `prefix`, and what follows it. */
  function StripPrefix(s: Bytes, prefix: Bytes): (r: Option<Bytes>)
    ensures r.Some? <==> prefix <= s
    ensures r.Some? ==> s == prefix + r.value
  {
    if prefix <= s then Some(s[|prefix|..]) else None
  }

  lemma StripPrefixOf(prefix: Bytes, rest: Bytes)
    ensures StripPrefix(prefix + rest, prefix) == Some(rest)
  {
    assert (prefix + rest)[|prefix|..] == rest;
  }

  lemma Associate(a: Bytes, b: Bytes, c: Bytes)
    ensures (a + b) + c == a + (b + c)
  {}

  lemma DropCommon(p: Bytes, x: Bytes, y: Bytes)
    requires p + x == p + y
    ensures x == y
  {
    assert x == (p + x)[|p|..] && y == (p + y)[|p|..];
  }

  // ---- decimal ---------------------------------------------------------------------------

  predicate IsDigit(c: char) { '0' <= c <= '9' }

  predicate AllDigits(s: Bytes) { forall i | 0 <= i < |s| :: IsDigit(s[i]) }

  function Decimal(n: nat): (s: Bytes)
    ensures s != [] && AllDigits(s)
  {
    var d: Byte := ('0' as int + n % 10) as char;
    if n < 10 then [d] else Decimal(n / 10) + [d]
  }

  function SignedDecimal(n: int): Bytes {
    if n < 0 then ['-'] + Decimal(-n) else Decimal(n)
  }

  function DigitsValue(s: Bytes): nat
    requires AllDigits(s)
  {
    if s == [] then 0
    else
      assert IsDigit(s[|s| - 1]);
      10 * DigitsValue(s[..|s| - 1]) + (s[|s| - 1] as int - '0' as int)
  }

  /** An unsigned `str::parse`: one optional `+`, then at least one digit, within the type. */
  function ParseUnsigned(s: Bytes, max: nat): (r: Option<nat>)
    ensures r.Some? ==> r.value <= max
  {
    var digits := if s != [] && s[0] == '+' then s[1..] else s;
    if digits != [] && AllDigits(digits) && DigitsValue(digits) <= max
    then Some(DigitsValue(digits)) else None
  }

  /** A signed `str::parse::<i64>`. */
  function ParseI64(s: Bytes): (r: Option<I64>)
  {
    var negative := s != [] && s[0] == '-';
    var digits := if negative || (s != [] && s[0] == '+') then s[1..] else s;
    if digits == [] || !AllDigits(digits) then None
    else
      var n: int := if negative then 0 - DigitsValue(digits) else DigitsValue(digits);
      if I64_MIN <= n <= I64_MAX then Some(n) else None
  }

  lemma {:induction false} DecimalValue(n: nat)
    ensures DigitsValue(Decimal(n)) == n
  {
    if n >= 10 {
      DecimalValue(n / 10);
      assert Decimal(n)[..|Decimal(n)| - 1] == Decimal(n / 10);
    } else {
      assert Decimal(n)[..0] == [];
    }
  }

  /** A printed decimal reads back within its width, and beyond it refuses. */
  lemma ParseUnsignedDecimal(n: nat, max: nat)
    ensures ParseUnsigned(Decimal(n), max) == if n <= max then Some(n) else None
  {
    DecimalValue(n);
    assert IsDigit(Decimal(n)[0]);
  }

  lemma ParseI64Digits(digits: Bytes)
    requires digits != [] && AllDigits(digits)
    ensures DigitsValue(digits) <= I64_MAX ==> ParseI64(digits) == Some(DigitsValue(digits))
    ensures DigitsValue(digits) <= -I64_MIN ==> ParseI64(['-'] + digits) == Some(0 - DigitsValue(digits))
  {
    assert IsDigit(digits[0]);
    assert (['-'] + digits)[1..] == digits;
  }

  lemma ParseSignedDecimal(n: I64)
    ensures ParseI64(SignedDecimal(n)) == Some(n)
  {
    var magnitude: nat := if n < 0 then 0 - n else n;
    DecimalValue(magnitude);
    ParseI64Digits(Decimal(magnitude));
  }

  lemma SignedDecimalBytes(n: int)
    ensures forall c | c in SignedDecimal(n) :: IsDigit(c) || c == '-'
  {}

  // ---- `<i64>.<i64>` stamps --------------------------------------------------------------

  datatype Stamp = Stamp(secs: I64, nanos: I64)

  function PrintStamp(t: Stamp): (s: Bytes)
    ensures forall c | c in s :: IsDigit(c) || c == '-' || c == '.'
    ensures |s| >= 3
  {
    SignedDecimal(t.secs) + ['.'] + SignedDecimal(t.nanos)
  }

  function ParseStamp(field: Bytes): Option<Stamp> {
    var (a, b) :- SplitOnce(field, '.');
    var secs :- ParseI64(a);
    var nanos :- ParseI64(b);
    Some(Stamp(secs, nanos))
  }

  lemma ParsePrintedStamp(t: Stamp)
    ensures ParseStamp(PrintStamp(t)) == Some(t)
  {
    SignedDecimalBytes(t.secs);
    SplitOnceAt(SignedDecimal(t.secs), '.', SignedDecimal(t.nanos));
    ParseSignedDecimal(t.secs);
    ParseSignedDecimal(t.nanos);
  }

  // ---- hex -------------------------------------------------------------------------------

  /** `char::to_digit(16)`: both cases. */
  function HexValue(c: char): (r: Option<nat>)
    ensures r.Some? ==> r.value < 16
  {
    if '0' <= c <= '9' then Some(c as int - '0' as int)
    else if 'a' <= c <= 'f' then Some(c as int - 'a' as int + 10)
    else if 'A' <= c <= 'F' then Some(c as int - 'A' as int + 10)
    else None
  }

  function LowerHexDigit(v: nat): (c: Byte)
    requires v < 16
    ensures HexValue(c) == Some(v)
    ensures IsDigit(c) || 'a' <= c <= 'f'
  {
    if v < 10 then ('0' as int + v) as char else ('a' as int + v - 10) as char
  }

  /** `{byte:02x}` over every byte. */
  function LowerHex(d: Bytes): (s: Bytes)
    ensures |s| == 2 * |d|
    ensures forall c | c in s :: IsDigit(c) || 'a' <= c <= 'f'
    ensures forall i | 0 <= i < |d| ::
              HexValue(s[2 * i]) == Some(d[i] as int / 16) && HexValue(s[2 * i + 1]) == Some(d[i] as int % 16)
  {
    if d == [] then []
    else
      var last := d[|d| - 1] as int;
      LowerHex(d[..|d| - 1]) + [LowerHexDigit(last / 16), LowerHexDigit(last % 16)]
  }

  /** Every pair of digits is hex. */
  predicate HexPairs(field: Bytes)
    requires |field| % 2 == 0
  {
    forall c | c in field :: HexValue(c).Some?
  }

  function PairByte(field: Bytes, i: nat): Byte
    requires 2 * i + 1 < |field| && HexValue(field[2 * i]).Some? && HexValue(field[2 * i + 1]).Some?
  {
    (HexValue(field[2 * i]).value * 16 + HexValue(field[2 * i + 1]).value) as char
  }

  /** Exactly 64 hex digits, read as 32 bytes. */
  function ParseHex32(field: Bytes): (r: Option<Digest>)
  {
    if |field| != 64 || !HexPairs(field) then None
    else Some(seq(32, i requires 0 <= i < 32 =>
                assert field[2 * i] in field && field[2 * i + 1] in field;
                PairByte(field, i)))
  }

  lemma ParsePrintedHex(d: Digest)
    ensures ParseHex32(LowerHex(d)) == Some(d)
  {
    var s := LowerHex(d);
    forall i | 0 <= i < 32
      ensures ParseHex32(s).Some? && ParseHex32(s).value[i] == d[i]
    {
      assert s[2 * i] in s && s[2 * i + 1] in s;
      assert d[i] as int == d[i] as int / 16 * 16 + d[i] as int % 16;
      assert PairByte(s, i) == d[i];
    }
    assert ParseHex32(s).value == d;
  }

  // ---- UTF-8 -----------------------------------------------------------------------------

  predicate Continuation(c: char) { 0x80 <= c as int < 0xC0 }

  /** The byte length of the first scalar value of `s`, 0 when it is malformed (section 4 of
      RFC 3629: no overlong forms, no surrogates, nothing above U+10FFFF). */
  function ScalarLength(s: Bytes): (n: nat)
    ensures n <= |s|
  {
    if s == [] then 0
    else
      var b := s[0] as int;
      if b < 0x80 then 1
      else if 0xC2 <= b <= 0xDF && |s| >= 2 && Continuation(s[1]) then 2
      else if 0xE0 <= b <= 0xEF && |s| >= 3 && Continuation(s[1]) && Continuation(s[2])
              && (b == 0xE0 ==> s[1] as int >= 0xA0) && (b == 0xED ==> s[1] as int < 0xA0) then 3
      else if 0xF0 <= b <= 0xF4 && |s| >= 4 && Continuation(s[1]) && Continuation(s[2]) && Continuation(s[3])
              && (b == 0xF0 ==> s[1] as int >= 0x90) && (b == 0xF4 ==> s[1] as int < 0x90) then 4
      else 0
  }

  predicate Utf8(s: Bytes) {
    s == [] || (ScalarLength(s) > 0 && Utf8(s[ScalarLength(s)..]))
  }

  predicate Ascii(s: Bytes) { forall i | 0 <= i < |s| :: s[i] as int < 0x80 }

  lemma ScalarLengthOfPrefix(a: Bytes, b: Bytes)
    requires ScalarLength(a) > 0
    ensures ScalarLength(a + b) == ScalarLength(a)
  {}

  lemma DropInside(a: Bytes, b: Bytes, n: nat)
    requires n <= |a|
    ensures (a + b)[n..] == a[n..] + b
  {}

  lemma {:induction false} Utf8Append(a: Bytes, b: Bytes)
    requires Utf8(a) && Utf8(b)
    ensures Utf8(a + b)
    decreases |a|
  {
    if a == [] {
      assert a + b == b;
    } else {
      ScalarLengthOfPrefix(a, b);
      DropInside(a, b, ScalarLength(a));
      Utf8Append(a[ScalarLength(a)..], b);
    }
  }

  /** An ASCII byte is a character of its own: what precedes it was whole. */
  lemma {:induction false} Utf8WithoutAscii(a: Bytes, c: Byte)
    requires Utf8(a + [c]) && c as int < 0x80
    ensures Utf8(a)
    decreases |a|
  {
    if a != [] {
      var n := ScalarLength(a + [c]);
      assert n <= |a| && ScalarLength(a) == n;
      assert (a + [c])[n..] == a[n..] + [c];
      Utf8WithoutAscii(a[n..], c);
    }
  }

  lemma {:induction false} AsciiIsUtf8(a: Bytes)
    requires Ascii(a)
    ensures Utf8(a)
    decreases |a|
  {
    if a != [] {
      AsciiIsUtf8(a[1..]);
    }
  }

  // ---- line files ------------------------------------------------------------------------

  ghost predicate OneLineEach(lines: seq<Bytes>) {
    forall i | 0 <= i < |lines| :: '\n' !in lines[i]
  }

  /** Each line, terminated. */
  function JoinLines(lines: seq<Bytes>): Bytes {
    if lines == [] then [] else lines[0] + ['\n'] + JoinLines(lines[1..])
  }

  lemma {:induction false} JoinLinesAppend(a: seq<Bytes>, b: seq<Bytes>)
    ensures JoinLines(a + b) == JoinLines(a) + JoinLines(b)
  {
    if a == [] {
      assert a + b == b;
    } else {
      assert (a + b)[1..] == a[1..] + b;
      JoinLinesAppend(a[1..], b);
    }
  }

  /** Pushing one line and its terminator. */
  function PushLine(out: Bytes, line: Bytes): Bytes {
    out + line + ['\n']
  }

  lemma PushLineJoins(lines: seq<Bytes>, line: Bytes)
    ensures PushLine(JoinLines(lines), line) == JoinLines(lines + [line])
  {
    JoinLinesAppend(lines, [line]);
    assert JoinLines([line]) == line + ['\n'] + [];
  }

  /** Any prefix of a line file is its first lines whole, then a piece of the next one. */
  lemma {:induction false} TornLines(lines: seq<Bytes>, torn: Bytes) returns (whole: nat, piece: Bytes)
    requires torn <= JoinLines(lines)
    ensures whole <= |lines| && torn == JoinLines(lines[..whole]) + piece
    ensures if whole == |lines| then piece == [] && torn == JoinLines(lines) else piece <= lines[whole] && torn != JoinLines(lines)
    decreases |lines|
  {
    if lines == [] {
      return 0, [];
    }
    var first, rest := lines[0] + ['\n'], JoinLines(lines[1..]);
    if |torn| < |first| {
      assert torn == lines[0][..|torn|];
      return 0, torn;
    }
    var more := PastPrefix(first, rest, torn);
    whole, piece := TornLines(lines[1..], more);
    assert lines[..whole + 1][1..] == lines[1..][..whole];
    assert first + (JoinLines(lines[1..][..whole]) + piece) == (first + JoinLines(lines[1..][..whole])) + piece;
    whole := whole + 1;
  }

  lemma PastPrefix(first: Bytes, rest: Bytes, torn: Bytes) returns (more: Bytes)
    requires torn <= first + rest && |first| <= |torn|
    ensures torn == first + more && more <= rest
    ensures more == rest <==> torn == first + rest
  {
    more := torn[|first|..];
    assert (first + rest)[..|first|] == first && (first + rest)[|first|..] == rest;
    assert torn[..|first|] == first;
    assert more == rest[..|more|];
  }
}
