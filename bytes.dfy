/** Byte-level primitives shared by the pickler and the unpickler: fixed-width
    little-endian integers, the decimal text of an integer, Latin-1 and UTF-8. */
module Bytes {
  import opened Wrappers

  type byte = x: int | 0 <= x < 256

  const TWO_16: nat := 0x1_0000
  const TWO_31: nat := 0x8000_0000
  const TWO_32: nat := 0x1_0000_0000

  // ---------------------------------------------------------------------
  // Fixed-width little-endian integers

  /** The two little-endian bytes of `n` modulo 2^16. */
  function LittleEndian2(n: int): (r: seq<byte>)
    ensures |r| == 2
  {
    var u := n % TWO_16;
    [u % 256, u / 256]
  }

  /** The four little-endian bytes of `n` modulo 2^32: for a signed 32-bit
      value this is its two's complement form. */
  function LittleEndian4(n: int): (r: seq<byte>)
    ensures |r| == 4
  {
    var u := n % TWO_32;
    [u % 256, (u / 256) % 256, (u / TWO_16) % 256, u / 0x100_0000]
  }

  function Unsigned2(b: seq<byte>): nat
    requires |b| == 2
  {
    b[0] as int + 256 * (b[1] as int)
  }

  function Unsigned4(b: seq<byte>): nat
    requires |b| == 4
  {
    b[0] as int + 256 * (b[1] as int) + TWO_16 * (b[2] as int) + 0x100_0000 * (b[3] as int)
  }

  /** Four little-endian bytes read as a two's complement 32-bit integer. */
  function Signed4(b: seq<byte>): int
    requires |b| == 4
  {
    var u := Unsigned4(b);
    if u < TWO_31 then u else u - TWO_32
  }

  lemma Unsigned2Inverse(n: int)
    requires 0 <= n < TWO_16
    ensures Unsigned2(LittleEndian2(n)) == n
  {
  }

  lemma Unsigned4Inverse(n: int)
    requires 0 <= n < TWO_32
    ensures Unsigned4(LittleEndian4(n)) == n
  {
    var b := LittleEndian4(n);
    assert n % TWO_32 == n;
    var q1 := n / 256;
    var q2 := q1 / 256;
    assert n == b[0] + 256 * q1;
    assert q1 == b[1] + 256 * q2;
    assert q2 == b[2] as int + 256 * (b[3] as int);
  }

  lemma Signed4Inverse(n: int)
    requires -(TWO_31 as int) <= n < TWO_31
    ensures Signed4(LittleEndian4(n)) == n
  {
    var u := n % TWO_32;
    assert LittleEndian4(n) == LittleEndian4(u);
    Unsigned4Inverse(u);
  }

  // ---------------------------------------------------------------------
  // Decimal text of an integer, as used by the INT opcode

  const MINUS: byte := 45
  const ZERO: byte := 48
  const NEWLINE: byte := 10

  predicate IsDigit(b: byte) {
    ZERO <= b <= ZERO + 9
  }

  predicate AllDigits(t: seq<byte>) {
    forall i | 0 <= i < |t| :: IsDigit(t[i])
  }

  /** The decimal digits of `n`, most significant first, without leading zeros. */
  function Digits(n: nat): (r: seq<byte>)
    ensures 1 <= |r| && AllDigits(r)
    ensures n >= 10 ==> |r| >= 2
  {
    if n < 10 then [ZERO + n] else Digits(n / 10) + [ZERO + n % 10]
  }

  /** The decimal text of `v`: an optional minus sign, then its digits. */
  function DecimalText(v: int): seq<byte> {
    if v < 0 then [MINUS] + Digits(-v) else Digits(v)
  }

  /** The value of a run of decimal digits. */
  function DigitsValue(t: seq<byte>): nat
    requires AllDigits(t)
  {
    if |t| == 0 then 0 else 10 * DigitsValue(t[..|t| - 1]) + (t[|t| - 1] - ZERO)
  }

  /** Reads an optionally signed, non-empty run of decimal digits. */
  function ParseDecimal(t: seq<byte>): (r: Option<int>)
    ensures r.Some? ==> 1 <= |t|
  {
    if 2 <= |t| && t[0] == MINUS && AllDigits(t[1..]) then Some(-(DigitsValue(t[1..]) as int))
    else if 1 <= |t| && AllDigits(t) then Some(DigitsValue(t))
    else None
  }

  lemma {:induction false} DigitsValueOfDigits(n: nat)
    ensures DigitsValue(Digits(n)) == n
  {
    if n >= 10 {
      DigitsValueOfDigits(n / 10);
      var d := Digits(n);
      assert d[..|d| - 1] == Digits(n / 10);
    }
  }

  /** Reading back the decimal text of any integer gives that integer. */
  lemma DecimalRoundTrip(v: int)
    ensures ParseDecimal(DecimalText(v)) == Some(v)
  {
    if v < 0 {
      var t := DecimalText(v);
      assert t[1..] == Digits(-v);
      DigitsValueOfDigits(-v);
    } else {
      DigitsValueOfDigits(v);
    }
  }

  /** A number of at least 100 has at least three digits. */
  lemma DigitsLength(n: nat)
    requires n >= 100
    ensures |Digits(n)| >= 3
  {
    assert n / 10 >= 10;
  }

  // ---------------------------------------------------------------------
  // Latin-1: one character per byte

  function Latin1Decode(b: seq<byte>): (s: string)
    ensures |s| == |b|
    ensures forall i | 0 <= i < |b| :: s[i] as int == b[i]
  {
    if b == [] then [] else [b[0] as char] + Latin1Decode(b[1..])
  }

  /** The bytes of a string whose every character is below 256, or None. */
  function Latin1Encode(s: string): (r: Option<seq<byte>>)
    ensures r.Some? ==> |r.value| == |s|
  {
    if s == [] then Some([])
    else if (s[0] as int) < 256 then
      match Latin1Encode(s[1..])
      case None => None
      case Some(rest) => Some([s[0] as int] + rest)
    else None
  }

  /** Bytes read as Latin-1 text are written back as the same bytes. */
  lemma {:induction false} Latin1RoundTrip(b: seq<byte>)
    ensures Latin1Encode(Latin1Decode(b)) == Some(b)
  {
    if b != [] {
      var s := Latin1Decode(b);
      assert s[1..] == Latin1Decode(b[1..]);
      Latin1RoundTrip(b[1..]);
      assert [b[0]] + b[1..] == b;
    }
  }

  // ---------------------------------------------------------------------
  // UTF-8

  predicate IsContinuation(b: byte) {
    0x80 <= b < 0xC0
  }

  /** The UTF-8 form of one Unicode scalar value: 1 to 4 bytes. */
  function CharUtf8(c: char): (r: seq<byte>)
    ensures 1 <= |r| <= 4
  {
    var n := c as int;
    if n < 0x80 then [n]
    else if n < 0x800 then [0xC0 + n / 64, 0x80 + n % 64]
    else if n < 0x1_0000 then [0xE0 + n / 4096, 0x80 + (n / 64) % 64, 0x80 + n % 64]
    else [0xF0 + n / 0x4_0000, 0x80 + (n / 4096) % 64, 0x80 + (n / 64) % 64, 0x80 + n % 64]
  }

  /** The UTF-8 encoding of a string. */
  function Utf8(s: string): (r: seq<byte>)
    ensures |s| <= |r| <= 4 * |s|
  {
    if s == [] then [] else CharUtf8(s[0]) + Utf8(s[1..])
  }

  /** Decodes the first character of `b`, rejecting malformed, overlong and
      surrogate forms; yields the character and the number of bytes read. */
  function DecodeChar(b: seq<byte>): (r: Option<(char, nat)>)
    ensures r.Some? ==> 1 <= r.value.1 <= |b|
  {
    if |b| == 0 then None
    else
      var b0: int := b[0];
      if b0 < 0x80 then Some((b0 as char, 1))
      else if 0xC2 <= b0 < 0xE0 then
        if 2 <= |b| && IsContinuation(b[1]) then
          Some((((b0 - 0xC0) * 64 + (b[1] as int - 0x80)) as char, 2))
        else None
      else if 0xE0 <= b0 < 0xF0 then
        if 3 <= |b| && IsContinuation(b[1]) && IsContinuation(b[2]) then
          var n := Join3(b0 - 0xE0, b[1] as int - 0x80, b[2] as int - 0x80);
          if 0x800 <= n && (n < 0xD800 || 0xE000 <= n) then Some((n as char, 3)) else None
        else None
      else if 0xF0 <= b0 < 0xF5 then
        if 4 <= |b| && IsContinuation(b[1]) && IsContinuation(b[2]) && IsContinuation(b[3]) then
          var n := Join4(b0 - 0xF0, b[1] as int - 0x80, b[2] as int - 0x80, b[3] as int - 0x80);
          if 0x1_0000 <= n < 0x11_0000 then Some((n as char, 4)) else None
        else None
      else None
  }

  /** The code point carried by a three-byte form, from its payload bits. */
  function Join3(x: int, y: int, z: int): (n: int)
    requires 0 <= x < 16 && 0 <= y < 64 && 0 <= z < 64
    ensures 0 <= n < 0x1_0000
  {
    x * 4096 + y * 64 + z
  }

  /** The code point carried by a four-byte form, from its payload bits. */
  function Join4(w: int, x: int, y: int, z: int): (n: int)
    requires 0 <= w < 5 && 0 <= x < 64 && 0 <= y < 64 && 0 <= z < 64
    ensures 0 <= n < 0x14_0000
  {
    w * 0x4_0000 + x * 4096 + y * 64 + z
  }

  /** Decodes a whole byte run as UTF-8, or None if it is malformed. */
  function Utf8Decode(b: seq<byte>): Option<string>
    decreases |b|
  {
    if b == [] then Some([])
    else match DecodeChar(b)
      case None => None
      case Some((c, k)) =>
        match Utf8Decode(b[k..])
        case None => None
        case Some(rest) => Some([c] + rest)
  }

  lemma DecodeCharUtf8(c: char, rest: seq<byte>)
    ensures DecodeChar(CharUtf8(c) + rest) == Some((c, |CharUtf8(c)|))
  {
    var n := c as int;
    if n < 0x80 {
    } else if n < 0x800 {
      DecodeTwo(c, rest);
    } else if n < 0x1_0000 {
      DecodeThree(c, rest);
    } else {
      DecodeFour(c, rest);
    }
  }

  lemma DecodeTwo(c: char, rest: seq<byte>)
    requires 0x80 <= c as int < 0x800
    ensures DecodeChar(CharUtf8(c) + rest) == Some((c, 2))
  {
    var n := c as int;
    var b := CharUtf8(c) + rest;
    assert b[0] == 0xC0 + n / 64 && b[1] == 0x80 + n % 64;
    assert (b[0] as int - 0xC0) * 64 + (b[1] as int - 0x80) == n;
  }

  lemma DecodeThree(c: char, rest: seq<byte>)
    requires 0x800 <= c as int < 0x1_0000
    ensures DecodeChar(CharUtf8(c) + rest) == Some((c, 3))
  {
    var n := c as int;
    var b := CharUtf8(c) + rest;
    var x, y, z := n / 4096, (n / 64) % 64, n % 64;
    assert n / 64 == x * 64 + y;
    assert n == (n / 64) * 64 + z;
    assert b[0] == 0xE0 + x && b[1] == 0x80 + y && b[2] == 0x80 + z;
    assert Join3(x, y, z) == n;
  }

  lemma DecodeFour(c: char, rest: seq<byte>)
    requires 0x1_0000 <= c as int
    ensures DecodeChar(CharUtf8(c) + rest) == Some((c, 4))
  {
    var n := c as int;
    var b := CharUtf8(c) + rest;
    var w, x, y, z := n / 0x4_0000, (n / 4096) % 64, (n / 64) % 64, n % 64;
    assert n / 4096 == w * 64 + x;
    assert n / 64 == (n / 4096) * 64 + y;
    assert n == (n / 64) * 64 + z;
    assert b[0] == 0xF0 + w && b[1] == 0x80 + x && b[2] == 0x80 + y && b[3] == 0x80 + z;
    assert Join4(w, x, y, z) == n;
  }

  /** Decoding the UTF-8 encoding of a string gives the string back. */
  lemma {:induction false} Utf8RoundTrip(s: string)
    ensures Utf8Decode(Utf8(s)) == Some(s)
  {
    if s != [] {
      var head := CharUtf8(s[0]);
      var b := Utf8(s);
      DecodeCharUtf8(s[0], Utf8(s[1..]));
      assert b == head + Utf8(s[1..]);
      assert b[|head|..] == Utf8(s[1..]);
      Utf8RoundTrip(s[1..]);
      assert s == [s[0]] + s[1..];
    }
  }

  lemma {:induction false} Utf8Concat(s: string, t: string)
    ensures Utf8(s + t) == Utf8(s) + Utf8(t)
  {
    if s != [] {
      assert (s + t)[0] == s[0];
      assert (s + t)[1..] == s[1..] + t;
      Utf8Concat(s[1..], t);
      assert Utf8(s + t) == CharUtf8(s[0]) + Utf8(s[1..] + t);
    } else {
      assert s + t == t;
    }
  }
}
