/** The protocol-2 pickle opcodes this codec writes and reads (their byte
    values are those of CPython's pickletools table), the byte layout of each
    instruction, and the parser that reads instructions back from bytes. */
module Opcodes {
  import opened Wrappers
  import opened Bytes

  const PROTO: byte := 0x80
  const STOP: byte := 0x2E            // '.'
  const NONE: byte := 0x4E            // 'N'
  const NEWTRUE: byte := 0x88
  const NEWFALSE: byte := 0x89
  const BININT1: byte := 0x4B         // 'K'
  const BININT2: byte := 0x4D         // 'M'
  const BININT: byte := 0x4A          // 'J'
  const INT: byte := 0x49             // 'I'
  const SHORT_BINSTRING: byte := 0x55 // 'U'
  const BINUNICODE: byte := 0x58      // 'X'
  const EMPTY_TUPLE: byte := 0x29     // ')'
  const TUPLE1: byte := 0x85
  const TUPLE2: byte := 0x86
  const TUPLE3: byte := 0x87
  const MARK: byte := 0x28            // '('
  const TUPLE: byte := 0x74           // 't'
  const EMPTY_LIST: byte := 0x5D      // ']'
  const APPENDS: byte := 0x65         // 'e'
  const EMPTY_DICT: byte := 0x7D      // '}'
  const SETITEMS: byte := 0x75        // 'u'
  const BINPUT: byte := 0x71          // 'q'
  const LONG_BINPUT: byte := 0x72     // 'r'
  const BINGET: byte := 0x68          // 'h'
  const LONG_BINGET: byte := 0x6A     // 'j'
  const GLOBAL: byte := 0x63          // 'c'
  const REDUCE: byte := 0x52          // 'R'

  // The class paths of the two reconstruction calls this codec writes and reads.
  const ARRAY_MODULE: seq<byte> := [0x61, 0x72, 0x72, 0x61, 0x79]                          // "array"
  const BUILTIN_MODULE: seq<byte> := [0x5F, 0x5F, 0x62, 0x75, 0x69, 0x6C, 0x74, 0x69, 0x6E, 0x5F, 0x5F] // "__builtin__"
  const BYTEARRAY_NAME: seq<byte> := [0x62, 0x79, 0x74, 0x65, 0x61, 0x72, 0x72, 0x61, 0x79]   // "bytearray"
  const INT_TYPECODE: seq<byte> := [0x69]                                                      // "i"
  const LATIN1: string := "latin-1"

  /** One instruction of the pickle stream, with its argument. */
  datatype Op =
    | Proto(version: byte)
    | Stop
    | PushNone
    | NewTrue
    | NewFalse
    | BinInt1(u8: byte)
    | BinInt2(u16: nat)
    | BinInt(i32: int)
    | IntText(text: seq<byte>)
    | ShortBinString(data: seq<byte>)
    | BinUnicode(s: string)
    | EmptyTuple
    | Tuple1
    | Tuple2
    | Tuple3
    | Mark
    | Tuple
    | EmptyList
    | Appends
    | EmptyDict
    | SetItems
    | Put(slot: nat)
    | Get(slot: nat)
    | Global(modulePath: seq<byte>, name: seq<byte>)
    | Reduce

  datatype ParseError = Truncated | UnknownOpcode(code: byte) | BadUtf8

  predicate NoNewline(t: seq<byte>) {
    forall i | 0 <= i < |t| :: t[i] != NEWLINE
  }

  /** The instructions whose layout can be read back unambiguously: arguments
      fit their length fields and text lines hold no line terminator. */
  predicate WellFormedOp(op: Op) {
    match op
    case BinInt2(n) => n < TWO_16
    case BinInt(n) => -(TWO_31 as int) <= n < TWO_31
    case IntText(t) => NoNewline(t)
    case ShortBinString(d) => |d| < 256
    case BinUnicode(s) => |Utf8(s)| < TWO_32
    case Put(n) => n < TWO_32
    case Get(n) => n < TWO_32
    case Global(m, n) => NoNewline(m) && NoNewline(n)
    case _ => true
  }

  /** The bytes of one instruction. Slots below 256 use the one-byte memo
      forms BINPUT/BINGET, larger ones the four-byte LONG_ forms. */
  function OpBytes(op: Op): (r: seq<byte>)
    ensures 1 <= |r|
  {
    match op
    case Proto(v) => [PROTO, v]
    case Stop => [STOP]
    case PushNone => [NONE]
    case NewTrue => [NEWTRUE]
    case NewFalse => [NEWFALSE]
    case BinInt1(n) => [BININT1, n]
    case BinInt2(n) => [BININT2] + LittleEndian2(n)
    case BinInt(n) => [BININT] + LittleEndian4(n)
    case IntText(t) => [INT] + t + [NEWLINE]
    case ShortBinString(d) => [SHORT_BINSTRING, |d| % 256] + d
    case BinUnicode(s) => [BINUNICODE] + LittleEndian4(|Utf8(s)|) + Utf8(s)
    case EmptyTuple => [EMPTY_TUPLE]
    case Tuple1 => [TUPLE1]
    case Tuple2 => [TUPLE2]
    case Tuple3 => [TUPLE3]
    case Mark => [MARK]
    case Tuple => [TUPLE]
    case EmptyList => [EMPTY_LIST]
    case Appends => [APPENDS]
    case EmptyDict => [EMPTY_DICT]
    case SetItems => [SETITEMS]
    case Put(n) => if n < 256 then [BINPUT, n] else [LONG_BINPUT] + LittleEndian4(n)
    case Get(n) => if n < 256 then [BINGET, n] else [LONG_BINGET] + LittleEndian4(n)
    case Global(m, n) => [GLOBAL] + m + [NEWLINE] + n + [NEWLINE]
    case Reduce => [REDUCE]
  }

  /** The byte stream of a sequence of instructions. */
  function Serialize(ops: seq<Op>): seq<byte> {
    if ops == [] then [] else OpBytes(ops[0]) + Serialize(ops[1..])
  }

  lemma {:induction false} SerializeConcat(a: seq<Op>, b: seq<Op>)
    ensures Serialize(a + b) == Serialize(a) + Serialize(b)
  {
    if a == [] {
      assert a + b == b;
    } else {
      assert (a + b)[0] == a[0];
      assert (a + b)[1..] == a[1..] + b;
      SerializeConcat(a[1..], b);
    }
  }

  // ---------------------------------------------------------------------
  // Reading instructions back

  /** The index of the first line terminator in `b`, if there is one. */
  function FindNewline(b: seq<byte>): (r: Option<nat>)
    ensures r.Some? ==> r.value < |b| && b[r.value] == NEWLINE && NoNewline(b[..r.value])
    ensures r.None? ==> NoNewline(b)
  {
    if b == [] then None
    else if b[0] == NEWLINE then Some(0)
    else match FindNewline(b[1..])
      case None => None
      case Some(i) => Some(i + 1)
  }

  lemma {:induction false} FindNewlineAfter(t: seq<byte>, rest: seq<byte>)
    requires NoNewline(t)
    ensures FindNewline(t + [NEWLINE] + rest) == Some(|t|)
  {
    if t != [] {
      assert (t + [NEWLINE] + rest)[1..] == t[1..] + [NEWLINE] + rest;
      FindNewlineAfter(t[1..], rest);
    }
  }

  /** INT: a text line (the decimal digits, or 00 / 01 for False / True). */
  function ParseInt(b: seq<byte>): (r: Result<(Op, nat), ParseError>)
    requires 1 <= |b|
    ensures r.Ok? ==> 1 <= r.value.1 <= |b|
  {
    match FindNewline(b[1..])
    case None => Err(Truncated)
    case Some(i) => Ok((IntText(b[1..1 + i]), i + 2))
  }

  /** BINUNICODE: a four-byte little-endian length, then that many UTF-8 bytes. */
  function ParseUnicode(b: seq<byte>): (r: Result<(Op, nat), ParseError>)
    requires 1 <= |b|
    ensures r.Ok? ==> 1 <= r.value.1 <= |b|
  {
    if 5 <= |b| && 5 + Unsigned4(b[1..5]) <= |b| then
      var n := Unsigned4(b[1..5]);
      match Utf8Decode(b[5..5 + n])
      case None => Err(BadUtf8)
      case Some(s) => Ok((BinUnicode(s), 5 + n))
    else Err(Truncated)
  }

  /** GLOBAL: a module name and a class name, each ended by a newline. */
  function ParseGlobalOp(b: seq<byte>): (r: Result<(Op, nat), ParseError>)
    requires 1 <= |b|
    ensures r.Ok? ==> 1 <= r.value.1 <= |b|
  {
    match FindNewline(b[1..])
    case None => Err(Truncated)
    case Some(i) =>
      match FindNewline(b[i + 2..])
      case None => Err(Truncated)
      case Some(j) => Ok((Global(b[1..1 + i], b[i + 2..i + 2 + j]), i + j + 3))
  }

  /** Reads one instruction from the front of `b`; yields it and the number of
      bytes it occupies. */
  function ParseOp(b: seq<byte>): (r: Result<(Op, nat), ParseError>)
    ensures r.Ok? ==> 1 <= r.value.1 <= |b|
  {
    if |b| == 0 then Err(Truncated)
    else
      var code := b[0];
      if code == PROTO then (if 2 <= |b| then Ok((Proto(b[1]), 2)) else Err(Truncated))
      else if code == STOP then Ok((Stop, 1))
      else if code == NONE then Ok((PushNone, 1))
      else if code == NEWTRUE then Ok((NewTrue, 1))
      else if code == NEWFALSE then Ok((NewFalse, 1))
      else if code == BININT1 then (if 2 <= |b| then Ok((BinInt1(b[1]), 2)) else Err(Truncated))
      else if code == BININT2 then (if 3 <= |b| then Ok((BinInt2(Unsigned2(b[1..3])), 3)) else Err(Truncated))
      else if code == BININT then (if 5 <= |b| then Ok((BinInt(Signed4(b[1..5])), 5)) else Err(Truncated))
      else if code == INT then ParseInt(b)
      else if code == SHORT_BINSTRING then
        if 2 <= |b| && 2 + b[1] as int <= |b| then Ok((ShortBinString(b[2..2 + b[1] as int]), 2 + b[1] as int)) else Err(Truncated)
      else if code == BINUNICODE then ParseUnicode(b)
      else if code == EMPTY_TUPLE then Ok((EmptyTuple, 1))
      else if code == TUPLE1 then Ok((Tuple1, 1))
      else if code == TUPLE2 then Ok((Tuple2, 1))
      else if code == TUPLE3 then Ok((Tuple3, 1))
      else if code == MARK then Ok((Mark, 1))
      else if code == TUPLE then Ok((Tuple, 1))
      else if code == EMPTY_LIST then Ok((EmptyList, 1))
      else if code == APPENDS then Ok((Appends, 1))
      else if code == EMPTY_DICT then Ok((EmptyDict, 1))
      else if code == SETITEMS then Ok((SetItems, 1))
      else if code == BINPUT then (if 2 <= |b| then Ok((Put(b[1]), 2)) else Err(Truncated))
      else if code == LONG_BINPUT then (if 5 <= |b| then Ok((Put(Unsigned4(b[1..5])), 5)) else Err(Truncated))
      else if code == BINGET then (if 2 <= |b| then Ok((Get(b[1]), 2)) else Err(Truncated))
      else if code == LONG_BINGET then (if 5 <= |b| then Ok((Get(Unsigned4(b[1..5])), 5)) else Err(Truncated))
      else if code == GLOBAL then ParseGlobalOp(b)
      else if code == REDUCE then Ok((Reduce, 1))
      else Err(UnknownOpcode(code))
  }

  /** Reads instructions up to and excluding the first STOP; whatever follows
      STOP is not read. A stream that ends before STOP is truncated. */
  function Parse(b: seq<byte>): Result<seq<Op>, ParseError>
    decreases |b|
  {
    if |b| == 0 then Err(Truncated)
    else match ParseOp(b)
      case Err(e) => Err(e)
      case Ok((op, k)) =>
        if op == Stop then Ok([])
        else match Parse(b[k..])
          case Err(e) => Err(e)
          case Ok(rest) => Ok([op] + rest)
  }

  // ---------------------------------------------------------------------
  // Reading back what was written

  /** ParseOp hands the variable-length instructions to their readers. */
  lemma ParseOpDispatch(b: seq<byte>)
    requires 1 <= |b|
    ensures b[0] == INT ==> ParseOp(b) == ParseInt(b)
    ensures b[0] == BINUNICODE ==> ParseOp(b) == ParseUnicode(b)
    ensures b[0] == GLOBAL ==> ParseOp(b) == ParseGlobalOp(b)
  {
  }

  lemma ParseIntText(t: seq<byte>, rest: seq<byte>)
    requires NoNewline(t)
    ensures ParseOp(OpBytes(IntText(t)) + rest) == Ok((IntText(t), |OpBytes(IntText(t))|))
  {
    var b := [INT] + t + [NEWLINE] + rest;
    assert b[1..] == t + [NEWLINE] + rest;
    FindNewlineAfter(t, rest);
    assert b[1..1 + |t|] == t;
    assert ParseInt(b) == Ok((IntText(t), |t| + 2));
    ParseOpDispatch(b);
  }

  lemma ParseBinUnicode(s: string, rest: seq<byte>)
    requires |Utf8(s)| < TWO_32
    ensures ParseOp(OpBytes(BinUnicode(s)) + rest) == Ok((BinUnicode(s), |OpBytes(BinUnicode(s))|))
  {
    var u := Utf8(s);
    var b := OpBytes(BinUnicode(s)) + rest;
    assert b[1..5] == LittleEndian4(|u|);
    Unsigned4Inverse(|u|);
    assert b[5..5 + |u|] == u;
    Utf8RoundTrip(s);
    assert ParseUnicode(b) == Ok((BinUnicode(s), 5 + |u|));
    ParseOpDispatch(b);
  }

  lemma ParseGlobalOf(m: seq<byte>, n: seq<byte>, rest: seq<byte>)
    requires NoNewline(m) && NoNewline(n)
    ensures ParseGlobalOp([GLOBAL] + m + [NEWLINE] + n + [NEWLINE] + rest) == Ok((Global(m, n), |m| + |n| + 3))
  {
    var b := [GLOBAL] + m + [NEWLINE] + n + [NEWLINE] + rest;
    assert b[1..] == m + [NEWLINE] + (n + [NEWLINE] + rest);
    FindNewlineAfter(m, n + [NEWLINE] + rest);
    assert b[|m| + 2..] == n + [NEWLINE] + rest;
    FindNewlineAfter(n, rest);
    assert b[1..1 + |m|] == m;
    assert b[|m| + 2..|m| + 2 + |n|] == n;
  }

  lemma ParseGlobal(m: seq<byte>, n: seq<byte>, rest: seq<byte>)
    requires NoNewline(m) && NoNewline(n)
    ensures ParseOp(OpBytes(Global(m, n)) + rest) == Ok((Global(m, n), |OpBytes(Global(m, n))|))
  {
    var b := [GLOBAL] + m + [NEWLINE] + n + [NEWLINE] + rest;
    assert OpBytes(Global(m, n)) + rest == b;
    ParseGlobalOf(m, n, rest);
    ParseOpDispatch(b);
  }

  lemma ParseBinInt(n: int, rest: seq<byte>)
    requires -(TWO_31 as int) <= n < TWO_31
    ensures ParseOp(OpBytes(BinInt(n)) + rest) == Ok((BinInt(n), 5))
  {
    var b := OpBytes(BinInt(n)) + rest;
    assert b[1..5] == LittleEndian4(n);
    Signed4Inverse(n);
  }

  lemma ParseBinInt2(n: nat, rest: seq<byte>)
    requires n < TWO_16
    ensures ParseOp(OpBytes(BinInt2(n)) + rest) == Ok((BinInt2(n), 3))
  {
    var b := OpBytes(BinInt2(n)) + rest;
    assert b[1..3] == LittleEndian2(n);
    Unsigned2Inverse(n);
  }

  lemma ParseShortBinString(d: seq<byte>, rest: seq<byte>)
    requires |d| < 256
    ensures ParseOp(OpBytes(ShortBinString(d)) + rest) == Ok((ShortBinString(d), 2 + |d|))
  {
    var b := OpBytes(ShortBinString(d)) + rest;
    assert b[2..2 + |d|] == d;
  }

  lemma ParseSlot(op: Op, rest: seq<byte>)
    requires (op.Put? || op.Get?) && op.slot < TWO_32
    ensures ParseOp(OpBytes(op) + rest) == Ok((op, |OpBytes(op)|))
  {
    if op.slot >= 256 {
      var b := OpBytes(op) + rest;
      assert b[1..5] == LittleEndian4(op.slot);
      Unsigned4Inverse(op.slot);
    }
  }

  /** The instructions without a variable-length argument. */
  lemma ParseFixed(op: Op, rest: seq<byte>)
    requires !(op.BinInt2? || op.BinInt? || op.IntText? || op.ShortBinString? || op.BinUnicode?)
    requires !(op.Put? || op.Get? || op.Global?)
    ensures ParseOp(OpBytes(op) + rest) == Ok((op, |OpBytes(op)|))
  {
  }

  /** Every well-formed instruction is read back as itself, whatever follows it. */
  lemma ParseOpBytes(op: Op, rest: seq<byte>)
    requires WellFormedOp(op)
    ensures ParseOp(OpBytes(op) + rest) == Ok((op, |OpBytes(op)|))
  {
    match op
    case BinInt2(n) => ParseBinInt2(n, rest);
    case BinInt(n) => ParseBinInt(n, rest);
    case IntText(t) => ParseIntText(t, rest);
    case ShortBinString(d) => ParseShortBinString(d, rest);
    case BinUnicode(s) => ParseBinUnicode(s, rest);
    case Put(_) => ParseSlot(op, rest);
    case Get(_) => ParseSlot(op, rest);
    case Global(m, n) => ParseGlobal(m, n, rest);
    case _ => ParseFixed(op, rest);
  }

  /** One instruction in front of a stream is read off before the stream. */
  lemma ParseCons(op: Op, tail: seq<byte>)
    requires WellFormedOp(op) && op != Stop
    ensures Parse(OpBytes(op) + tail) ==
      match Parse(tail)
      case Err(e) => Err(e)
      case Ok(ops) => Ok([op] + ops)
  {
    var b := OpBytes(op) + tail;
    ParseOpBytes(op, tail);
    assert b[|OpBytes(op)|..] == tail;
  }

  lemma SerializeCons(ops: seq<Op>, rest: seq<byte>)
    requires ops != []
    ensures Serialize(ops) + rest == OpBytes(ops[0]) + (Serialize(ops[1..]) + rest)
  {
  }

  lemma ParseHead(ops: seq<Op>, rest: seq<byte>)
    requires ops != [] && WellFormedOp(ops[0]) && ops[0] != Stop
    ensures Parse(Serialize(ops) + rest) ==
      match Parse(Serialize(ops[1..]) + rest)
      case Err(e) => Err(e)
      case Ok(r) => Ok([ops[0]] + r)
  {
    SerializeCons(ops, rest);
    ParseCons(ops[0], Serialize(ops[1..]) + rest);
  }

  /** Parsing the serialization of well-formed, STOP-free instructions followed
      by STOP gives back exactly those instructions. */
  lemma {:induction false} ParseSerialize(ops: seq<Op>, rest: seq<byte>)
    requires forall i | 0 <= i < |ops| :: WellFormedOp(ops[i]) && ops[i] != Stop
    ensures Parse(Serialize(ops) + (OpBytes(Stop) + rest)) == Ok(ops)
  {
    if ops == [] {
      assert Serialize(ops) + (OpBytes(Stop) + rest) == [STOP] + rest;
    } else {
      ParseSerialize(ops[1..], rest);
      ParseHead(ops, OpBytes(Stop) + rest);
      assert ops == [ops[0]] + ops[1..];
    }
  }
}
