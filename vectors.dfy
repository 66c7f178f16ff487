/** The byte-exact expectations of the pickler tests, stated of the model. */
module Vectors {
  import opened Wrappers
  import opened Bytes
  import opened Opcodes
  import opened Values
  import opened Encoder
  import opened Theorem

  // ---------------------------------------------------------------------
  // The expected-output helper

  /** PROTO 2, the body, STOP: what every expected pickle looks like. */
  function Framed(body: seq<byte>): seq<byte> {
    [PROTO, 2] + body + [STOP]
  }

  /** The tests' `B(byte[])`: a fresh array three bytes longer than the body,
      PROTO and 2 in front, STOP at the end, the body copied in between. */
  method Expected(body: seq<byte>) returns (result: array<byte>)
    ensures fresh(result)
    ensures result[..] == Framed(body)
  {
    result := new byte[|body| + 3];
    result[0] := PROTO;
    result[1] := 2;
    result[result.Length - 1] := STOP;
    for i := 0 to |body|
      invariant result[0] == PROTO && result[1] == 2 && result[result.Length - 1] == STOP
      invariant result[2..2 + i] == body[..i]
    {
      result[2 + i] := body[i];
    }
    assert result[..] == [PROTO, 2] + result[2..2 + |body|] + [STOP];
  }

  /** A pickle is the frame around the bytes of the value's instructions. */
  lemma PickledIs(h: Heap, useMemo: bool, root: Val, e: Enc, body: seq<byte>)
    requires Closed(h) && ValIn(h, root)
    requires SaveValue(h, useMemo, {}, map[], 0, root) == Ok(e)
    requires Serialize(e.ops) == body
    ensures Pickled(h, useMemo, root) == Ok(Framed(body))
  {
    FrameSerialize(e.ops);
  }

  /** ASCII text is its own UTF-8 form, one byte per character. */
  lemma {:induction false} AsciiUtf8(s: string, b: seq<byte>)
    requires |s| == |b| && forall i | 0 <= i < |s| :: s[i] as int == b[i] < 0x80
    ensures Utf8(s) == b
  {
    if s != [] {
      AsciiUtf8(s[1..], b[1..]);
      assert b == [b[0]] + b[1..];
    }
  }

  /** A short text is BINUNICODE, a one-byte length and three zero bytes, then its UTF-8 form. */
  lemma ShortText(s: string, b: seq<byte>)
    requires Utf8(s) == b && |b| < 256
    ensures Serialize([BinUnicode(s)]) == [BINUNICODE, |b|, 0, 0, 0] + b
  {
    assert Serialize([BinUnicode(s)]) == OpBytes(BinUnicode(s)) + Serialize([]);
  }

  /** The same, for the one instruction. */
  lemma TextOp(s: string, b: seq<byte>)
    requires Utf8(s) == b && |b| < 256
    ensures OpBytes(BinUnicode(s)) == [BINUNICODE, |b|, 0, 0, 0] + b
  {
    ShortText(s, b);
    assert Serialize([BinUnicode(s)]) == OpBytes(BinUnicode(s)) + Serialize([]);
  }

  // ---------------------------------------------------------------------
  // Single primitives, memoization off

  const NO_HEAP: Heap := map[]

  lemma NoneVector()
    ensures Pickled(NO_HEAP, false, VNone) == Ok(Framed([NONE]))
  {
    PickledIs(NO_HEAP, false, VNone, Enc([PushNone], map[], 0), [NONE]);
  }

  lemma TrueVector()
    ensures Pickled(NO_HEAP, false, VBool(true)) == Ok(Framed([NEWTRUE]))
  {
    PickledIs(NO_HEAP, false, VBool(true), Enc([NewTrue], map[], 0), [NEWTRUE]);
  }

  const AT: string := "@"
  const AT_UTF8: seq<byte> := [0x40]

  lemma AtUtf8()
    ensures Utf8(AT) == AT_UTF8
  {
    AsciiUtf8(AT, AT_UTF8);
  }

  /** A char is a one-character string. */
  lemma CharVector()
    ensures Pickled(NO_HEAP, false, VChar('@')) == Ok(Framed([BINUNICODE, 1, 0, 0, 0] + AT_UTF8))
  {
    AtUtf8();
    ShortText(AT, AT_UTF8);
    PickledIs(NO_HEAP, false, VChar('@'), Enc([BinUnicode(AT)], map[], 0), [BINUNICODE, 1, 0, 0, 0] + AT_UTF8);
  }

  const HELLO: string := "hello"
  const HELLO_UTF8: seq<byte> := [0x68, 0x65, 0x6C, 0x6C, 0x6F]

  lemma HelloUtf8()
    ensures Utf8(HELLO) == HELLO_UTF8
  {
    AsciiUtf8(HELLO, HELLO_UTF8);
  }
  const HELLO_HEAP: Heap := map[0 := OStr(HELLO)]

  lemma HelloVector()
    ensures Pickled(HELLO_HEAP, false, VRef(0)) == Ok(Framed([BINUNICODE, 5, 0, 0, 0] + HELLO_UTF8))
  {
    HelloUtf8();
    ShortText(HELLO, HELLO_UTF8);
    PickledIs(HELLO_HEAP, false, VRef(0), Enc([BinUnicode(HELLO)], map[], 0), [BINUNICODE, 5, 0, 0, 0] + HELLO_UTF8);
  }

  const EURO: string := "€"
  const EURO_UTF8: seq<byte> := [0xE2, 0x82, 0xAC]

  /** U+20AC takes the three-byte form. */
  lemma EuroUtf8()
    ensures Utf8(EURO) == EURO_UTF8
  {
    assert EURO[0] as int == 0x20AC;
    assert CharUtf8(EURO[0]) == EURO_UTF8;
    assert EURO[1..] == [];
  }

  const HELLO_EURO: string := "hello€"
  const HELLO_EURO_UTF8: seq<byte> := HELLO_UTF8 + EURO_UTF8

  lemma HelloEuroUtf8()
    ensures Utf8(HELLO_EURO) == HELLO_EURO_UTF8
  {
    HelloUtf8();
    EuroUtf8();
    assert HELLO_EURO == HELLO + EURO;
    Utf8Concat(HELLO, EURO);
  }

  const HELLO_EURO_HEAP: Heap := map[0 := OStr(HELLO_EURO)]

  /** The length field counts UTF-8 bytes: eight for six characters. */
  lemma HelloEuroVector()
    ensures Pickled(HELLO_EURO_HEAP, false, VRef(0)) == Ok(Framed([BINUNICODE, 8, 0, 0, 0] + HELLO_EURO_UTF8))
  {
    HelloEuroUtf8();
    ShortText(HELLO_EURO, HELLO_EURO_UTF8);
    PickledIs(HELLO_EURO_HEAP, false, VRef(0), Enc([BinUnicode(HELLO_EURO)], map[], 0), [BINUNICODE, 8, 0, 0, 0] + HELLO_EURO_UTF8);
  }

  const WEDNESDAY: string := "WEDNESDAY"
  const WEDNESDAY_UTF8: seq<byte> := [0x57, 0x45, 0x44, 0x4E, 0x45, 0x53, 0x44, 0x41, 0x59]

  lemma WednesdayUtf8()
    ensures Utf8(WEDNESDAY) == WEDNESDAY_UTF8
  {
    AsciiUtf8(WEDNESDAY, WEDNESDAY_UTF8);
  }

  /** An enum member is written as its symbolic name. */
  lemma EnumVector()
    ensures Pickled(NO_HEAP, false, VEnum(WEDNESDAY)) == Ok(Framed([BINUNICODE, 9, 0, 0, 0] + WEDNESDAY_UTF8))
  {
    WednesdayUtf8();
    ShortText(WEDNESDAY, WEDNESDAY_UTF8);
    PickledIs(NO_HEAP, false, VEnum(WEDNESDAY), Enc([BinUnicode(WEDNESDAY)], map[], 0), [BINUNICODE, 9, 0, 0, 0] + WEDNESDAY_UTF8);
  }

  /** (byte)'@' fits one unsigned byte. */
  lemma ByteVector()
    ensures Pickled(NO_HEAP, false, VInt(0x40)) == Ok(Framed([BININT1, 0x40]))
  {
    PickledIs(NO_HEAP, false, VInt(0x40), Enc([BinInt1(0x40)], map[], 0), [BININT1, 0x40]);
  }

  /** Every negative integer in range takes the four-byte two's complement form. */
  lemma SbyteVector()
    ensures Pickled(NO_HEAP, false, VInt(-40)) == Ok(Framed([BININT, 0xD8, 0xFF, 0xFF, 0xFF]))
  {
    PickledIs(NO_HEAP, false, VInt(-40), Enc([BinInt(-40)], map[], 0), [BININT, 0xD8, 0xFF, 0xFF, 0xFF]);
  }

  lemma ShortVector()
    ensures Pickled(NO_HEAP, false, VInt(-0x1234)) == Ok(Framed([BININT, 0xCC, 0xED, 0xFF, 0xFF]))
  {
    PickledIs(NO_HEAP, false, VInt(-0x1234), Enc([BinInt(-0x1234)], map[], 0), [BININT, 0xCC, 0xED, 0xFF, 0xFF]);
  }

  /** Up to 0xFFFF, two unsigned bytes. */
  lemma UshortVector()
    ensures Pickled(NO_HEAP, false, VInt(0xF234)) == Ok(Framed([BININT2, 0x34, 0xF2]))
  {
    PickledIs(NO_HEAP, false, VInt(0xF234), Enc([BinInt2(0xF234)], map[], 0), [BININT2, 0x34, 0xF2]);
  }

  lemma IntVector()
    ensures Pickled(NO_HEAP, false, VInt(-0x12345678)) == Ok(Framed([BININT, 0x88, 0xA9, 0xCB, 0xED]))
  {
    PickledIs(NO_HEAP, false, VInt(-0x12345678), Enc([BinInt(-0x12345678)], map[], 0), [BININT, 0x88, 0xA9, 0xCB, 0xED]);
  }

  lemma UintVector()
    ensures Pickled(NO_HEAP, false, VInt(0x12345678)) == Ok(Framed([BININT, 0x78, 0x56, 0x34, 0x12]))
  {
    PickledIs(NO_HEAP, false, VInt(0x12345678), Enc([BinInt(0x12345678)], map[], 0), [BININT, 0x78, 0x56, 0x34, 0x12]);
  }

  /** One more decimal digit at the end. */
  lemma DigitsStep(q: nat, d: nat, t: seq<byte>)
    requires 1 <= q && d < 10 && Digits(q) == t
    ensures Digits(10 * q + d) == t + [ZERO + d]
  {
    assert (10 * q + d) / 10 == q && (10 * q + d) % 10 == d;
  }

  const UINT_DIGITS: seq<byte> := [0x34, 0x30, 0x36, 0x33, 0x35, 0x31, 0x36, 0x32, 0x38, 0x30]   // "4063516280"

  lemma UintDigits()
    ensures DecimalText(0xF234_5678) == UINT_DIGITS
  {
    assert Digits(4) == [ZERO + 4];
    DigitsStep(4, 0, Digits(4));
    DigitsStep(40, 6, Digits(40));
    DigitsStep(406, 3, Digits(406));
    DigitsStep(4063, 5, Digits(4063));
    DigitsStep(40635, 1, Digits(40635));
    DigitsStep(406351, 6, Digits(406351));
    DigitsStep(4063516, 2, Digits(4063516));
    DigitsStep(40635162, 8, Digits(40635162));
    DigitsStep(406351628, 0, Digits(406351628));
  }

  const LONG_DIGITS: seq<byte> := [0x35, 0x31, 0x32, 0x34, 0x30, 0x39, 0x35, 0x35, 0x37, 0x37, 0x31, 0x34, 0x38, 0x39, 0x31, 0x31]   // "5124095577148911"

  lemma LongDigits()
    ensures DecimalText(0x12_3456_78AB_CDEF) == LONG_DIGITS
  {
    assert Digits(5) == [ZERO + 5];
    DigitsStep(5, 1, Digits(5));
    DigitsStep(51, 2, Digits(51));
    DigitsStep(512, 4, Digits(512));
    DigitsStep(5124, 0, Digits(5124));
    DigitsStep(51240, 9, Digits(51240));
    DigitsStep(512409, 5, Digits(512409));
    DigitsStep(5124095, 5, Digits(5124095));
    DigitsStep(51240955, 7, Digits(51240955));
    DigitsStep(512409557, 7, Digits(512409557));
    DigitsStep(5124095577, 1, Digits(5124095577));
    DigitsStep(51240955771, 4, Digits(51240955771));
    DigitsStep(512409557714, 8, Digits(512409557714));
    DigitsStep(5124095577148, 9, Digits(5124095577148));
    DigitsStep(51240955771489, 1, Digits(51240955771489));
    DigitsStep(512409557714891, 1, Digits(512409557714891));
  }

  /** Past the signed 32-bit range, the decimal text form. */
  lemma LargeUintVector()
    ensures Pickled(NO_HEAP, false, VInt(0xF234_5678)) == Ok(Framed([INT] + UINT_DIGITS + [NEWLINE]))
  {
    UintDigits();
    assert Serialize([IntText(UINT_DIGITS)]) == OpBytes(IntText(UINT_DIGITS)) + Serialize([]);
    PickledIs(NO_HEAP, false, VInt(0xF234_5678), Enc([IntText(UINT_DIGITS)], map[], 0), [INT] + UINT_DIGITS + [NEWLINE]);
  }

  lemma LongVector()
    ensures Pickled(NO_HEAP, false, VInt(0x12_3456_78AB_CDEF)) == Ok(Framed([INT] + LONG_DIGITS + [NEWLINE]))
  {
    LongDigits();
    assert Serialize([IntText(LONG_DIGITS)]) == OpBytes(IntText(LONG_DIGITS)) + Serialize([]);
    PickledIs(NO_HEAP, false, VInt(0x12_3456_78AB_CDEF), Enc([IntText(LONG_DIGITS)], map[], 0), [INT] + LONG_DIGITS + [NEWLINE]);
  }

  // ---------------------------------------------------------------------
  // Arrays, memoization off

  /** Items that are references to strings off the path are written, with
      memoization off, as one text instruction each. */
  lemma {:induction false} SaveStrings(h: Heap, path: set<Ref>, items: seq<Val>, ops: seq<Op>)
    requires Closed(h) && ItemsIn(h, items) && |items| == |ops|
    requires forall i | 0 <= i < |items| ::
      items[i].VRef? && items[i].ref !in path && ops[i].BinUnicode? && h[items[i].ref] == OStr(ops[i].s)
    ensures SaveItems(h, false, path, map[], 0, items) == Ok(Enc(ops, map[], 0))
  {
    if items != [] {
      var r := items[0].ref;
      assert ValIn(h, items[0]) && h[r] == OStr(ops[0].s);
      assert SaveObject(h, false, path, map[], 0, r) == Ok(Enc([ops[0]], map[], 0));
      SaveStrings(h, path, items[1..], ops[1..]);
      assert ops == [ops[0]] + ops[1..];
    }
  }

  const ABC: string := "abc"
  const DEF: string := "def"
  const GHI: string := "ghi"
  const JKL: string := "jkl"

  const ABC_UTF8: seq<byte> := [0x61, 0x62, 0x63]
  const DEF_UTF8: seq<byte> := [0x64, 0x65, 0x66]
  const GHI_UTF8: seq<byte> := [0x67, 0x68, 0x69]
  const JKL_UTF8: seq<byte> := [0x6A, 0x6B, 0x6C]

  /** A three-letter text: X, the length 3 in four bytes, the letters. */
  lemma Text3(s: string, b: seq<byte>)
    requires |s| == |b| == 3 && forall i | 0 <= i < 3 :: s[i] as int == b[i] < 0x80
    ensures OpBytes(BinUnicode(s)) == [BINUNICODE, 3, 0, 0, 0] + b
  {
    AsciiUtf8(s, b);
  }

  /** Byte strings one after another. */
  function Flat(chunks: seq<seq<byte>>): seq<byte> {
    if chunks == [] then [] else chunks[0] + Flat(chunks[1..])
  }

  /** The bytes of a stream are the bytes of its instructions one after another. */
  lemma {:induction false} SerializeChunks(ops: seq<Op>, chunks: seq<seq<byte>>)
    requires |ops| == |chunks| && forall i | 0 <= i < |ops| :: OpBytes(ops[i]) == chunks[i]
    ensures Serialize(ops) == Flat(chunks)
  {
    if ops != [] {
      SerializeChunks(ops[1..], chunks[1..]);
    }
  }

  /** Byte strings one after another, split in two runs. */
  lemma {:induction false} FlatConcat(a: seq<seq<byte>>, b: seq<seq<byte>>)
    ensures Flat(a + b) == Flat(a) + Flat(b)
  {
    if a == [] {
      assert a + b == b;
    } else {
      assert (a + b)[0] == a[0] && (a + b)[1..] == a[1..] + b;
      FlatConcat(a[1..], b);
    }
  }

  /** SerializeChunks for a longer stream, in two halves. */
  lemma SerializeSplit(a: seq<Op>, b: seq<Op>, ca: seq<seq<byte>>, cb: seq<seq<byte>>)
    requires |a| == |ca| && forall i | 0 <= i < |a| :: OpBytes(a[i]) == ca[i]
    requires |b| == |cb| && forall i | 0 <= i < |b| :: OpBytes(b[i]) == cb[i]
    ensures Serialize(a + b) == Flat(ca + cb)
  {
    SerializeChunks(a, ca);
    SerializeChunks(b, cb);
    SerializeConcat(a, b);
    FlatConcat(ca, cb);
  }

  /** The bytes of a stream are the bytes of its first instruction, then the rest. */
  lemma SerializeFirst(op: Op, rest: seq<Op>)
    ensures Serialize([op] + rest) == OpBytes(op) + Serialize(rest)
  {
    assert ([op] + rest)[1..] == rest;
  }

  const ARRAYS_HEAP: Heap := map[
    1 := OStr(ABC), 2 := OStr(DEF), 3 := OStr(GHI), 4 := OStr(JKL),
    10 := OArray([]),
    11 := OArray([VRef(1)]),
    12 := OArray([VRef(1), VRef(2)]),
    13 := OArray([VRef(1), VRef(2), VRef(3)]),
    14 := OArray([VRef(1), VRef(2), VRef(3), VRef(4)])]

  lemma ArraysClosed()
    ensures Closed(ARRAYS_HEAP)
  {
    assert ARRAYS_HEAP.Keys == {1, 2, 3, 4, 10, 11, 12, 13, 14};
  }

  /** An array of references to strings, none of them the array itself: a
      tuple of one text instruction per element. */
  lemma StringArray(h: Heap, r: Ref, items: seq<Val>, ops: seq<Op>)
    requires Closed(h) && r in h && h[r] == OArray(items) && |items| == |ops|
    requires forall i | 0 <= i < |items| ::
      items[i].VRef? && items[i].ref in h && ops[i].BinUnicode? && h[items[i].ref] == OStr(ops[i].s)
    ensures SaveValue(h, false, {}, map[], 0, VRef(r)) == Ok(Enc(TupleOps(|items|, ops), map[], 0))
  {
    assert VRef(r) !in items by {
      forall i | 0 <= i < |items| ensures items[i] != VRef(r) {
        assert h[items[i].ref].OStr?;
      }
    }
    SaveStrings(h, {} + {r}, items, ops);
    assert SaveArray(h, false, {}, map[], 0, r) == Ok(Enc(TupleOps(|items|, ops), map[], 0));
  }

  lemma Array4Ops()
    ensures Closed(ARRAYS_HEAP)
    ensures SaveValue(ARRAYS_HEAP, false, {}, map[], 0, VRef(14)) == Ok(Enc(ARRAY4_OPS, map[], 0))
  {
    ArraysClosed();
    var ops := [BinUnicode(ABC), BinUnicode(DEF), BinUnicode(GHI), BinUnicode(JKL)];
    StringArray(ARRAYS_HEAP, 14, [VRef(1), VRef(2), VRef(3), VRef(4)], ops);
    assert TupleOps(4, ops) == ARRAY4_OPS;
  }

  const ARRAY4_OPS: seq<Op> := [Mark, BinUnicode(ABC), BinUnicode(DEF), BinUnicode(GHI), BinUnicode(JKL), Tuple]
  const ARRAY4_BYTES: seq<seq<byte>> := [[MARK],
    [BINUNICODE, 3, 0, 0, 0] + ABC_UTF8, [BINUNICODE, 3, 0, 0, 0] + DEF_UTF8,
    [BINUNICODE, 3, 0, 0, 0] + GHI_UTF8, [BINUNICODE, 3, 0, 0, 0] + JKL_UTF8, [TUPLE]]

  lemma Array4Bytes()
    ensures Serialize(ARRAY4_OPS) == Flat(ARRAY4_BYTES)
  {
    Text3(ABC, ABC_UTF8);
    Text3(DEF, DEF_UTF8);
    Text3(GHI, GHI_UTF8);
    Text3(JKL, JKL_UTF8);
    SerializeChunks(ARRAY4_OPS, ARRAY4_BYTES);
  }

  lemma Array4Vector()
    ensures Pickled(ARRAYS_HEAP, false, VRef(14)) == Ok(Framed(Flat(ARRAY4_BYTES)))
  {
    Array4Ops();
    Array4Bytes();
    PickledIs(ARRAYS_HEAP, false, VRef(14), Enc(ARRAY4_OPS, map[], 0), Flat(ARRAY4_BYTES));
  }

  // ---------------------------------------------------------------------
  // Memoization on

  /** One more item in front of a run of items. */
  lemma ItemsCons(h: Heap, useMemo: bool, path: set<Ref>, memo: map<Ref, nat>, next: nat, items: seq<Val>,
                  e1: Enc, e2: Enc, ops: seq<Op>)
    requires Closed(h) && ItemsIn(h, items) && items != []
    requires SaveValue(h, useMemo, path, memo, next, items[0]) == Ok(e1)
    requires SaveItems(h, useMemo, path, e1.memo, e1.next, items[1..]) == Ok(e2)
    requires ops == e1.ops + e2.ops
    ensures SaveItems(h, useMemo, path, memo, next, items) == Ok(Enc(ops, e2.memo, e2.next))
  {
  }

  /** A string met for the first time is written and given the next slot. */
  lemma FirstString(h: Heap, path: set<Ref>, memo: map<Ref, nat>, next: nat, r: Ref, s: string)
    requires Closed(h) && r in h && h[r] == OStr(s) && r !in memo && r !in path
    ensures SaveValue(h, true, path, memo, next, VRef(r)) == Ok(Enc([BinUnicode(s), Put(next)], memo[r := next], next + 1))
  {
    assert [BinUnicode(s)] + [Put(next)] == [BinUnicode(s), Put(next)];
    assert SaveObject(h, true, path, memo, next, r) == Ok(Memorize(true, Enc([BinUnicode(s)], memo, next), r));
  }

  /** A string met again is fetched from its slot. */
  lemma SeenAgain(h: Heap, path: set<Ref>, memo: map<Ref, nat>, next: nat, r: Ref)
    requires Closed(h) && r in h && r in memo
    ensures SaveValue(h, true, path, memo, next, VRef(r)) == Ok(Enc([Get(memo[r])], memo, next))
  {
  }

  const REUSED: string := "reused"
  const ANOTHER: string := "another"
  const REUSED_UTF8: seq<byte> := [0x72, 0x65, 0x75, 0x73, 0x65, 0x64]
  const ANOTHER_UTF8: seq<byte> := [0x61, 0x6E, 0x6F, 0x74, 0x68, 0x65, 0x72]

  /** The list of testMemoization: "reused" twice, "another", and a sublist
      holding "reused" twice and "another". */
  const MEMO_HEAP: Heap := map[
    0 := OList([VRef(1), VRef(1), VRef(2), VRef(3)]),
    1 := OStr(REUSED),
    2 := OStr(ANOTHER),
    3 := OList([VRef(1), VRef(1), VRef(2)])]

  lemma MemoClosed()
    ensures Closed(MEMO_HEAP)
  {
    assert MEMO_HEAP.Keys == {0, 1, 2, 3};
  }

  const MEMO_OPS: seq<Op> := [EmptyList, Put(0), Mark, BinUnicode(REUSED), Put(1), Get(1), BinUnicode(ANOTHER), Put(2),
    EmptyList, Put(3), Mark, Get(1), Get(1), Get(2), Appends, Appends]

  /** A list, stack or queue not met before: the shell, its items, APPENDS. */
  lemma CollectionIs(h: Heap, useMemo: bool, path: set<Ref>, memo: map<Ref, nat>, next: nat, r: Ref,
                     shell: Enc, inner: Enc, ops: seq<Op>)
    requires Closed(h) && r in h && IsOrdered(h[r]) && r !in path && !(useMemo && r in memo)
    requires shell == Memorize(useMemo, Enc([EmptyList], memo, next), r)
    requires SaveItems(h, useMemo, path + {r}, shell.memo, shell.next, Enumeration(h[r])) == Ok(inner)
    requires ops == shell.ops + [Mark] + inner.ops + [Appends]
    ensures SaveValue(h, useMemo, path, memo, next, VRef(r)) == Ok(Enc(ops, inner.memo, inner.next))
  {
    assert SaveObject(h, useMemo, path, memo, next, r) == SaveCollection(h, useMemo, path, memo, next, r);
  }

  lemma SublistOps()
    ensures Closed(MEMO_HEAP)
    ensures SaveValue(MEMO_HEAP, true, {0}, map[0 := 0, 1 := 1, 2 := 2], 3, VRef(3))
         == Ok(Enc([EmptyList, Put(3), Mark, Get(1), Get(1), Get(2), Appends], map[0 := 0, 1 := 1, 2 := 2, 3 := 3], 4))
  {
    MemoClosed();
    var h := MEMO_HEAP;
    var memo0: map<Ref, nat> := map[0 := 0, 1 := 1, 2 := 2];
    var memo := memo0[3 := 3];
    assert memo == map[0 := 0, 1 := 1, 2 := 2, 3 := 3];
    var items := [VRef(1), VRef(1), VRef(2)];
    assert h[3] == OList(items);
    var path := {0} + {3};
    SeenAgain(h, path, memo, 4, 2);
    SeenAgain(h, path, memo, 4, 1);
    assert SaveItems(h, true, path, memo, 4, items[3..]) == Ok(Enc([], memo, 4));
    assert items[1..][1..] == items[2..] && items[2..][1..] == items[3..];
    ItemsCons(h, true, path, memo, 4, items[2..], Enc([Get(2)], memo, 4), Enc([], memo, 4), [Get(2)]);
    ItemsCons(h, true, path, memo, 4, items[1..], Enc([Get(1)], memo, 4), Enc([Get(2)], memo, 4), [Get(1), Get(2)]);
    ItemsCons(h, true, path, memo, 4, items, Enc([Get(1)], memo, 4), Enc([Get(1), Get(2)], memo, 4), [Get(1), Get(1), Get(2)]);
    CollectionIs(h, true, {0}, memo0, 3, 3, Enc([EmptyList, Put(3)], memo, 4), Enc([Get(1), Get(1), Get(2)], memo, 4),
                 [EmptyList, Put(3), Mark, Get(1), Get(1), Get(2), Appends]);
  }

  const SUBLIST_OPS: seq<Op> := [EmptyList, Put(3), Mark, Get(1), Get(1), Get(2), Appends]
  const MEMO_ITEMS_OPS: seq<Op> := [BinUnicode(REUSED), Put(1), Get(1), BinUnicode(ANOTHER), Put(2)] + SUBLIST_OPS

  /** "another", then the sublist, after "reused" has slot 1. */
  lemma MemoTailOps()
    ensures Closed(MEMO_HEAP)
    ensures SaveItems(MEMO_HEAP, true, {0}, map[0 := 0, 1 := 1], 2, [VRef(2), VRef(3)])
         == Ok(Enc([BinUnicode(ANOTHER), Put(2)] + SUBLIST_OPS, map[0 := 0, 1 := 1, 2 := 2, 3 := 3], 4))
  {
    MemoClosed();
    var h := MEMO_HEAP;
    var m1: map<Ref, nat> := map[0 := 0, 1 := 1];
    var m2 := m1[2 := 2];
    assert m2 == map[0 := 0, 1 := 1, 2 := 2];
    var m3: map<Ref, nat> := map[0 := 0, 1 := 1, 2 := 2, 3 := 3];
    var items := [VRef(2), VRef(3)];
    SublistOps();
    FirstString(h, {0}, m1, 2, 2, ANOTHER);
    assert SaveItems(h, true, {0}, m3, 4, items[2..]) == Ok(Enc([], m3, 4));
    assert items[1..][1..] == items[2..];
    ItemsCons(h, true, {0}, m2, 3, items[1..], Enc(SUBLIST_OPS, m3, 4), Enc([], m3, 4), SUBLIST_OPS);
    ItemsCons(h, true, {0}, m1, 2, items, Enc([BinUnicode(ANOTHER), Put(2)], m2, 3), Enc(SUBLIST_OPS, m3, 4),
              [BinUnicode(ANOTHER), Put(2)] + SUBLIST_OPS);
  }

  /** The four items of the outer list, after the list itself has slot 0. */
  lemma MemoItemsOps()
    ensures Closed(MEMO_HEAP)
    ensures SaveItems(MEMO_HEAP, true, {0}, map[0 := 0], 1, [VRef(1), VRef(1), VRef(2), VRef(3)])
         == Ok(Enc(MEMO_ITEMS_OPS, map[0 := 0, 1 := 1, 2 := 2, 3 := 3], 4))
  {
    MemoClosed();
    var h := MEMO_HEAP;
    var m0: map<Ref, nat> := map[0 := 0];
    var m1 := m0[1 := 1];
    assert m1 == map[0 := 0, 1 := 1];
    var m3: map<Ref, nat> := map[0 := 0, 1 := 1, 2 := 2, 3 := 3];
    var items := [VRef(1), VRef(1), VRef(2), VRef(3)];
    var tail := [BinUnicode(ANOTHER), Put(2)] + SUBLIST_OPS;
    MemoTailOps();
    assert items[2..] == [VRef(2), VRef(3)];
    assert items[1..][1..] == items[2..];
    SeenAgain(h, {0}, m1, 2, 1);
    FirstString(h, {0}, m0, 1, 1, REUSED);
    ItemsCons(h, true, {0}, m1, 2, items[1..], Enc([Get(1)], m1, 2), Enc(tail, m3, 4), [Get(1)] + tail);
    ItemsCons(h, true, {0}, m0, 1, items, Enc([BinUnicode(REUSED), Put(1)], m1, 2), Enc([Get(1)] + tail, m3, 4),
              MEMO_ITEMS_OPS);
  }

  lemma MemoOpsSplit()
    ensures [EmptyList, Put(0)] + [Mark] + MEMO_ITEMS_OPS + [Appends] == MEMO_OPS
  {
  }

  lemma MemoListOps()
    ensures Closed(MEMO_HEAP)
    ensures SaveValue(MEMO_HEAP, true, {}, map[], 0, VRef(0)) == Ok(Enc(MEMO_OPS, map[0 := 0, 1 := 1, 2 := 2, 3 := 3], 4))
  {
    MemoClosed();
    MemoItemsOps();
    assert {} + {0} == {0};
    assert Enumeration(MEMO_HEAP[0]) == [VRef(1), VRef(1), VRef(2), VRef(3)];
    MemoOpsSplit();
    CollectionIs(MEMO_HEAP, true, {}, map[], 0, 0, Enc([EmptyList, Put(0)], map[0 := 0], 1),
                 Enc(MEMO_ITEMS_OPS, map[0 := 0, 1 := 1, 2 := 2, 3 := 3], 4), MEMO_OPS);
  }

  const MEMO_BYTES: seq<seq<byte>> := [[EMPTY_LIST], [BINPUT, 0], [MARK],
    REUSED_CHUNK, [BINPUT, 1], [BINGET, 1], ANOTHER_CHUNK, [BINPUT, 2],
    [EMPTY_LIST], [BINPUT, 3], [MARK], [BINGET, 1], [BINGET, 1], [BINGET, 2], [APPENDS], [APPENDS]]

  const REUSED_CHUNK: seq<byte> := [BINUNICODE, 6, 0, 0, 0] + REUSED_UTF8
  const ANOTHER_CHUNK: seq<byte> := [BINUNICODE, 7, 0, 0, 0] + ANOTHER_UTF8

  lemma ReusedText()
    ensures OpBytes(BinUnicode(REUSED)) == REUSED_CHUNK
  {
    AsciiUtf8(REUSED, REUSED_UTF8);
    TextOp(REUSED, REUSED_UTF8);
  }

  lemma AnotherText()
    ensures OpBytes(BinUnicode(ANOTHER)) == ANOTHER_CHUNK
  {
    AsciiUtf8(ANOTHER, ANOTHER_UTF8);
    TextOp(ANOTHER, ANOTHER_UTF8);
  }

  lemma MemoListBytes()
    ensures Serialize(MEMO_OPS) == Flat(MEMO_BYTES)
  {
    MemoChunks();
    SerializeChunks(MEMO_OPS, MEMO_BYTES);
  }

  lemma MemoChunks()
    ensures |MEMO_OPS| == |MEMO_BYTES|
    ensures forall i | 0 <= i < |MEMO_OPS| :: OpBytes(MEMO_OPS[i]) == MEMO_BYTES[i]
  {
    forall i | 0 <= i < |MEMO_OPS| ensures OpBytes(MEMO_OPS[i]) == MEMO_BYTES[i] {
      if i == 3 {
        MemoText3();
      } else if i == 6 {
        MemoText6();
      }
    }
  }

  lemma MemoText3()
    ensures OpBytes(MEMO_OPS[3]) == MEMO_BYTES[3]
  {
    ReusedText();
  }

  lemma MemoText6()
    ensures OpBytes(MEMO_OPS[6]) == MEMO_BYTES[6]
  {
    AnotherText();
  }

  /** testMemoization, its bytes: the repeated string is written once, given
      slot 1 and fetched from it afterwards, also inside the sublist. */
  lemma MemoListVector()
    ensures Pickled(MEMO_HEAP, true, VRef(0)) == Ok(Framed(Flat(MEMO_BYTES)))
  {
    MemoListOps();
    MemoListBytes();
    PickledIs(MEMO_HEAP, true, VRef(0), Enc(MEMO_OPS, map[0 := 0, 1 := 1, 2 := 2, 3 := 3], 4), Flat(MEMO_BYTES));
  }

  // ---------------------------------------------------------------------
  // Self references, memoization on

  const SELF_LIST_HEAP: Heap := map[0 := OList([VRef(1), VRef(1), VRef(0)]), 1 := OStr(REUSED)]

  const SELF_LIST_OPS: seq<Op> := [EmptyList, Put(0), Mark, BinUnicode(REUSED), Put(1), Get(1), Get(0), Appends]
  const SELF_LIST_BYTES: seq<seq<byte>> := [[EMPTY_LIST], [BINPUT, 0], [MARK], REUSED_CHUNK,
    [BINPUT, 1], [BINGET, 1], [BINGET, 0], [APPENDS]]

  lemma SelfListClosed()
    ensures Closed(SELF_LIST_HEAP)
  {
    assert SELF_LIST_HEAP.Keys == {0, 1};
  }

  lemma SelfListOps()
    ensures Closed(SELF_LIST_HEAP)
    ensures SaveValue(SELF_LIST_HEAP, true, {}, map[], 0, VRef(0)) == Ok(Enc(SELF_LIST_OPS, map[0 := 0, 1 := 1], 2))
  {
    SelfListClosed();
    var h := SELF_LIST_HEAP;
    var m0: map<Ref, nat> := map[0 := 0];
    var m1 := m0[1 := 1];
    assert m1 == map[0 := 0, 1 := 1];
    var items := [VRef(1), VRef(1), VRef(0)];
    assert {} + {0} == {0};
    assert h[0] == OList(items) && Enumeration(h[0]) == items;
    FirstString(h, {0}, m0, 1, 1, REUSED);
    SeenAgain(h, {0}, m1, 2, 1);
    SeenAgain(h, {0}, m1, 2, 0);
    assert SaveItems(h, true, {0}, m1, 2, items[3..]) == Ok(Enc([], m1, 2));
    assert items[1..][1..] == items[2..] && items[2..][1..] == items[3..];
    ItemsCons(h, true, {0}, m1, 2, items[2..], Enc([Get(0)], m1, 2), Enc([], m1, 2), [Get(0)]);
    ItemsCons(h, true, {0}, m1, 2, items[1..], Enc([Get(1)], m1, 2), Enc([Get(0)], m1, 2), [Get(1), Get(0)]);
    var inner := [BinUnicode(REUSED), Put(1), Get(1), Get(0)];
    ItemsCons(h, true, {0}, m0, 1, items, Enc([BinUnicode(REUSED), Put(1)], m1, 2), Enc([Get(1), Get(0)], m1, 2), inner);
    assert [EmptyList, Put(0)] + [Mark] + inner + [Appends] == SELF_LIST_OPS;
    CollectionIs(h, true, {}, map[], 0, 0, Enc([EmptyList, Put(0)], m0, 1), Enc(inner, m1, 2), SELF_LIST_OPS);
  }

  lemma SelfListBytes()
    ensures Serialize(SELF_LIST_OPS) == Flat(SELF_LIST_BYTES)
  {
    forall i | 0 <= i < |SELF_LIST_OPS| ensures OpBytes(SELF_LIST_OPS[i]) == SELF_LIST_BYTES[i] {
      if i == 3 {
        SelfListText();
      }
    }
    SerializeChunks(SELF_LIST_OPS, SELF_LIST_BYTES);
  }

  lemma SelfListText()
    ensures OpBytes(SELF_LIST_OPS[3]) == SELF_LIST_BYTES[3]
  {
    ReusedText();
  }

  /** testMemoizationRecursiveMemo, the list: its third item is a GET of the
      list's own slot 0. */
  lemma SelfListVector()
    ensures Pickled(SELF_LIST_HEAP, true, VRef(0)) == Ok(Framed(Flat(SELF_LIST_BYTES)))
  {
    SelfListOps();
    SelfListBytes();
    PickledIs(SELF_LIST_HEAP, true, VRef(0), Enc(SELF_LIST_OPS, map[0 := 0, 1 := 1], 2), Flat(SELF_LIST_BYTES));
  }

  /** testMemoizationRecursiveNoMemo: with memoization off the self-holding
      list never ends; .NET overflows its stack, the model reports it. */
  lemma SelfListNoMemo()
    ensures Closed(SELF_LIST_HEAP)
    ensures Pickled(SELF_LIST_HEAP, false, VRef(0)) == Err(UnboundedRecursion)
  {
    SelfListClosed();
    var h := SELF_LIST_HEAP;
    var items := [VRef(1), VRef(1), VRef(0)];
    assert {} + {0} == {0};
    assert h[0] == OList(items) && Enumeration(h[0]) == items;
    assert SaveValue(h, false, {0}, map[], 0, VRef(0)) == Err(UnboundedRecursion);
    assert SaveItems(h, false, {0}, map[], 0, items[2..]) == Err(UnboundedRecursion);
    assert SaveValue(h, false, {0}, map[], 0, VRef(1)) == Ok(Enc([BinUnicode(REUSED)], map[], 0));
    assert SaveItems(h, false, {0}, map[], 0, items[1..]) == Err(UnboundedRecursion);
    assert SaveItems(h, false, {0}, map[], 0, items) == Err(UnboundedRecursion);
    assert SaveObject(h, false, {}, map[], 0, 0) == SaveCollection(h, false, {}, map[], 0, 0);
  }

  const MYSELF: string := "myself"
  const MYSELF_UTF8: seq<byte> := [0x6D, 0x79, 0x73, 0x65, 0x6C, 0x66]
  const MYSELF_CHUNK: seq<byte> := [BINUNICODE, 6, 0, 0, 0] + MYSELF_UTF8

  lemma MyselfText()
    ensures OpBytes(BinUnicode(MYSELF)) == MYSELF_CHUNK
  {
    AsciiUtf8(MYSELF, MYSELF_UTF8);
    TextOp(MYSELF, MYSELF_UTF8);
  }

  /** The hashtable of testMemoizationRecursiveMemo: "myself" maps to itself. */
  const SELF_DICT_HEAP: Heap := map[0 := ODict([(VRef(1), VRef(0))]), 1 := OStr(MYSELF)]

  const SELF_DICT_OPS: seq<Op> := [EmptyDict, Put(0), Mark, BinUnicode(MYSELF), Put(1), Get(0), SetItems]
  const SELF_DICT_BYTES: seq<seq<byte>> := [[EMPTY_DICT], [BINPUT, 0], [MARK], MYSELF_CHUNK, [BINPUT, 1], [BINGET, 0], [SETITEMS]]

  lemma SelfDictClosed()
    ensures Closed(SELF_DICT_HEAP)
  {
    assert SELF_DICT_HEAP.Keys == {0, 1};
  }

  /** A dictionary not met before: the shell, its entries, SETITEMS. */
  lemma DictIs(h: Heap, useMemo: bool, path: set<Ref>, memo: map<Ref, nat>, next: nat, r: Ref,
               shell: Enc, inner: Enc, ops: seq<Op>)
    requires Closed(h) && r in h && h[r].ODict? && r !in path && !(useMemo && r in memo)
    requires shell == Memorize(useMemo, Enc([EmptyDict], memo, next), r)
    requires SaveEntries(h, useMemo, path + {r}, shell.memo, shell.next, h[r].entries) == Ok(inner)
    requires ops == shell.ops + [Mark] + inner.ops + [SetItems]
    ensures SaveValue(h, useMemo, path, memo, next, VRef(r)) == Ok(Enc(ops, inner.memo, inner.next))
  {
    assert SaveObject(h, useMemo, path, memo, next, r) == SaveDict(h, useMemo, path, memo, next, r);
  }

  lemma SelfDictOps()
    ensures Closed(SELF_DICT_HEAP)
    ensures SaveValue(SELF_DICT_HEAP, true, {}, map[], 0, VRef(0)) == Ok(Enc(SELF_DICT_OPS, map[0 := 0, 1 := 1], 2))
  {
    SelfDictClosed();
    var h := SELF_DICT_HEAP;
    var m0: map<Ref, nat> := map[0 := 0];
    var m1 := m0[1 := 1];
    assert m1 == map[0 := 0, 1 := 1];
    var entries := [(VRef(1), VRef(0))];
    assert {} + {0} == {0};
    assert h[0] == ODict(entries);
    FirstString(h, {0}, m0, 1, 1, MYSELF);
    SeenAgain(h, {0}, m1, 2, 0);
    var inner := [BinUnicode(MYSELF), Put(1), Get(0)];
    assert [BinUnicode(MYSELF), Put(1)] + [Get(0)] == inner;
    assert Then([BinUnicode(MYSELF), Put(1)], Ok(Enc([Get(0)], m1, 2))) == Ok(Enc(inner, m1, 2));
    assert SaveEntry(h, true, {0}, m0, 1, (VRef(1), VRef(0))) == Ok(Enc(inner, m1, 2));
    assert SaveEntries(h, true, {0}, m1, 2, entries[1..]) == Ok(Enc([], m1, 2));
    assert inner + [] == inner;
    assert SaveEntries(h, true, {0}, m0, 1, entries) == Ok(Enc(inner, m1, 2));
    assert [EmptyDict, Put(0)] + [Mark] + inner + [SetItems] == SELF_DICT_OPS;
    DictIs(h, true, {}, map[], 0, 0, Enc([EmptyDict, Put(0)], m0, 1), Enc(inner, m1, 2), SELF_DICT_OPS);
  }

  lemma SelfDictBytes()
    ensures Serialize(SELF_DICT_OPS) == Flat(SELF_DICT_BYTES)
  {
    forall i | 0 <= i < |SELF_DICT_OPS| ensures OpBytes(SELF_DICT_OPS[i]) == SELF_DICT_BYTES[i] {
      if i == 3 {
        SelfDictText();
      }
    }
    SerializeChunks(SELF_DICT_OPS, SELF_DICT_BYTES);
  }

  lemma SelfDictText()
    ensures OpBytes(SELF_DICT_OPS[3]) == SELF_DICT_BYTES[3]
  {
    MyselfText();
  }

  /** testMemoizationRecursiveMemo, the hashtable: the value is a GET of the
      dictionary's own slot 0. */
  lemma SelfDictVector()
    ensures Pickled(SELF_DICT_HEAP, true, VRef(0)) == Ok(Framed(Flat(SELF_DICT_BYTES)))
  {
    SelfDictOps();
    SelfDictBytes();
    PickledIs(SELF_DICT_HEAP, true, VRef(0), Enc(SELF_DICT_OPS, map[0 := 0, 1 := 1], 2), Flat(SELF_DICT_BYTES));
  }

  // ---------------------------------------------------------------------
  // Arrays of up to three elements, and other element types, memoization off

  lemma Array0Vector()
    ensures Pickled(ARRAYS_HEAP, false, VRef(10)) == Ok(Framed([EMPTY_TUPLE]))
  {
    ArraysClosed();
    StringArray(ARRAYS_HEAP, 10, [], []);
    assert TupleOps(0, []) == [EmptyTuple];
    PickledIs(ARRAYS_HEAP, false, VRef(10), Enc([EmptyTuple], map[], 0), [EMPTY_TUPLE]);
  }

  const ARRAY1_OPS: seq<Op> := [BinUnicode(ABC), Tuple1]
  const ARRAY1_BYTES: seq<seq<byte>> := [[BINUNICODE, 3, 0, 0, 0] + ABC_UTF8, [TUPLE1]]

  lemma Array1Vector()
    ensures Pickled(ARRAYS_HEAP, false, VRef(11)) == Ok(Framed(Flat(ARRAY1_BYTES)))
  {
    ArraysClosed();
    var ops := [BinUnicode(ABC)];
    StringArray(ARRAYS_HEAP, 11, [VRef(1)], ops);
    assert TupleOps(1, ops) == ARRAY1_OPS;
    Array1Bytes();
    PickledIs(ARRAYS_HEAP, false, VRef(11), Enc(ARRAY1_OPS, map[], 0), Flat(ARRAY1_BYTES));
  }

  lemma Array1Bytes()
    ensures Serialize(ARRAY1_OPS) == Flat(ARRAY1_BYTES)
  {
    Text3(ABC, ABC_UTF8);
    SerializeChunks(ARRAY1_OPS, ARRAY1_BYTES);
  }

  const ARRAY2_OPS: seq<Op> := [BinUnicode(ABC), BinUnicode(DEF), Tuple2]
  const ARRAY2_BYTES: seq<seq<byte>> := [[BINUNICODE, 3, 0, 0, 0] + ABC_UTF8, [BINUNICODE, 3, 0, 0, 0] + DEF_UTF8, [TUPLE2]]

  lemma Array2Ops()
    ensures Closed(ARRAYS_HEAP)
    ensures SaveValue(ARRAYS_HEAP, false, {}, map[], 0, VRef(12)) == Ok(Enc(ARRAY2_OPS, map[], 0))
  {
    ArraysClosed();
    var ops := [BinUnicode(ABC), BinUnicode(DEF)];
    StringArray(ARRAYS_HEAP, 12, [VRef(1), VRef(2)], ops);
    assert TupleOps(2, ops) == ARRAY2_OPS;
  }

  lemma Array2Bytes()
    ensures Serialize(ARRAY2_OPS) == Flat(ARRAY2_BYTES)
  {
    Text3(ABC, ABC_UTF8);
    Text3(DEF, DEF_UTF8);
    SerializeChunks(ARRAY2_OPS, ARRAY2_BYTES);
  }

  lemma Array2Vector()
    ensures Pickled(ARRAYS_HEAP, false, VRef(12)) == Ok(Framed(Flat(ARRAY2_BYTES)))
  {
    Array2Ops();
    Array2Bytes();
    PickledIs(ARRAYS_HEAP, false, VRef(12), Enc(ARRAY2_OPS, map[], 0), Flat(ARRAY2_BYTES));
  }

  const ARRAY3_OPS: seq<Op> := [BinUnicode(ABC), BinUnicode(DEF), BinUnicode(GHI), Tuple3]
  const ARRAY3_BYTES: seq<seq<byte>> := [[BINUNICODE, 3, 0, 0, 0] + ABC_UTF8, [BINUNICODE, 3, 0, 0, 0] + DEF_UTF8,
    [BINUNICODE, 3, 0, 0, 0] + GHI_UTF8, [TUPLE3]]

  lemma Array3Ops()
    ensures Closed(ARRAYS_HEAP)
    ensures SaveValue(ARRAYS_HEAP, false, {}, map[], 0, VRef(13)) == Ok(Enc(ARRAY3_OPS, map[], 0))
  {
    ArraysClosed();
    var ops := [BinUnicode(ABC), BinUnicode(DEF), BinUnicode(GHI)];
    StringArray(ARRAYS_HEAP, 13, [VRef(1), VRef(2), VRef(3)], ops);
    assert TupleOps(3, ops) == ARRAY3_OPS;
  }

  lemma Array3Bytes()
    ensures Serialize(ARRAY3_OPS) == Flat(ARRAY3_BYTES)
  {
    Text3(ABC, ABC_UTF8);
    Text3(DEF, DEF_UTF8);
    Text3(GHI, GHI_UTF8);
    SerializeChunks(ARRAY3_OPS, ARRAY3_BYTES);
  }

  lemma Array3Vector()
    ensures Pickled(ARRAYS_HEAP, false, VRef(13)) == Ok(Framed(Flat(ARRAY3_BYTES)))
  {
    Array3Ops();
    Array3Bytes();
    PickledIs(ARRAYS_HEAP, false, VRef(13), Enc(ARRAY3_OPS, map[], 0), Flat(ARRAY3_BYTES));
  }

  const ABC_UPPER: string := "ABC"
  const ABC_UPPER_UTF8: seq<byte> := [0x41, 0x42, 0x43]
  const CHARS_HEAP: Heap := map[0 := OCharArray(ABC_UPPER)]

  /** A char[] is written as one string. */
  lemma CharArrayVector()
    ensures Pickled(CHARS_HEAP, false, VRef(0)) == Ok(Framed([BINUNICODE, 3, 0, 0, 0] + ABC_UPPER_UTF8))
  {
    assert Closed(CHARS_HEAP);
    Text3(ABC_UPPER, ABC_UPPER_UTF8);
    assert Serialize([BinUnicode(ABC_UPPER)]) == OpBytes(BinUnicode(ABC_UPPER)) + Serialize([]);
    assert SaveObject(CHARS_HEAP, false, {}, map[], 0, 0) == Ok(Enc([BinUnicode(ABC_UPPER)], map[], 0));
    PickledIs(CHARS_HEAP, false, VRef(0), Enc([BinUnicode(ABC_UPPER)], map[], 0), [BINUNICODE, 3, 0, 0, 0] + ABC_UPPER_UTF8);
  }

  const BOOLS_HEAP: Heap := map[0 := OArray([VBool(true), VBool(false), VBool(true)])]

  const BOOLS_OPS: seq<Op> := [NewTrue, NewFalse, NewTrue, Tuple3]

  lemma BoolArrayOps()
    ensures Closed(BOOLS_HEAP)
    ensures SaveValue(BOOLS_HEAP, false, {}, map[], 0, VRef(0)) == Ok(Enc(BOOLS_OPS, map[], 0))
  {
    var h := BOOLS_HEAP;
    var items := [VBool(true), VBool(false), VBool(true)];
    var path := {} + {0};
    assert Closed(h) && h[0] == OArray(items);
    var none := Enc([], map[], 0);
    assert SaveItems(h, false, path, map[], 0, items[3..]) == Ok(none);
    assert items[1..][1..] == items[2..] && items[2..][1..] == items[3..];
    ItemsCons(h, false, path, map[], 0, items[2..], Enc([NewTrue], map[], 0), none, [NewTrue]);
    ItemsCons(h, false, path, map[], 0, items[1..], Enc([NewFalse], map[], 0), Enc([NewTrue], map[], 0), [NewFalse, NewTrue]);
    ItemsCons(h, false, path, map[], 0, items, Enc([NewTrue], map[], 0), Enc([NewFalse, NewTrue], map[], 0),
              [NewTrue, NewFalse, NewTrue]);
    assert TupleOps(3, [NewTrue, NewFalse, NewTrue]) == BOOLS_OPS;
    assert SaveArray(h, false, {}, map[], 0, 0) == Ok(Enc(BOOLS_OPS, map[], 0));
  }

  /** A bool[] of three elements is its three constants and TUPLE3. */
  lemma BoolArrayVector()
    ensures Pickled(BOOLS_HEAP, false, VRef(0)) == Ok(Framed([NEWTRUE, NEWFALSE, NEWTRUE, TUPLE3]))
  {
    BoolArrayOps();
    SerializeChunks(BOOLS_OPS, [[NEWTRUE], [NEWFALSE], [NEWTRUE], [TUPLE3]]);
    PickledIs(BOOLS_HEAP, false, VRef(0), Enc(BOOLS_OPS, map[], 0), [NEWTRUE, NEWFALSE, NEWTRUE, TUPLE3]);
  }

  const BYTES_HEAP: Heap := map[0 := OByteArray([1, 2, 3])]
  const LATIN1_UTF8: seq<byte> := [0x6C, 0x61, 0x74, 0x69, 0x6E, 0x2D, 0x31]
  const BYTEARRAY_OPS: seq<Op> := [Global(BUILTIN_MODULE, BYTEARRAY_NAME), BinUnicode(Latin1Decode([1, 2, 3])),
    BinUnicode(LATIN1), Tuple2, Reduce]
  const BYTEARRAY_BYTES: seq<seq<byte>> := [[GLOBAL] + BUILTIN_MODULE + [NEWLINE] + BYTEARRAY_NAME + [NEWLINE],
    [BINUNICODE, 3, 0, 0, 0, 1, 2, 3], [BINUNICODE, 7, 0, 0, 0] + LATIN1_UTF8, [TUPLE2], [REDUCE]]

  lemma ByteArrayOpsAre()
    ensures Closed(BYTES_HEAP)
    ensures SaveValue(BYTES_HEAP, false, {}, map[], 0, VRef(0)) == Ok(Enc(BYTEARRAY_OPS, map[], 0))
  {
    assert Closed(BYTES_HEAP);
    assert SaveObject(BYTES_HEAP, false, {}, map[], 0, 0) == Ok(Enc(ByteArrayOps([1, 2, 3]), map[], 0));
  }

  lemma ByteArrayBytes()
    ensures Serialize(BYTEARRAY_OPS) == Flat(BYTEARRAY_BYTES)
  {
    forall i | 0 <= i < |BYTEARRAY_OPS| ensures OpBytes(BYTEARRAY_OPS[i]) == BYTEARRAY_BYTES[i] {
      if i == 1 {
        ByteArrayText();
      } else if i == 2 {
        Latin1Text();
      }
    }
    SerializeChunks(BYTEARRAY_OPS, BYTEARRAY_BYTES);
  }

  lemma ByteArrayText()
    ensures OpBytes(BYTEARRAY_OPS[1]) == BYTEARRAY_BYTES[1]
  {
    var s := Latin1Decode([1, 2, 3]);
    AsciiUtf8(s, [1, 2, 3]);
    TextOp(s, [1, 2, 3]);
  }

  lemma Latin1Text()
    ensures OpBytes(BYTEARRAY_OPS[2]) == BYTEARRAY_BYTES[2]
  {
    AsciiUtf8(LATIN1, LATIN1_UTF8);
    TextOp(LATIN1, LATIN1_UTF8);
  }

  /** A byte[] is a call of bytearray with its bytes as Latin-1 text. */
  lemma ByteArrayVector()
    ensures Pickled(BYTES_HEAP, false, VRef(0)) == Ok(Framed(Flat(BYTEARRAY_BYTES)))
  {
    ByteArrayOpsAre();
    ByteArrayBytes();
    PickledIs(BYTES_HEAP, false, VRef(0), Enc(BYTEARRAY_OPS, map[], 0), Flat(BYTEARRAY_BYTES));
  }

  const INTS_HEAP: Heap := map[0 := OIntArray([1, 2, 3])]
  const INTARRAY_HEAD: seq<Op> := [Global(ARRAY_MODULE, ARRAY_MODULE), ShortBinString(INT_TYPECODE), EmptyList, Mark,
    BinInt1(1)]
  const INTARRAY_TAIL: seq<Op> := [BinInt1(2), BinInt1(3), Appends, Tuple2, Reduce]
  const INTARRAY_OPS: seq<Op> := INTARRAY_HEAD + INTARRAY_TAIL
  const INTARRAY_HEAD_BYTES: seq<seq<byte>> := [[GLOBAL] + ARRAY_MODULE + [NEWLINE] + ARRAY_MODULE + [NEWLINE],
    [SHORT_BINSTRING, 1] + INT_TYPECODE, [EMPTY_LIST], [MARK], [BININT1, 1]]
  const INTARRAY_TAIL_BYTES: seq<seq<byte>> := [[BININT1, 2], [BININT1, 3], [APPENDS], [TUPLE2], [REDUCE]]
  const INTARRAY_BYTES: seq<seq<byte>> := INTARRAY_HEAD_BYTES + INTARRAY_TAIL_BYTES

  lemma IntArrayOpsAre()
    ensures Closed(INTS_HEAP)
    ensures SaveValue(INTS_HEAP, false, {}, map[], 0, VRef(0)) == Ok(Enc(INTARRAY_OPS, map[], 0))
  {
    assert Closed(INTS_HEAP);
    assert IntOps([1, 2, 3]) == [BinInt1(1), BinInt1(2), BinInt1(3)];
    assert IntArrayOps([1, 2, 3]) == INTARRAY_OPS;
    assert SaveObject(INTS_HEAP, false, {}, map[], 0, 0) == Ok(Enc(IntArrayOps([1, 2, 3]), map[], 0));
  }

  lemma IntArrayBytes()
    ensures Serialize(INTARRAY_OPS) == Flat(INTARRAY_BYTES)
  {
    SerializeSplit(INTARRAY_HEAD, INTARRAY_TAIL, INTARRAY_HEAD_BYTES, INTARRAY_TAIL_BYTES);
  }

  /** An int[] is a call of array.array with type code 'i' and the list of its elements. */
  lemma IntArrayVector()
    ensures Pickled(INTS_HEAP, false, VRef(0)) == Ok(Framed(Flat(INTARRAY_BYTES)))
  {
    IntArrayOpsAre();
    IntArrayBytes();
    PickledIs(INTS_HEAP, false, VRef(0), Enc(INTARRAY_OPS, map[], 0), Flat(INTARRAY_BYTES));
  }

  // ---------------------------------------------------------------------
  // Lists, stacks and queues, memoization off

  /** Small integers one after another: one BININT1 each, the memo table untouched. */
  lemma {:induction false} SmallInts(h: Heap, useMemo: bool, path: set<Ref>, memo: map<Ref, nat>, next: nat,
                                     items: seq<Val>, ops: seq<Op>)
    requires Closed(h) && |items| == |ops|
    requires forall i | 0 <= i < |items| :: ops[i].BinInt1? && items[i] == VInt(ops[i].u8)
    ensures ItemsIn(h, items)
    ensures SaveItems(h, useMemo, path, memo, next, items) == Ok(Enc(ops, memo, next))
  {
    if items != [] {
      assert SaveValue(h, useMemo, path, memo, next, items[0]) == Ok(Enc([ops[0]], memo, next));
      SmallInts(h, useMemo, path, memo, next, items[1..], ops[1..]);
      assert ops == [ops[0]] + ops[1..];
    }
  }

  const LISTS_HEAP: Heap := map[
    0 := OList([VInt(1), VRef(1), VNone]),
    1 := OStr(ABC),
    2 := OStack([VInt(1), VInt(2), VInt(3)]),
    3 := OQueue([VInt(1), VInt(2), VInt(3)])]

  lemma ListsClosed()
    ensures Closed(LISTS_HEAP)
  {
    assert LISTS_HEAP.Keys == {0, 1, 2, 3};
  }

  const LIST_OPS: seq<Op> := [EmptyList, Mark, BinInt1(1), BinUnicode(ABC), PushNone, Appends]
  const LIST_BYTES: seq<seq<byte>> := [[EMPTY_LIST], [MARK], [BININT1, 1], [BINUNICODE, 3, 0, 0, 0] + ABC_UTF8,
    [NONE], [APPENDS]]

  lemma ListOps()
    ensures Closed(LISTS_HEAP)
    ensures SaveValue(LISTS_HEAP, false, {}, map[], 0, VRef(0)) == Ok(Enc(LIST_OPS, map[], 0))
  {
    ListsClosed();
    var h := LISTS_HEAP;
    var items := [VInt(1), VRef(1), VNone];
    var path := {} + {0};
    assert h[0] == OList(items) && Enumeration(h[0]) == items;
    var none := Enc([], map[], 0);
    assert SaveItems(h, false, path, map[], 0, items[3..]) == Ok(none);
    assert items[1..][1..] == items[2..] && items[2..][1..] == items[3..];
    ItemsCons(h, false, path, map[], 0, items[2..], Enc([PushNone], map[], 0), none, [PushNone]);
    assert SaveObject(h, false, path, map[], 0, 1) == Ok(Enc([BinUnicode(ABC)], map[], 0));
    ItemsCons(h, false, path, map[], 0, items[1..], Enc([BinUnicode(ABC)], map[], 0), Enc([PushNone], map[], 0),
              [BinUnicode(ABC), PushNone]);
    var inner := [BinInt1(1), BinUnicode(ABC), PushNone];
    assert IntOp(1) == BinInt1(1);
    ItemsCons(h, false, path, map[], 0, items, Enc([BinInt1(1)], map[], 0), Enc([BinUnicode(ABC), PushNone], map[], 0), inner);
    assert [EmptyList] + [Mark] + inner + [Appends] == LIST_OPS;
    CollectionIs(h, false, {}, map[], 0, 0, Enc([EmptyList], map[], 0), Enc(inner, map[], 0), LIST_OPS);
  }

  lemma ListBytes()
    ensures Serialize(LIST_OPS) == Flat(LIST_BYTES)
  {
    Text3(ABC, ABC_UTF8);
    SerializeChunks(LIST_OPS, LIST_BYTES);
  }

  /** testLists, an ArrayList or List of 1, "abc" and null: the empty list,
      MARK, the three items, APPENDS. */
  lemma ListVector()
    ensures Pickled(LISTS_HEAP, false, VRef(0)) == Ok(Framed(Flat(LIST_BYTES)))
  {
    ListOps();
    ListBytes();
    PickledIs(LISTS_HEAP, false, VRef(0), Enc(LIST_OPS, map[], 0), Flat(LIST_BYTES));
  }

  const STACK_OPS: seq<Op> := [EmptyList, Mark, BinInt1(3), BinInt1(2), BinInt1(1), Appends]

  lemma StackOps()
    ensures Closed(LISTS_HEAP)
    ensures SaveValue(LISTS_HEAP, false, {}, map[], 0, VRef(2)) == Ok(Enc(STACK_OPS, map[], 0))
  {
    ListsClosed();
    var h := LISTS_HEAP;
    var inner := [BinInt1(3), BinInt1(2), BinInt1(1)];
    assert Enumeration(h[2]) == [VInt(3), VInt(2), VInt(1)];
    SmallInts(h, false, {} + {2}, map[], 0, [VInt(3), VInt(2), VInt(1)], inner);
    assert [EmptyList] + [Mark] + inner + [Appends] == STACK_OPS;
    CollectionIs(h, false, {}, map[], 0, 2, Enc([EmptyList], map[], 0), Enc(inner, map[], 0), STACK_OPS);
  }

  lemma StackBytes()
    ensures Serialize(STACK_OPS) == [EMPTY_LIST, MARK, BININT1, 3, BININT1, 2, BININT1, 1, APPENDS]
  {
    SerializeChunks(STACK_OPS, [[EMPTY_LIST], [MARK], [BININT1, 3], [BININT1, 2], [BININT1, 1], [APPENDS]]);
  }

  /** testLists, a stack after pushing 1, 2, 3: enumerated from the top, so 3, 2, 1. */
  lemma StackVector()
    ensures Pickled(LISTS_HEAP, false, VRef(2))
         == Ok(Framed([EMPTY_LIST, MARK, BININT1, 3, BININT1, 2, BININT1, 1, APPENDS]))
  {
    StackOps();
    StackBytes();
    PickledIs(LISTS_HEAP, false, VRef(2), Enc(STACK_OPS, map[], 0),
              [EMPTY_LIST, MARK, BININT1, 3, BININT1, 2, BININT1, 1, APPENDS]);
  }

  const QUEUE_OPS: seq<Op> := [EmptyList, Mark, BinInt1(1), BinInt1(2), BinInt1(3), Appends]

  lemma QueueOps()
    ensures Closed(LISTS_HEAP)
    ensures SaveValue(LISTS_HEAP, false, {}, map[], 0, VRef(3)) == Ok(Enc(QUEUE_OPS, map[], 0))
  {
    ListsClosed();
    var h := LISTS_HEAP;
    var inner := [BinInt1(1), BinInt1(2), BinInt1(3)];
    assert Enumeration(h[3]) == [VInt(1), VInt(2), VInt(3)];
    SmallInts(h, false, {} + {3}, map[], 0, [VInt(1), VInt(2), VInt(3)], inner);
    assert [EmptyList] + [Mark] + inner + [Appends] == QUEUE_OPS;
    CollectionIs(h, false, {}, map[], 0, 3, Enc([EmptyList], map[], 0), Enc(inner, map[], 0), QUEUE_OPS);
  }

  lemma QueueBytes()
    ensures Serialize(QUEUE_OPS) == [EMPTY_LIST, MARK, BININT1, 1, BININT1, 2, BININT1, 3, APPENDS]
  {
    SerializeChunks(QUEUE_OPS, [[EMPTY_LIST], [MARK], [BININT1, 1], [BININT1, 2], [BININT1, 3], [APPENDS]]);
  }

  /** testLists, a queue after enqueueing 1, 2, 3: in that order. */
  lemma QueueVector()
    ensures Pickled(LISTS_HEAP, false, VRef(3))
         == Ok(Framed([EMPTY_LIST, MARK, BININT1, 1, BININT1, 2, BININT1, 3, APPENDS]))
  {
    QueueOps();
    QueueBytes();
    PickledIs(LISTS_HEAP, false, VRef(3), Enc(QUEUE_OPS, map[], 0),
              [EMPTY_LIST, MARK, BININT1, 1, BININT1, 2, BININT1, 3, APPENDS]);
  }

  // ---------------------------------------------------------------------
  // Failures

  /** TestRecursiveArray2: an array holding itself among its first three
      elements is refused up front. */
  const RECURSIVE2_HEAP: Heap := map[0 := OArray([VRef(1), VRef(0)]), 1 := OStr(HELLO)]

  lemma RecursiveArray2()
    ensures Closed(RECURSIVE2_HEAP)
    ensures Pickled(RECURSIVE2_HEAP, false, VRef(0)) == Err(RecursiveArray)
    ensures Message(RecursiveArray) == "recursive array not supported, use list"
  {
    assert RECURSIVE2_HEAP.Keys == {0, 1};
    assert RECURSIVE2_HEAP[0].items[1] == VRef(0);
    assert SaveArray(RECURSIVE2_HEAP, false, {}, map[], 0, 0) == Err(RecursiveArray);
    assert SaveObject(RECURSIVE2_HEAP, false, {}, map[], 0, 0) == Err(RecursiveArray);
  }

  /** Strings off the path, then an item that fails: the failure. */
  lemma {:induction false} StringsThenErr(h: Heap, path: set<Ref>, items: seq<Val>, e: PickleError)
    requires Closed(h) && ItemsIn(h, items) && items != []
    requires forall i | 0 <= i < |items| - 1 :: items[i].VRef? && items[i].ref !in path && h[items[i].ref].OStr?
    requires SaveValue(h, false, path, map[], 0, items[|items| - 1]) == Err(e)
    ensures SaveItems(h, false, path, map[], 0, items) == Err(e)
  {
    if |items| > 1 {
      var r := items[0].ref;
      assert ValIn(h, items[0]);
      assert SaveObject(h, false, path, map[], 0, r) == Ok(Enc([BinUnicode(h[r].s)], map[], 0));
      StringsThenErr(h, path, items[1..], e);
    }
  }

  /** TestRecursiveArray6: a longer array holding itself fails when its
      encoding reaches the element. */
  const RECURSIVE6_HEAP: Heap := map[
    0 := OArray([VRef(1), VRef(2), VRef(3), VRef(4), VRef(5), VRef(0)]),
    1 := OStr("a"), 2 := OStr("b"), 3 := OStr("c"), 4 := OStr("d"), 5 := OStr("e")]

  lemma RecursiveArray6()
    ensures Closed(RECURSIVE6_HEAP)
    ensures Pickled(RECURSIVE6_HEAP, false, VRef(0)) == Err(RecursiveArray)
  {
    var h := RECURSIVE6_HEAP;
    assert h.Keys == {0, 1, 2, 3, 4, 5};
    var items := [VRef(1), VRef(2), VRef(3), VRef(4), VRef(5), VRef(0)];
    assert h[0] == OArray(items);
    assert SaveValue(h, false, {} + {0}, map[], 0, VRef(0)) == Err(RecursiveArray);
    StringsThenErr(h, {} + {0}, items, RecursiveArray);
    assert SaveArray(h, false, {}, map[], 0, 0) == Err(RecursiveArray);
    assert SaveObject(h, false, {}, map[], 0, 0) == Err(RecursiveArray);
  }

  /** testFailure: an object whose type has no public properties. */
  const NOT_A_BEAN_HEAP: Heap := map[0 := OObject("Pyrolite.Tests.Pickle.PicklerTests+NotABean", false, [])]

  lemma NoPropertiesFails()
    ensures Closed(NOT_A_BEAN_HEAP)
    ensures Pickled(NOT_A_BEAN_HEAP, false, VRef(0)) == Err(NoPublicMembers)
  {
    assert Closed(NOT_A_BEAN_HEAP);
    assert SaveInstance(NOT_A_BEAN_HEAP, false, {}, map[], 0, 0) == Err(NoPublicMembers);
    assert SaveObject(NOT_A_BEAN_HEAP, false, {}, map[], 0, 0) == Err(NoPublicMembers);
  }
}
