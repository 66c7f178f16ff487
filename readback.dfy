/** What the unpickler tests read back from the pickles of `Vectors`: the
    facts they check follow from the round trip of `Theorem`. */
module Readback {
  import opened Wrappers
  import opened Bytes
  import opened Values
  import opened Encoder
  import opened Decoder
  import opened RoundTrip
  import opened Theorem
  import opened Vectors

  /** The round trip, for a pickle whose bytes are known. */
  lemma ReadBack(h: Heap, useMemo: bool, root: Val, bytes: seq<byte>) returns (dh: seq<DObj>, d: DVal, own: map<Addr, Ref>)
    requires WellFormedHeap(h) && ValIn(h, root) && ValFits(root)
    requires Pickled(h, useMemo, root) == Ok(bytes)
    ensures Loads(bytes) == Ok((dh, d))
    ensures ValCorr(dh, own, root, d) && Decoded(h, dh, own)
    ensures useMemo ==> OneCellEach(own)
  {
    dh, d, own := PickleRoundTrip(h, useMemo, root);
  }

  /** The decoded cell a reference to `r` points at stands for `h[r]`. */
  lemma CellOf(h: Heap, dh: seq<DObj>, own: map<Addr, Ref>, r: Ref, d: DVal)
    requires Decoded(h, dh, own) && ValCorr(dh, own, VRef(r), d)
    ensures d.addr < |dh| && r in h && ObjCorr(dh, own, h[r], dh[d.addr])
  {
  }

  /** With one cell per instance, two references to one instance are equal. */
  lemma SameCell(dh: seq<DObj>, own: map<Addr, Ref>, r: Ref, d1: DVal, d2: DVal)
    requires OneCellEach(own) && ValCorr(dh, own, VRef(r), d1) && ValCorr(dh, own, VRef(r), d2)
    ensures d1 == d2
  {
  }

  lemma MemoWellFormed()
    ensures WellFormedHeap(MEMO_HEAP)
  {
    MemoClosed();
    MemoKeysApart();
    assert MEMO_HEAP.Keys == {0, 1, 2, 3};
  }

  /** The heap holds lists and strings only, so no keys to keep apart. */
  lemma MemoKeysApart()
    ensures forall r | r in MEMO_HEAP :: KeysApart(MEMO_HEAP, MEMO_HEAP[r])
  {
    forall r | r in MEMO_HEAP ensures KeysApart(MEMO_HEAP, MEMO_HEAP[r]) {
      assert !MEMO_HEAP[r].ODict? && !MEMO_HEAP[r].OObject?;
    }
  }

  /** testMemoization, read back: four items, the first two one and the same
      "reused" string, the third "another", the fourth a list whose items are
      those same strings again. */
  lemma MemoListLoads() returns (dh: seq<DObj>, d: DVal)
    ensures Loads(Framed(Flat(MEMO_BYTES))) == Ok((dh, d))
    ensures d.DRef? && d.addr < |dh| && dh[d.addr].DList? && |dh[d.addr].items| == 4
    ensures StrAt(dh, dh[d.addr].items[0], REUSED) && dh[d.addr].items[1] == dh[d.addr].items[0]
    ensures StrAt(dh, dh[d.addr].items[2], ANOTHER)
    ensures var sub := dh[d.addr].items[3];
      sub.DRef? && sub.addr < |dh|
      && dh[sub.addr] == DList([dh[d.addr].items[0], dh[d.addr].items[0], dh[d.addr].items[2]])
  {
    MemoListVector();
    MemoWellFormed();
    var own;
    dh, d, own := ReadBack(MEMO_HEAP, true, VRef(0), Framed(Flat(MEMO_BYTES)));
    MemoListShape(dh, d, own);
  }

  lemma MemoListShape(dh: seq<DObj>, d: DVal, own: map<Addr, Ref>)
    requires ValCorr(dh, own, VRef(0), d) && Decoded(MEMO_HEAP, dh, own) && OneCellEach(own)
    ensures d.DRef? && d.addr < |dh| && dh[d.addr].DList? && |dh[d.addr].items| == 4
    ensures StrAt(dh, dh[d.addr].items[0], REUSED) && dh[d.addr].items[1] == dh[d.addr].items[0]
    ensures StrAt(dh, dh[d.addr].items[2], ANOTHER)
    ensures var sub := dh[d.addr].items[3];
      sub.DRef? && sub.addr < |dh|
      && dh[sub.addr] == DList([dh[d.addr].items[0], dh[d.addr].items[0], dh[d.addr].items[2]])
  {
    var h := MEMO_HEAP;
    CellOf(h, dh, own, 0, d);
    var xs := dh[d.addr].items;
    assert SeqCorr(dh, own, [VRef(1), VRef(1), VRef(2), VRef(3)], xs);
    assert ValCorr(dh, own, VRef(1), xs[0]) && ValCorr(dh, own, VRef(1), xs[1]);
    assert ValCorr(dh, own, VRef(2), xs[2]) && ValCorr(dh, own, VRef(3), xs[3]);
    SameCell(dh, own, 1, xs[0], xs[1]);
    CellOf(h, dh, own, 1, xs[0]);
    CellOf(h, dh, own, 2, xs[2]);
    CellOf(h, dh, own, 3, xs[3]);
    var ys := dh[xs[3].addr].items;
    assert SeqCorr(dh, own, [VRef(1), VRef(1), VRef(2)], ys);
    assert ValCorr(dh, own, VRef(1), ys[0]) && ValCorr(dh, own, VRef(1), ys[1]) && ValCorr(dh, own, VRef(2), ys[2]);
    SameCell(dh, own, 1, xs[0], ys[0]);
    SameCell(dh, own, 1, xs[0], ys[1]);
    SameCell(dh, own, 2, xs[2], ys[2]);
    assert ys == [xs[0], xs[0], xs[2]];
  }

  lemma SelfListWellFormed()
    ensures WellFormedHeap(SELF_LIST_HEAP)
  {
    SelfListClosed();
    ShortFits(REUSED);
    TwoFit(SELF_LIST_HEAP);
  }

  /** testMemoizationRecursiveMemo, the list read back: three items, the
      first two the same "reused" string, the third the list itself. */
  lemma SelfListLoads() returns (dh: seq<DObj>, d: DVal)
    ensures Loads(Framed(Flat(SELF_LIST_BYTES))) == Ok((dh, d))
    ensures d.DRef? && d.addr < |dh| && dh[d.addr].DList? && |dh[d.addr].items| == 3
    ensures StrAt(dh, dh[d.addr].items[0], REUSED) && dh[d.addr].items[1] == dh[d.addr].items[0]
    ensures dh[d.addr].items[2] == d
  {
    SelfListVector();
    SelfListWellFormed();
    var own;
    dh, d, own := ReadBack(SELF_LIST_HEAP, true, VRef(0), Framed(Flat(SELF_LIST_BYTES)));
    SelfListShape(dh, d, own);
  }

  lemma SelfListShape(dh: seq<DObj>, d: DVal, own: map<Addr, Ref>)
    requires ValCorr(dh, own, VRef(0), d) && Decoded(SELF_LIST_HEAP, dh, own) && OneCellEach(own)
    ensures d.DRef? && d.addr < |dh| && dh[d.addr].DList? && |dh[d.addr].items| == 3
    ensures StrAt(dh, dh[d.addr].items[0], REUSED) && dh[d.addr].items[1] == dh[d.addr].items[0]
    ensures dh[d.addr].items[2] == d
  {
    var h := SELF_LIST_HEAP;
    CellOf(h, dh, own, 0, d);
    var xs := dh[d.addr].items;
    assert SeqCorr(dh, own, [VRef(1), VRef(1), VRef(0)], xs);
    assert ValCorr(dh, own, VRef(1), xs[0]) && ValCorr(dh, own, VRef(1), xs[1]) && ValCorr(dh, own, VRef(0), xs[2]);
    SameCell(dh, own, 1, xs[0], xs[1]);
    SameCell(dh, own, 0, d, xs[2]);
    CellOf(h, dh, own, 1, xs[0]);
  }

  lemma SelfDictWellFormed()
    ensures WellFormedHeap(SELF_DICT_HEAP)
  {
    SelfDictClosed();
    ShortFits(MYSELF);
    TwoFit(SELF_DICT_HEAP);
  }

  /** A closed heap of two instances whose every instance fits is well formed. */
  lemma TwoFit(h: Heap)
    requires h.Keys == {0, 1} && Closed(h)
    requires ObjFits(h[0]) && ObjFits(h[1]) && KeysApart(h, h[0]) && KeysApart(h, h[1])
    ensures WellFormedHeap(h)
  {
  }

  /** testMemoizationRecursiveMemo, the hashtable read back: one entry, whose
      key is "myself" and whose value is the hashtable itself. */
  lemma SelfDictLoads() returns (dh: seq<DObj>, d: DVal)
    ensures Loads(Framed(Flat(SELF_DICT_BYTES))) == Ok((dh, d))
    ensures d.DRef? && d.addr < |dh| && dh[d.addr].DDict? && |dh[d.addr].entries| == 1
    ensures StrAt(dh, dh[d.addr].entries[0].0, MYSELF) && dh[d.addr].entries[0].1 == d
  {
    SelfDictVector();
    SelfDictWellFormed();
    var own;
    dh, d, own := ReadBack(SELF_DICT_HEAP, true, VRef(0), Framed(Flat(SELF_DICT_BYTES)));
    var h := SELF_DICT_HEAP;
    CellOf(h, dh, own, 0, d);
    var es := dh[d.addr].entries;
    assert EntriesCorr(dh, own, [(VRef(1), VRef(0))], es);
    assert ValCorr(dh, own, VRef(1), es[0].0) && ValCorr(dh, own, VRef(0), es[0].1);
    SameCell(dh, own, 0, d, es[0].1);
    CellOf(h, dh, own, 1, es[0].0);
  }

  // ---------------------------------------------------------------------
  // Generic objects

  /** Properties whose values each encode, with memoization off, encode together. */
  lemma {:induction false} PropsOk(h: Heap, path: set<Ref>, props: seq<(string, Val)>)
    requires Closed(h) && PropsIn(h, props)
    requires forall i | 0 <= i < |props| :: SaveValue(h, false, path, map[], 0, props[i].1).Ok?
    ensures SaveProps(h, false, path, map[], 0, props).Ok?
  {
    if props != [] {
      ValueGrows(h, false, path, map[], 0, props[0].1);
      PropsOk(h, path, props[1..]);
    }
  }

  /** Text of fewer than 2^29 characters fits: UTF-8 takes at most four bytes each. */
  lemma ShortFits(s: string)
    requires |s| < 0x2000_0000
    ensures TextFits(s)
  {
  }

  /** A generic object with short names and fitting values fits. */
  lemma ObjectFits(cls: string, anonymous: bool, props: seq<(string, Val)>)
    requires |cls| < 0x2000_0000
    requires forall i | 0 <= i < |props| :: |props[i].0| < 0x2000_0000 && ValFits(props[i].1)
    ensures ObjFits(OObject(cls, anonymous, props))
  {
    ShortFits(cls);
    forall i | 0 <= i < |props| ensures TextFits(props[i].0) {
      ShortFits(props[i].0);
    }
  }

  const NAME: string := "Name"
  const DECEASED: string := "Deceased"
  const VALUES: string := "Values"
  const RELATION: string := "Relation"
  const TUPAC: string := "Tupac"
  const UNSPECIFIED: string := "unspecified"

  /** testClass: a Relative named Tupac, deceased, with values 3, 4, 5 and
      the relation its constructor sets; `cls` is its full type name,
      Pyrolite.Tests.Pickle.PicklerTests+Relative. Its properties are listed
      in declaration order, base type first. */
  function ClassHeap(cls: string): Heap {
    map[
      0 := OObject(cls, false, [(NAME, VRef(1)), (DECEASED, VBool(true)), (VALUES, VRef(2)), (RELATION, VRef(3))]),
      1 := OStr(TUPAC),
      2 := OIntArray([3, 4, 5]),
      3 := OStr(UNSPECIFIED)]
  }

  /** A closed heap of four instances whose every instance fits is well formed. */
  lemma FourFit(h: Heap)
    requires h.Keys == {0, 1, 2, 3} && Closed(h)
    requires ObjFits(h[0]) && ObjFits(h[1]) && ObjFits(h[2]) && ObjFits(h[3])
    requires KeysApart(h, h[0]) && KeysApart(h, h[1]) && KeysApart(h, h[2]) && KeysApart(h, h[3])
    ensures WellFormedHeap(h)
  {
  }

  lemma ClassWellFormed(cls: string)
    requires |cls| < 0x2000_0000
    ensures WellFormedHeap(ClassHeap(cls))
  {
    ClassKeys(cls);
    ClassFits0(cls);
    ClassFitsTexts(cls);
    ClassKeysApart(cls);
    FourFit(ClassHeap(cls));
  }

  /** The four property names differ, and none is CLASS_KEY. */
  lemma ClassKeysApart(cls: string)
    ensures KeysApart(ClassHeap(cls), ClassHeap(cls)[0])
  {
    assert |CLASS_KEY| == 9 && |NAME| == 4 && |DECEASED| == 8 && |VALUES| == 6 && |RELATION| == 8;
    assert DECEASED[0] != RELATION[0];
  }

  lemma ClassKeys(cls: string)
    ensures ClassHeap(cls).Keys == {0, 1, 2, 3} && Closed(ClassHeap(cls)) && ObjFits(ClassHeap(cls)[2])
  {
  }

  lemma ClassFits0(cls: string)
    requires |cls| < 0x2000_0000
    ensures ObjFits(ClassHeap(cls)[0])
  {
    ObjectFits(cls, false, ClassHeap(cls)[0].props);
  }

  lemma ClassFitsTexts(cls: string)
    ensures ObjFits(ClassHeap(cls)[1]) && ObjFits(ClassHeap(cls)[3])
  {
    ShortFits(TUPAC);
    ShortFits(UNSPECIFIED);
  }

  lemma ClassPickles(cls: string) returns (bytes: seq<byte>)
    ensures Closed(ClassHeap(cls)) && Pickled(ClassHeap(cls), false, VRef(0)) == Ok(bytes)
  {
    var h := ClassHeap(cls);
    assert h.Keys == {0, 1, 2, 3};
    var props := h[0].props;
    var path := {} + {0};
    assert SaveObject(h, false, path, map[], 0, 1).Ok? && SaveObject(h, false, path, map[], 0, 2).Ok?;
    assert SaveObject(h, false, path, map[], 0, 3).Ok?;
    assert forall i | 0 <= i < |props| :: props[i].1 in {VRef(1), VBool(true), VRef(2), VRef(3)};
    PropsOk(h, path, props);
    assert SaveObject(h, false, {}, map[], 0, 0).Ok?;
    bytes := Pickled(h, false, VRef(0)).value;
  }

  /** testClass, read back: a dictionary of five entries, the four properties
      and `__class__` with the class name; the int[] comes back as an int[]. */
  lemma ClassLoads(cls: string) returns (bytes: seq<byte>, dh: seq<DObj>, d: DVal)
    requires |cls| < 0x2000_0000
    ensures Pickled(ClassHeap(cls), false, VRef(0)) == Ok(bytes)
    ensures Loads(bytes) == Ok((dh, d))
    ensures d.DRef? && d.addr < |dh| && dh[d.addr].DDict? && |dh[d.addr].entries| == 5
    ensures var es := dh[d.addr].entries;
      && StrAt(dh, es[0].0, NAME) && StrAt(dh, es[0].1, TUPAC)
      && StrAt(dh, es[1].0, DECEASED) && es[1].1 == DBool(true)
      && StrAt(dh, es[2].0, VALUES) && es[2].1.DRef? && es[2].1.addr < |dh| && dh[es[2].1.addr] == DIntArray([3, 4, 5])
      && StrAt(dh, es[3].0, RELATION) && StrAt(dh, es[3].1, UNSPECIFIED)
      && StrAt(dh, es[4].0, CLASS_KEY) && StrAt(dh, es[4].1, cls)
  {
    bytes := ClassPickles(cls);
    ClassWellFormed(cls);
    var own;
    dh, d, own := ReadBack(ClassHeap(cls), false, VRef(0), bytes);
    ClassShape(cls, dh, d, own);
  }

  lemma ClassShape(cls: string, dh: seq<DObj>, d: DVal, own: map<Addr, Ref>)
    requires ValCorr(dh, own, VRef(0), d) && Decoded(ClassHeap(cls), dh, own)
    ensures d.DRef? && d.addr < |dh| && dh[d.addr].DDict? && |dh[d.addr].entries| == 5
    ensures var es := dh[d.addr].entries;
      && StrAt(dh, es[0].0, NAME) && StrAt(dh, es[0].1, TUPAC)
      && StrAt(dh, es[1].0, DECEASED) && es[1].1 == DBool(true)
      && StrAt(dh, es[2].0, VALUES) && es[2].1.DRef? && es[2].1.addr < |dh| && dh[es[2].1.addr] == DIntArray([3, 4, 5])
      && StrAt(dh, es[3].0, RELATION) && StrAt(dh, es[3].1, UNSPECIFIED)
      && StrAt(dh, es[4].0, CLASS_KEY) && StrAt(dh, es[4].1, cls)
  {
    var h := ClassHeap(cls);
    CellOf(h, dh, own, 0, d);
    var props := h[0].props;
    var es := dh[d.addr].entries;
    assert PropsCorr(dh, own, props, es[..4]);
    assert es[..4][0] == es[0] && es[..4][1] == es[1] && es[..4][2] == es[2] && es[..4][3] == es[3];
    assert ValCorr(dh, own, VRef(1), es[0].1) && ValCorr(dh, own, VRef(2), es[2].1) && ValCorr(dh, own, VRef(3), es[3].1);
    CellOf(h, dh, own, 1, es[0].1);
    CellOf(h, dh, own, 2, es[2].1);
    CellOf(h, dh, own, 3, es[3].1);
  }

  const COUNTRY: string := "Country"
  const AGE: string := "Age"
  const HARRY: string := "Harry"
  const UK: string := "UK"

  /** testAnonType: an instance of an anonymous type, which carries no class
      name; `cls` is the name the compiler gives the type. */
  function AnonHeap(cls: string): Heap {
    map[
      0 := OObject(cls, true, [(NAME, VRef(1)), (COUNTRY, VRef(2)), (AGE, VInt(34))]),
      1 := OStr(HARRY),
      2 := OStr(UK)]
  }

  lemma AnonWellFormed(cls: string)
    requires |cls| < 0x2000_0000
    ensures WellFormedHeap(AnonHeap(cls))
  {
    var h := AnonHeap(cls);
    assert h.Keys == {0, 1, 2};
    ObjectFits(cls, true, h[0].props);
    ShortFits(HARRY);
    ShortFits(UK);
    AnonKeysApart(cls);
    ThreeFit(h);
  }

  /** The three property names differ. */
  lemma AnonKeysApart(cls: string)
    ensures KeysApart(AnonHeap(cls), AnonHeap(cls)[0])
  {
    assert |NAME| == 4 && |COUNTRY| == 7 && |AGE| == 3;
  }

  /** A closed heap of three instances whose every instance fits is well formed. */
  lemma ThreeFit(h: Heap)
    requires h.Keys == {0, 1, 2} && Closed(h)
    requires ObjFits(h[0]) && ObjFits(h[1]) && ObjFits(h[2])
    requires KeysApart(h, h[0]) && KeysApart(h, h[1]) && KeysApart(h, h[2])
    ensures WellFormedHeap(h)
  {
  }

  lemma AnonPickles(cls: string) returns (bytes: seq<byte>)
    ensures Closed(AnonHeap(cls)) && Pickled(AnonHeap(cls), true, VRef(0)) == Ok(bytes)
  {
    var h := AnonHeap(cls);
    assert h.Keys == {0, 1, 2};
    var props := h[0].props;
    var m0: map<Ref, nat> := map[0 := 0];
    var m1 := m0[1 := 1];
    var m2 := m1[2 := 2];
    var path := {} + {0};
    FirstString(h, path, m0, 1, 1, HARRY);
    FirstString(h, path, m1, 2, 2, UK);
    assert SaveProps(h, true, path, m2, 3, props[3..]).Ok?;
    assert SaveProps(h, true, path, m2, 3, props[2..]).Ok?;
    assert SaveProps(h, true, path, m1, 2, props[1..]).Ok?;
    assert SaveProps(h, true, path, m0, 1, props).Ok?;
    assert SaveObject(h, true, {}, map[], 0, 0).Ok?;
    bytes := Pickled(h, true, VRef(0)).value;
  }

  /** testAnonType, read back: three entries, Age is 34, and no key is `__class__`. */
  lemma AnonLoads(cls: string) returns (bytes: seq<byte>, dh: seq<DObj>, d: DVal)
    requires |cls| < 0x2000_0000
    ensures Pickled(AnonHeap(cls), true, VRef(0)) == Ok(bytes)
    ensures Loads(bytes) == Ok((dh, d))
    ensures d.DRef? && d.addr < |dh| && dh[d.addr].DDict? && |dh[d.addr].entries| == 3
    ensures StrAt(dh, dh[d.addr].entries[2].0, AGE) && dh[d.addr].entries[2].1 == DInt(34)
    ensures forall i | 0 <= i < 3 :: !StrAt(dh, dh[d.addr].entries[i].0, CLASS_KEY)
  {
    bytes := AnonPickles(cls);
    AnonWellFormed(cls);
    var own;
    dh, d, own := ReadBack(AnonHeap(cls), true, VRef(0), bytes);
    AnonShape(cls, dh, d, own);
  }

  lemma AnonShape(cls: string, dh: seq<DObj>, d: DVal, own: map<Addr, Ref>)
    requires ValCorr(dh, own, VRef(0), d) && Decoded(AnonHeap(cls), dh, own)
    ensures d.DRef? && d.addr < |dh| && dh[d.addr].DDict? && |dh[d.addr].entries| == 3
    ensures StrAt(dh, dh[d.addr].entries[2].0, AGE) && dh[d.addr].entries[2].1 == DInt(34)
    ensures forall i | 0 <= i < 3 :: !StrAt(dh, dh[d.addr].entries[i].0, CLASS_KEY)
  {
    var h := AnonHeap(cls);
    CellOf(h, dh, own, 0, d);
    var es := dh[d.addr].entries;
    assert PropsCorr(dh, own, h[0].props, es[..3]);
    assert es[..3] == es;
    assert StrAt(dh, es[0].0, NAME) && StrAt(dh, es[1].0, COUNTRY) && StrAt(dh, es[2].0, AGE);
    assert |CLASS_KEY| == 9 && |NAME| == 4 && |COUNTRY| == 7 && |AGE| == 3;
  }
}
