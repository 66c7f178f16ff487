/** The pickler: how a value and everything it references becomes a
    protocol-2 instruction stream, first as functions (the specification),
    then as the `Pickler` class that appends bytes to its output and keeps
    its memo table as it goes. */
module Encoder {
  import opened Wrappers
  import opened Bytes
  import opened Opcodes
  import opened Values

  datatype PickleError = RecursiveArray | UnboundedRecursion | NoPublicMembers

  /** The message each failure carries. */
  function Message(e: PickleError): string {
    match e
    case RecursiveArray => "recursive array not supported, use list"
    case UnboundedRecursion => "recursion without memoization does not terminate"
    case NoPublicMembers => "couldn't pickle object: it has no public properties"
  }

  /** What an encoding step produced: the instructions it emitted, then the
      memo table (instance to slot) and the next free slot afterwards. */
  datatype Enc = Enc(ops: seq<Op>, memo: map<Ref, nat>, next: nat)

  /** The integer width rule: one unsigned byte, two unsigned bytes, four
      signed bytes, or else the decimal text form, chosen by value alone. */
  function IntOp(v: int): (op: Op)
    ensures WellFormedOp(op)
    ensures 0 <= v < 256 <==> op.BinInt1?
    ensures 256 <= v < TWO_16 <==> op.BinInt2?
    ensures (-(TWO_31 as int) <= v < 0 || TWO_16 <= v < TWO_31) <==> op.BinInt?
    ensures (v < -(TWO_31 as int) || TWO_31 <= v) <==> op.IntText?
    ensures op.BinInt1? ==> op.u8 == v
    ensures op.BinInt2? ==> op.u16 == v
    ensures op.BinInt? ==> op.i32 == v
    ensures op.IntText? ==> op.text == DecimalText(v)
  {
    if 0 <= v < 256 then BinInt1(v)
    else if 0 <= v < TWO_16 then BinInt2(v)
    else if -(TWO_31 as int) <= v < TWO_31 then BinInt(v)
    else IntText(DecimalText(v))
  }

  /** An element-type array of n elements as a tuple: EMPTY_TUPLE for none,
      the elements then TUPLE1/2/3 for one to three, MARK, the elements, TUPLE
      for four or more. */
  function TupleOps(n: nat, elements: seq<Op>): seq<Op> {
    TupleOpen(n) + elements + TupleClose(n)
  }

  function TupleOpen(n: nat): seq<Op> {
    if n == 0 then [EmptyTuple] else if n <= 3 then [] else [Mark]
  }

  function TupleClose(n: nat): seq<Op> {
    if n == 0 then [] else if n == 1 then [Tuple1] else if n == 2 then [Tuple2]
    else if n == 3 then [Tuple3] else [Tuple]
  }

  /** With memoization on, record `r` under the next free slot and emit the
      PUT for it; with it off, change nothing. */
  function Memorize(useMemo: bool, e: Enc, r: Ref): (m: Enc)
    ensures useMemo ==> m.memo == e.memo[r := e.next] && m.next == e.next + 1
    ensures useMemo ==> m.ops == e.ops + [Put(e.next)]
    ensures !useMemo ==> m == e
  {
    if useMemo then Enc(e.ops + [Put(e.next)], e.memo[r := e.next], e.next + 1) else e
  }

  /** `after` extends the memo table `memo` (next free slot `next`): old
      entries are kept, every new entry is an instance off the current path
      with a slot in [next, after.next). */
  predicate Grows(memo: map<Ref, nat>, next: nat, after: Enc, path: set<Ref>) {
    && next <= after.next
    && (forall k | k in memo :: k in after.memo && after.memo[k] == memo[k])
    && (forall k | k in after.memo && k !in memo :: k !in path && next <= after.memo[k] < after.next)
  }

  lemma ShrinkUnvisited(h: Heap, path: set<Ref>, r: Ref)
    requires r in h && r !in path
    ensures |h.Keys - (path + {r})| < |h.Keys - path|
  {
    assert h.Keys - path == (h.Keys - (path + {r})) + {r};
  }

  /** The elements of an int[], one integer instruction each. */
  function IntOps(xs: seq<int>): (ops: seq<Op>)
    ensures |ops| == |xs|
  {
    if xs == [] then [] else [IntOp(xs[0])] + IntOps(xs[1..])
  }

  /** An int[] as a call of array.array with type code 'i' and the list of its elements. */
  function IntArrayOps(xs: seq<int>): seq<Op> {
    [Global(ARRAY_MODULE, ARRAY_MODULE), ShortBinString(INT_TYPECODE), EmptyList, Mark]
      + IntOps(xs) + [Appends, Tuple2, Reduce]
  }

  /** A byte[] as a call of bytearray with its bytes as Latin-1 text and the encoding name. */
  function ByteArrayOps(d: seq<byte>): seq<Op> {
    [Global(BUILTIN_MODULE, BYTEARRAY_NAME), BinUnicode(Latin1Decode(d)), BinUnicode(LATIN1), Tuple2, Reduce]
  }

  /** The class-name entry a non-anonymous generic object carries. */
  function ClassEntryOps(o: Obj): seq<Op>
    requires o.OObject?
  {
    if o.anonymous then [] else [BinUnicode(CLASS_KEY), BinUnicode(o.className)]
  }

  /** The result of an encoding function prefixed by instructions already emitted. */
  function Then(prefix: seq<Op>, r: Result<Enc, PickleError>): Result<Enc, PickleError> {
    match r
    case Err(e) => Err(e)
    case Ok(e) => Ok(Enc(prefix + e.ops, e.memo, e.next))
  }

  /** Encodes one value. A memo hit is a GET of the instance's slot; an
      instance that is already being encoded further up fails, as a recursive
      array if it is an array and as unbounded recursion otherwise (that is
      only reachable with memoization off). */
  function SaveValue(h: Heap, useMemo: bool, path: set<Ref>, memo: map<Ref, nat>, next: nat, v: Val)
    : (r: Result<Enc, PickleError>)
    requires Closed(h) && ValIn(h, v)
    decreases |h.Keys - path|, 2, 0
  {
    match v
    case VNone => Ok(Enc([PushNone], memo, next))
    case VBool(b) => Ok(Enc([if b then NewTrue else NewFalse], memo, next))
    case VInt(i) => Ok(Enc([IntOp(i)], memo, next))
    case VChar(c) => Ok(Enc([BinUnicode([c])], memo, next))
    case VEnum(name) => Ok(Enc([BinUnicode(name)], memo, next))
    case VRef(r) =>
      if useMemo && r in memo then Ok(Enc([Get(memo[r])], memo, next))
      else if r in path then Err(if h[r].OArray? then RecursiveArray else UnboundedRecursion)
      else SaveObject(h, useMemo, path, memo, next, r)
  }

  /** Encodes an instance that has no memo slot yet and is not on the path.
      Atomic instances get their PUT after their instructions; lists and
      dictionaries (and generic objects, written as dictionaries) get it right
      after the empty shell, before their contents. */
  function SaveObject(h: Heap, useMemo: bool, path: set<Ref>, memo: map<Ref, nat>, next: nat, r: Ref)
    : (res: Result<Enc, PickleError>)
    requires Closed(h) && r in h && r !in path && !(useMemo && r in memo)
    decreases |h.Keys - path|, 1, 0
  {
    match h[r]
    case OStr(s) => Ok(Memorize(useMemo, Enc([BinUnicode(s)], memo, next), r))
    case OCharArray(cs) => Ok(Memorize(useMemo, Enc([BinUnicode(cs)], memo, next), r))
    case OIntArray(xs) => Ok(Memorize(useMemo, Enc(IntArrayOps(xs), memo, next), r))
    case OByteArray(d) => Ok(Memorize(useMemo, Enc(ByteArrayOps(d), memo, next), r))
    case OArray(_) => SaveArray(h, useMemo, path, memo, next, r)
    case ODict(_) => SaveDict(h, useMemo, path, memo, next, r)
    case OObject(_, _, _) => SaveInstance(h, useMemo, path, memo, next, r)
    case _ => SaveCollection(h, useMemo, path, memo, next, r)
  }

  /** An array of values: a tuple of its elements, memoized once built. An
      array of one to three elements that holds itself is refused before
      anything is written. */
  function SaveArray(h: Heap, useMemo: bool, path: set<Ref>, memo: map<Ref, nat>, next: nat, r: Ref)
    : (res: Result<Enc, PickleError>)
    requires Closed(h) && r in h && r !in path && !(useMemo && r in memo) && h[r].OArray?
    decreases |h.Keys - path|, 0, 0
  {
    var items := h[r].items;
    assert ObjIn(h, h[r]);
    ShrinkUnvisited(h, path, r);
    if 1 <= |items| <= 3 && VRef(r) in items then Err(RecursiveArray)
    else
      match SaveItems(h, useMemo, path + {r}, memo, next, items)
      case Err(e) => Err(e)
      case Ok(e) => Ok(Memorize(useMemo, Enc(TupleOps(|items|, e.ops), e.memo, e.next), r))
  }

  /** A dictionary: the memoized empty shell, then MARK, the entries, SETITEMS. */
  function SaveDict(h: Heap, useMemo: bool, path: set<Ref>, memo: map<Ref, nat>, next: nat, r: Ref)
    : (res: Result<Enc, PickleError>)
    requires Closed(h) && r in h && r !in path && !(useMemo && r in memo) && h[r].ODict?
    decreases |h.Keys - path|, 0, 0
  {
    assert ObjIn(h, h[r]);
    ShrinkUnvisited(h, path, r);
    var shell := Memorize(useMemo, Enc([EmptyDict], memo, next), r);
    match SaveEntries(h, useMemo, path + {r}, shell.memo, shell.next, h[r].entries)
    case Err(e) => Err(e)
    case Ok(e) => Ok(Enc(shell.ops + [Mark] + e.ops + [SetItems], e.memo, e.next))
  }

  /** A generic object: a dictionary of its properties and, unless its type is
      anonymous, its class name under `__class__`; no properties is a failure. */
  function SaveInstance(h: Heap, useMemo: bool, path: set<Ref>, memo: map<Ref, nat>, next: nat, r: Ref)
    : (res: Result<Enc, PickleError>)
    requires Closed(h) && r in h && r !in path && !(useMemo && r in memo) && h[r].OObject?
    decreases |h.Keys - path|, 0, 0
  {
    var o := h[r];
    assert ObjIn(h, o);
    ShrinkUnvisited(h, path, r);
    if |o.props| == 0 then Err(NoPublicMembers)
    else
      var shell := Memorize(useMemo, Enc([EmptyDict], memo, next), r);
      match SaveProps(h, useMemo, path + {r}, shell.memo, shell.next, o.props)
      case Err(e) => Err(e)
      case Ok(e) => Ok(Enc(shell.ops + [Mark] + e.ops + ClassEntryOps(o) + [SetItems], e.memo, e.next))
  }

  /** A list, stack or queue: the memoized empty list, then MARK, the items in
      enumeration order, APPENDS. */
  function SaveCollection(h: Heap, useMemo: bool, path: set<Ref>, memo: map<Ref, nat>, next: nat, r: Ref)
    : (res: Result<Enc, PickleError>)
    requires Closed(h) && r in h && r !in path && !(useMemo && r in memo)
    requires h[r].OList? || h[r].OStack? || h[r].OQueue?
    decreases |h.Keys - path|, 0, 0
  {
    var o := h[r];
    assert ObjIn(h, o);
    EnumerationIn(h, o);
    ShrinkUnvisited(h, path, r);
    var shell := Memorize(useMemo, Enc([EmptyList], memo, next), r);
    match SaveItems(h, useMemo, path + {r}, shell.memo, shell.next, Enumeration(o))
    case Err(e) => Err(e)
    case Ok(e) => Ok(Enc(shell.ops + [Mark] + e.ops + [Appends], e.memo, e.next))
  }

  /** Encodes values one after another, threading the memo table. */
  function SaveItems(h: Heap, useMemo: bool, path: set<Ref>, memo: map<Ref, nat>, next: nat, items: seq<Val>)
    : (r: Result<Enc, PickleError>)
    requires Closed(h) && ItemsIn(h, items)
    decreases |h.Keys - path|, 3, |items|
  {
    if items == [] then Ok(Enc([], memo, next))
    else
      match SaveValue(h, useMemo, path, memo, next, items[0])
      case Err(e) => Err(e)
      case Ok(e1) =>
        match SaveItems(h, useMemo, path, e1.memo, e1.next, items[1..])
        case Err(e) => Err(e)
        case Ok(e2) => Ok(Enc(e1.ops + e2.ops, e2.memo, e2.next))
  }

  /** Encodes one key/value pair, the key first. */
  function SaveEntry(h: Heap, useMemo: bool, path: set<Ref>, memo: map<Ref, nat>, next: nat, entry: (Val, Val))
    : (r: Result<Enc, PickleError>)
    requires Closed(h) && ValIn(h, entry.0) && ValIn(h, entry.1)
    decreases |h.Keys - path|, 3, 0
  {
    match SaveValue(h, useMemo, path, memo, next, entry.0)
    case Err(e) => Err(e)
    case Ok(e1) => Then(e1.ops, SaveValue(h, useMemo, path, e1.memo, e1.next, entry.1))
  }

  /** Encodes key/value pairs one after another. */
  function SaveEntries(h: Heap, useMemo: bool, path: set<Ref>, memo: map<Ref, nat>, next: nat, entries: seq<(Val, Val)>)
    : (r: Result<Enc, PickleError>)
    requires Closed(h) && EntriesIn(h, entries)
    decreases |h.Keys - path|, 3, |entries|
  {
    if entries == [] then Ok(Enc([], memo, next))
    else
      match SaveEntry(h, useMemo, path, memo, next, entries[0])
      case Err(e) => Err(e)
      case Ok(e1) => Then(e1.ops, SaveEntries(h, useMemo, path, e1.memo, e1.next, entries[1..]))
  }

  /** Encodes the properties of a generic object: each name as text, then its value. */
  function SaveProps(h: Heap, useMemo: bool, path: set<Ref>, memo: map<Ref, nat>, next: nat, props: seq<(string, Val)>)
    : (r: Result<Enc, PickleError>)
    requires Closed(h) && PropsIn(h, props)
    decreases |h.Keys - path|, 3, |props|
  {
    if props == [] then Ok(Enc([], memo, next))
    else
      match SaveValue(h, useMemo, path, memo, next, props[0].1)
      case Err(e) => Err(e)
      case Ok(e1) =>
        match SaveProps(h, useMemo, path, e1.memo, e1.next, props[1..])
        case Err(e) => Err(e)
        case Ok(e2) => Ok(Enc([BinUnicode(props[0].0)] + e1.ops + e2.ops, e2.memo, e2.next))
  }

  /** Growth of the memo table is transitive. */
  lemma GrowsTrans(memo: map<Ref, nat>, next: nat, e1: Enc, e2: Enc, path: set<Ref>)
    requires Grows(memo, next, e1, path) && Grows(e1.memo, e1.next, e2, path)
    ensures Grows(memo, next, e2, path)
  {
  }

  lemma GrowsShell(useMemo: bool, memo: map<Ref, nat>, next: nat, ops: seq<Op>, r: Ref, path: set<Ref>)
    requires r !in path && !(useMemo && r in memo)
    ensures Grows(memo, next, Memorize(useMemo, Enc(ops, memo, next), r), path)
  {
  }

  /** What every encoding step does to the memo table: entries already there
      stay, new ones are instances off the path with the slots handed out
      during the step; with memoization off the table is untouched. */
  predicate MemoStep(useMemo: bool, memo: map<Ref, nat>, next: nat, r: Result<Enc, PickleError>, path: set<Ref>) {
    r.Ok? ==> Grows(memo, next, r.value, path) && (!useMemo ==> r.value.memo == memo && r.value.next == next)
  }

  lemma ValueGrows(h: Heap, useMemo: bool, path: set<Ref>, memo: map<Ref, nat>, next: nat, v: Val)
    requires Closed(h) && ValIn(h, v)
    ensures MemoStep(useMemo, memo, next, SaveValue(h, useMemo, path, memo, next, v), path)
    decreases |h.Keys - path|, 2, 0
  {
    if v.VRef? && !(useMemo && v.ref in memo) && v.ref !in path {
      ObjectGrows(h, useMemo, path, memo, next, v.ref);
    }
  }

  lemma ObjectGrows(h: Heap, useMemo: bool, path: set<Ref>, memo: map<Ref, nat>, next: nat, r: Ref)
    requires Closed(h) && r in h && r !in path && !(useMemo && r in memo)
    ensures MemoStep(useMemo, memo, next, SaveObject(h, useMemo, path, memo, next, r), path)
    decreases |h.Keys - path|, 1, 0
  {
    match h[r]
    case OArray(_) => ArrayGrows(h, useMemo, path, memo, next, r);
    case ODict(_) => DictGrows(h, useMemo, path, memo, next, r);
    case OObject(_, _, _) => InstanceGrows(h, useMemo, path, memo, next, r);
    case OList(_) => CollectionGrows(h, useMemo, path, memo, next, r);
    case OStack(_) => CollectionGrows(h, useMemo, path, memo, next, r);
    case OQueue(_) => CollectionGrows(h, useMemo, path, memo, next, r);
    case _ =>
  }

  lemma ArrayGrows(h: Heap, useMemo: bool, path: set<Ref>, memo: map<Ref, nat>, next: nat, r: Ref)
    requires Closed(h) && r in h && r !in path && !(useMemo && r in memo) && h[r].OArray?
    ensures MemoStep(useMemo, memo, next, SaveArray(h, useMemo, path, memo, next, r), path)
    decreases |h.Keys - path|, 0, 0
  {
    var items := h[r].items;
    assert ObjIn(h, h[r]);
    ShrinkUnvisited(h, path, r);
    if !(1 <= |items| <= 3 && VRef(r) in items) {
      ItemsGrows(h, useMemo, path + {r}, memo, next, items);
      var res := SaveItems(h, useMemo, path + {r}, memo, next, items);
      if res.Ok? {
        var e := res.value;
        GrowsShell(useMemo, e.memo, e.next, TupleOps(|items|, e.ops), r, path);
        GrowsTrans(memo, next, e, Memorize(useMemo, Enc(TupleOps(|items|, e.ops), e.memo, e.next), r), path);
      }
    }
  }

  lemma DictGrows(h: Heap, useMemo: bool, path: set<Ref>, memo: map<Ref, nat>, next: nat, r: Ref)
    requires Closed(h) && r in h && r !in path && !(useMemo && r in memo) && h[r].ODict?
    ensures MemoStep(useMemo, memo, next, SaveDict(h, useMemo, path, memo, next, r), path)
    decreases |h.Keys - path|, 0, 0
  {
    assert ObjIn(h, h[r]);
    ShrinkUnvisited(h, path, r);
    var shell := Memorize(useMemo, Enc([EmptyDict], memo, next), r);
    GrowsShell(useMemo, memo, next, [EmptyDict], r, path);
    EntriesGrows(h, useMemo, path + {r}, shell.memo, shell.next, h[r].entries);
    var res := SaveEntries(h, useMemo, path + {r}, shell.memo, shell.next, h[r].entries);
    if res.Ok? {
      GrowsTrans(memo, next, shell, res.value, path);
    }
  }

  lemma InstanceGrows(h: Heap, useMemo: bool, path: set<Ref>, memo: map<Ref, nat>, next: nat, r: Ref)
    requires Closed(h) && r in h && r !in path && !(useMemo && r in memo) && h[r].OObject?
    ensures MemoStep(useMemo, memo, next, SaveInstance(h, useMemo, path, memo, next, r), path)
    decreases |h.Keys - path|, 0, 0
  {
    assert ObjIn(h, h[r]);
    ShrinkUnvisited(h, path, r);
    if |h[r].props| > 0 {
      var shell := Memorize(useMemo, Enc([EmptyDict], memo, next), r);
      GrowsShell(useMemo, memo, next, [EmptyDict], r, path);
      PropsGrows(h, useMemo, path + {r}, shell.memo, shell.next, h[r].props);
      var res := SaveProps(h, useMemo, path + {r}, shell.memo, shell.next, h[r].props);
      if res.Ok? {
        GrowsTrans(memo, next, shell, res.value, path);
      }
    }
  }

  lemma CollectionGrows(h: Heap, useMemo: bool, path: set<Ref>, memo: map<Ref, nat>, next: nat, r: Ref)
    requires Closed(h) && r in h && r !in path && !(useMemo && r in memo)
    requires h[r].OList? || h[r].OStack? || h[r].OQueue?
    ensures MemoStep(useMemo, memo, next, SaveCollection(h, useMemo, path, memo, next, r), path)
    decreases |h.Keys - path|, 0, 0
  {
    assert ObjIn(h, h[r]);
    EnumerationIn(h, h[r]);
    ShrinkUnvisited(h, path, r);
    var shell := Memorize(useMemo, Enc([EmptyList], memo, next), r);
    GrowsShell(useMemo, memo, next, [EmptyList], r, path);
    ItemsGrows(h, useMemo, path + {r}, shell.memo, shell.next, Enumeration(h[r]));
    var res := SaveItems(h, useMemo, path + {r}, shell.memo, shell.next, Enumeration(h[r]));
    if res.Ok? {
      GrowsTrans(memo, next, shell, res.value, path);
    }
  }

  lemma ItemsGrows(h: Heap, useMemo: bool, path: set<Ref>, memo: map<Ref, nat>, next: nat, items: seq<Val>)
    requires Closed(h) && ItemsIn(h, items)
    ensures MemoStep(useMemo, memo, next, SaveItems(h, useMemo, path, memo, next, items), path)
    decreases |h.Keys - path|, 3, |items|
  {
    if items != [] {
      ValueGrows(h, useMemo, path, memo, next, items[0]);
      var first := SaveValue(h, useMemo, path, memo, next, items[0]);
      if first.Ok? {
        ItemsGrows(h, useMemo, path, first.value.memo, first.value.next, items[1..]);
        var rest := SaveItems(h, useMemo, path, first.value.memo, first.value.next, items[1..]);
        if rest.Ok? {
          GrowsTrans(memo, next, first.value, rest.value, path);
        }
      }
    }
  }

  lemma EntryGrows(h: Heap, useMemo: bool, path: set<Ref>, memo: map<Ref, nat>, next: nat, entry: (Val, Val))
    requires Closed(h) && ValIn(h, entry.0) && ValIn(h, entry.1)
    ensures MemoStep(useMemo, memo, next, SaveEntry(h, useMemo, path, memo, next, entry), path)
    decreases |h.Keys - path|, 3, 0
  {
    ValueGrows(h, useMemo, path, memo, next, entry.0);
    var key := SaveValue(h, useMemo, path, memo, next, entry.0);
    if key.Ok? {
      ValueGrows(h, useMemo, path, key.value.memo, key.value.next, entry.1);
      var value := SaveValue(h, useMemo, path, key.value.memo, key.value.next, entry.1);
      if value.Ok? {
        GrowsTrans(memo, next, key.value, value.value, path);
      }
    }
  }

  lemma EntriesGrows(h: Heap, useMemo: bool, path: set<Ref>, memo: map<Ref, nat>, next: nat, entries: seq<(Val, Val)>)
    requires Closed(h) && EntriesIn(h, entries)
    ensures MemoStep(useMemo, memo, next, SaveEntries(h, useMemo, path, memo, next, entries), path)
    decreases |h.Keys - path|, 3, |entries|
  {
    if entries != [] {
      EntryGrows(h, useMemo, path, memo, next, entries[0]);
      var first := SaveEntry(h, useMemo, path, memo, next, entries[0]);
      if first.Ok? {
        EntriesGrows(h, useMemo, path, first.value.memo, first.value.next, entries[1..]);
        var rest := SaveEntries(h, useMemo, path, first.value.memo, first.value.next, entries[1..]);
        if rest.Ok? {
          GrowsTrans(memo, next, first.value, rest.value, path);
        }
      }
    }
  }

  lemma PropsGrows(h: Heap, useMemo: bool, path: set<Ref>, memo: map<Ref, nat>, next: nat, props: seq<(string, Val)>)
    requires Closed(h) && PropsIn(h, props)
    ensures MemoStep(useMemo, memo, next, SaveProps(h, useMemo, path, memo, next, props), path)
    decreases |h.Keys - path|, 3, |props|
  {
    if props != [] {
      ValueGrows(h, useMemo, path, memo, next, props[0].1);
      var first := SaveValue(h, useMemo, path, memo, next, props[0].1);
      if first.Ok? {
        PropsGrows(h, useMemo, path, first.value.memo, first.value.next, props[1..]);
        var rest := SaveProps(h, useMemo, path, first.value.memo, first.value.next, props[1..]);
        if rest.Ok? {
          GrowsTrans(memo, next, first.value, rest.value, path);
        }
      }
    }
  }

  /** The instructions of a whole pickle: PROTO 2, the value, STOP. */
  function Frame(body: seq<Op>): seq<Op> {
    [Proto(2)] + body + [Stop]
  }

  /** What `Pickler.dumps` returns: the protocol-2 bytes of a value, or why it
      cannot be pickled. The memo table starts empty for every call. */
  function Pickled(h: Heap, useMemo: bool, root: Val): Result<seq<byte>, PickleError>
    requires Closed(h) && ValIn(h, root)
  {
    match SaveValue(h, useMemo, {}, map[], 0, root)
    case Err(e) => Err(e)
    case Ok(e) => Ok(Serialize(Frame(e.ops)))
  }

  lemma ThenNil(r: Result<Enc, PickleError>)
    ensures Then([], r) == r
  {
    if r.Ok? {
      assert [] + r.value.ops == r.value.ops;
    }
  }

  lemma ThenThen(a: seq<Op>, b: seq<Op>, r: Result<Enc, PickleError>)
    ensures Then(a, Then(b, r)) == Then(a + b, r)
  {
    if r.Ok? {
      assert a + (b + r.value.ops) == a + b + r.value.ops;
    }
  }

  /** One step of `SaveItems` from position i. */
  lemma ItemsStep(h: Heap, useMemo: bool, path: set<Ref>, memo: map<Ref, nat>, next: nat, items: seq<Val>, i: nat)
    requires Closed(h) && ItemsIn(h, items) && i < |items|
    ensures ItemsIn(h, items[i..]) && ItemsIn(h, items[i + 1..]) && ValIn(h, items[i])
    ensures SaveItems(h, useMemo, path, memo, next, items[i..])
            == match SaveValue(h, useMemo, path, memo, next, items[i])
               case Err(e) => Err(e)
               case Ok(e1) => Then(e1.ops, SaveItems(h, useMemo, path, e1.memo, e1.next, items[i + 1..]))
  {
    assert items[i..][0] == items[i] && items[i..][1..] == items[i + 1..];
  }

  /** One step of `SaveEntries` from position i. */
  lemma EntriesStep(h: Heap, useMemo: bool, path: set<Ref>, memo: map<Ref, nat>, next: nat, entries: seq<(Val, Val)>, i: nat)
    requires Closed(h) && EntriesIn(h, entries) && i < |entries|
    ensures EntriesIn(h, entries[i..]) && EntriesIn(h, entries[i + 1..])
    ensures ValIn(h, entries[i].0) && ValIn(h, entries[i].1)
    ensures SaveEntries(h, useMemo, path, memo, next, entries[i..])
            == match SaveEntry(h, useMemo, path, memo, next, entries[i])
               case Err(e) => Err(e)
               case Ok(e1) => Then(e1.ops, SaveEntries(h, useMemo, path, e1.memo, e1.next, entries[i + 1..]))
  {
    assert entries[i..][0] == entries[i] && entries[i..][1..] == entries[i + 1..];
  }

  /** One step of `SaveProps` from position i. */
  lemma PropsStep(h: Heap, useMemo: bool, path: set<Ref>, memo: map<Ref, nat>, next: nat, props: seq<(string, Val)>, i: nat)
    requires Closed(h) && PropsIn(h, props) && i < |props|
    ensures PropsIn(h, props[i..]) && PropsIn(h, props[i + 1..]) && ValIn(h, props[i].1)
    ensures SaveProps(h, useMemo, path, memo, next, props[i..])
            == match SaveValue(h, useMemo, path, memo, next, props[i].1)
               case Err(e) => Err(e)
               case Ok(e1) => Then([BinUnicode(props[i].0)] + e1.ops, SaveProps(h, useMemo, path, e1.memo, e1.next, props[i + 1..]))
  {
    assert props[i..][0] == props[i] && props[i..][1..] == props[i + 1..];
  }

  lemma SerializeSnoc(ops: seq<Op>, op: Op)
    ensures Serialize(ops + [op]) == Serialize(ops) + OpBytes(op)
  {
    SerializeConcat(ops, [op]);
    assert Serialize([op]) == OpBytes(op) + Serialize([]);
  }

  /** The pickler: an output stream and the memo table of one `dumps` call.
      `written` is the instruction stream the bytes of `out` spell. */
  class Pickler {
    const useMemo: bool
    var out: seq<byte>
    var memo: map<Ref, nat>
    var next: nat
    ghost var written: seq<Op>

    /** `out` holds the bytes of `written`. (Stated through `w` so that the
        serialization is only unfolded where bytes are appended.) */
    ghost predicate Valid()
      reads this
    {
      forall w | w == written :: out == Serialize(w)
    }

    constructor (useMemo: bool)
      ensures Valid() && this.useMemo == useMemo && written == [] && memo == map[] && next == 0
    {
      this.useMemo := useMemo;
      out, memo, next, written := [], map[], 0, [];
    }

    /** The state after a call is the one its specification function describes. */
    ghost predicate Reached(res: Result<Enc, PickleError>, w0: seq<Op>, err: Option<PickleError>)
      reads this
    {
      match res
      case Ok(e) => err.None? && written == w0 + e.ops && memo == e.memo && next == e.next
      case Err(x) => err == Some(x)
    }

    /** Writes the bytes of one instruction. */
    method Emit(op: Op)
      requires Valid()
      modifies this
      ensures Valid() && written == old(written) + [op] && memo == old(memo) && next == old(next)
    {
      assert out == Serialize(written);
      SerializeSnoc(written, op);
      out := out + OpBytes(op);
      written := written + [op];
      assert out == Serialize(written);
    }

    /** Writes a run of instructions, one after another. */
    method EmitAll(ops: seq<Op>)
      requires Valid()
      modifies this
      ensures Valid() && written == old(written) + ops && memo == old(memo) && next == old(next)
    {
      var i := 0;
      while i < |ops|
        invariant 0 <= i <= |ops|
        invariant Valid() && written == old(written) + ops[..i] && memo == old(memo) && next == old(next)
      {
        Emit(ops[i]);
        assert ops[..i + 1] == ops[..i] + [ops[i]];
        i := i + 1;
      }
      assert ops[..i] == ops;
    }

    /** With memoization on, gives `r` the next slot and writes its PUT. */
    method WriteMemo(r: Ref)
      requires Valid()
      modifies this
      ensures var m := Memorize(useMemo, Enc(old(written), old(memo), old(next)), r);
        Valid() && written == m.ops && memo == m.memo && next == m.next
    {
      if useMemo {
        Emit(Put(next));
        memo := memo[r := next];
        next := next + 1;
      }
    }

    /** `dumps`: PROTO 2, the value, STOP. */
    method Dumps(h: Heap, root: Val) returns (r: Result<seq<byte>, PickleError>)
      requires Closed(h) && ValIn(h, root)
      modifies this
      ensures r == Pickled(h, useMemo, root)
    {
      out, memo, next, written := [], map[], 0, [];
      Emit(Proto(2));
      ghost var res := SaveValue(h, useMemo, {}, map[], 0, root);
      var err := Save(h, {}, root);
      if err.Some? {
        return Err(err.value);
      }
      Emit(Stop);
      assert written == Frame(res.value.ops);
      assert out == Serialize(written);
      r := Ok(out);
    }

    /** `save`: one value. */
    method Save(h: Heap, path: set<Ref>, v: Val) returns (err: Option<PickleError>)
      requires Closed(h) && ValIn(h, v) && Valid()
      modifies this
      ensures Valid() && Reached(SaveValue(h, useMemo, path, old(memo), old(next), v), old(written), err)
      decreases |h.Keys - path|, 2, 0
    {
      err := None;
      match v
      case VNone => Emit(PushNone);
      case VBool(b) => Emit(if b then NewTrue else NewFalse);
      case VInt(i) => Emit(IntOp(i));
      case VChar(c) => Emit(BinUnicode([c]));
      case VEnum(name) => Emit(BinUnicode(name));
      case VRef(r) =>
        if useMemo && r in memo {
          Emit(Get(memo[r]));
        } else if r in path {
          err := Some(if h[r].OArray? then RecursiveArray else UnboundedRecursion);
        } else {
          err := Dispatch(h, path, r);
        }
    }

    /** Writes an instance by its type: the built-in strategies. */
    method Dispatch(h: Heap, path: set<Ref>, r: Ref) returns (err: Option<PickleError>)
      requires Closed(h) && r in h && r !in path && !(useMemo && r in memo) && Valid()
      modifies this
      ensures Valid() && Reached(SaveObject(h, useMemo, path, old(memo), old(next), r), old(written), err)
      decreases |h.Keys - path|, 1, 0
    {
      err := None;
      match h[r]
      case OStr(s) => WriteAtomic(r, [BinUnicode(s)]);
      case OCharArray(cs) => WriteAtomic(r, [BinUnicode(cs)]);
      case OIntArray(xs) => WriteAtomic(r, IntArrayOps(xs));
      case OByteArray(d) => WriteAtomic(r, ByteArrayOps(d));
      case OArray(_) => err := WriteArray(h, path, r);
      case ODict(_) => err := WriteDict(h, path, r);
      case OObject(_, _, _) => err := WriteObject(h, path, r);
      case _ => err := WriteCollection(h, path, r);
    }

    /** An instance with nothing inside to memoize: its instructions, then its PUT. */
    method WriteAtomic(r: Ref, ops: seq<Op>)
      requires Valid()
      modifies this
      ensures var m := Memorize(useMemo, Enc(ops, old(memo), old(next)), r);
        Valid() && written == old(written) + m.ops && memo == m.memo && next == m.next
    {
      EmitAll(ops);
      WriteMemo(r);
    }

    /** An array of values as a tuple; the array is memoized after the tuple is built. */
    method WriteArray(h: Heap, path: set<Ref>, r: Ref) returns (err: Option<PickleError>)
      requires Closed(h) && r in h && r !in path && !(useMemo && r in memo) && h[r].OArray? && Valid()
      modifies this
      ensures Valid() && Reached(SaveArray(h, useMemo, path, old(memo), old(next), r), old(written), err)
      decreases |h.Keys - path|, 0, 0
    {
      var items := h[r].items;
      assert ObjIn(h, h[r]);
      ShrinkUnvisited(h, path, r);
      if 1 <= |items| <= 3 && VRef(r) in items {
        return Some(RecursiveArray);
      }
      EmitAll(TupleOpen(|items|));
      err := WriteItems(h, path + {r}, items);
      ghost var res := SaveItems(h, useMemo, path + {r}, old(memo), old(next), items);
      if err.Some? {
        return;
      }
      EmitAll(TupleClose(|items|));
      assert written == old(written) + TupleOps(|items|, res.value.ops);
      WriteMemo(r);
    }

    /** A dictionary: the empty shell and its PUT, then MARK, the entries, SETITEMS. */
    method WriteDict(h: Heap, path: set<Ref>, r: Ref) returns (err: Option<PickleError>)
      requires Closed(h) && r in h && r !in path && !(useMemo && r in memo) && h[r].ODict? && Valid()
      modifies this
      ensures Valid() && Reached(SaveDict(h, useMemo, path, old(memo), old(next), r), old(written), err)
      decreases |h.Keys - path|, 0, 0
    {
      assert ObjIn(h, h[r]);
      ShrinkUnvisited(h, path, r);
      ghost var shell := Memorize(useMemo, Enc([EmptyDict], memo, next), r);
      WriteShell(r, EmptyDict);
      err := WriteEntries(h, path + {r}, h[r].entries);
      ghost var res := SaveEntries(h, useMemo, path + {r}, shell.memo, shell.next, h[r].entries);
      if err.Some? {
        return;
      }
      Emit(SetItems);
      assert written == old(written) + (shell.ops + [Mark] + res.value.ops + [SetItems]);
    }

    /** A generic object as a dictionary of its properties and, unless the type
        is anonymous, its class name under `__class__`. */
    method WriteObject(h: Heap, path: set<Ref>, r: Ref) returns (err: Option<PickleError>)
      requires Closed(h) && r in h && r !in path && !(useMemo && r in memo) && h[r].OObject? && Valid()
      modifies this
      ensures Valid() && Reached(SaveInstance(h, useMemo, path, old(memo), old(next), r), old(written), err)
      decreases |h.Keys - path|, 0, 0
    {
      var o := h[r];
      assert ObjIn(h, o);
      ShrinkUnvisited(h, path, r);
      if |o.props| == 0 {
        return Some(NoPublicMembers);
      }
      ghost var shell := Memorize(useMemo, Enc([EmptyDict], memo, next), r);
      WriteShell(r, EmptyDict);
      err := WriteProps(h, path + {r}, o.props);
      ghost var res := SaveProps(h, useMemo, path + {r}, shell.memo, shell.next, o.props);
      if err.Some? {
        return;
      }
      EmitAll(ClassEntryOps(o));
      Emit(SetItems);
      assert written == old(written) + (shell.ops + [Mark] + res.value.ops + ClassEntryOps(o) + [SetItems]);
    }

    /** A list, stack or queue: the empty list and its PUT, then MARK, the items
        in enumeration order, APPENDS. */
    method WriteCollection(h: Heap, path: set<Ref>, r: Ref) returns (err: Option<PickleError>)
      requires Closed(h) && r in h && r !in path && !(useMemo && r in memo) && Valid()
      requires h[r].OList? || h[r].OStack? || h[r].OQueue?
      modifies this
      ensures Valid() && Reached(SaveCollection(h, useMemo, path, old(memo), old(next), r), old(written), err)
      decreases |h.Keys - path|, 0, 0
    {
      var o := h[r];
      assert ObjIn(h, o);
      EnumerationIn(h, o);
      ShrinkUnvisited(h, path, r);
      ghost var shell := Memorize(useMemo, Enc([EmptyList], memo, next), r);
      WriteShell(r, EmptyList);
      err := WriteItems(h, path + {r}, Enumeration(o));
      ghost var res := SaveItems(h, useMemo, path + {r}, shell.memo, shell.next, Enumeration(o));
      if err.Some? {
        return;
      }
      Emit(Appends);
      assert written == old(written) + (shell.ops + [Mark] + res.value.ops + [Appends]);
    }

    /** An empty container, its PUT, and the MARK its contents start with. */
    method WriteShell(r: Ref, empty: Op)
      requires Valid()
      modifies this
      ensures var shell := Memorize(useMemo, Enc([empty], old(memo), old(next)), r);
        Valid() && written == old(written) + shell.ops + [Mark] && memo == shell.memo && next == shell.next
    {
      WriteAtomic(r, [empty]);
      Emit(Mark);
    }

    /** The elements of an array or ordered collection, in order. */
    method WriteItems(h: Heap, path: set<Ref>, items: seq<Val>) returns (err: Option<PickleError>)
      requires Closed(h) && ItemsIn(h, items) && Valid()
      modifies this
      ensures Valid() && Reached(SaveItems(h, useMemo, path, old(memo), old(next), items), old(written), err)
      decreases |h.Keys - path|, 3, |items|
    {
      assert items[0..] == items;
      ThenNil(SaveItems(h, useMemo, path, memo, next, items));
      ghost var done: seq<Op> := [];
      var i := 0;
      while i < |items|
        invariant 0 <= i <= |items| && Valid()
        invariant SaveItems(h, useMemo, path, old(memo), old(next), items)
                  == Then(done, SaveItems(h, useMemo, path, memo, next, items[i..]))
        invariant written == old(written) + done
      {
        ItemsStep(h, useMemo, path, memo, next, items, i);
        ghost var step := SaveValue(h, useMemo, path, memo, next, items[i]);
        var e := Save(h, path, items[i]);
        if e.Some? {
          return e;
        }
        ThenThen(done, step.value.ops, SaveItems(h, useMemo, path, memo, next, items[i + 1..]));
        done := done + step.value.ops;
        i := i + 1;
      }
      assert items[i..] == [] && done + [] == done;
      return None;
    }

    /** One key/value pair, the key first. */
    method WriteEntry(h: Heap, path: set<Ref>, entry: (Val, Val)) returns (err: Option<PickleError>)
      requires Closed(h) && ValIn(h, entry.0) && ValIn(h, entry.1) && Valid()
      modifies this
      ensures Valid() && Reached(SaveEntry(h, useMemo, path, old(memo), old(next), entry), old(written), err)
      decreases |h.Keys - path|, 3, 0
    {
      err := Save(h, path, entry.0);
      if err.Some? {
        return;
      }
      ghost var key := SaveValue(h, useMemo, path, old(memo), old(next), entry.0).value;
      err := Save(h, path, entry.1);
      if err.Some? {
        return;
      }
      ghost var value := SaveValue(h, useMemo, path, key.memo, key.next, entry.1).value;
      assert written == old(written) + (key.ops + value.ops);
    }

    /** The key/value pairs of a mapping, in order. */
    method WriteEntries(h: Heap, path: set<Ref>, entries: seq<(Val, Val)>) returns (err: Option<PickleError>)
      requires Closed(h) && EntriesIn(h, entries) && Valid()
      modifies this
      ensures Valid() && Reached(SaveEntries(h, useMemo, path, old(memo), old(next), entries), old(written), err)
      decreases |h.Keys - path|, 3, |entries|
    {
      assert entries[0..] == entries;
      ThenNil(SaveEntries(h, useMemo, path, memo, next, entries));
      ghost var done: seq<Op> := [];
      var i := 0;
      while i < |entries|
        invariant 0 <= i <= |entries| && Valid()
        invariant SaveEntries(h, useMemo, path, old(memo), old(next), entries)
                  == Then(done, SaveEntries(h, useMemo, path, memo, next, entries[i..]))
        invariant written == old(written) + done
      {
        EntriesStep(h, useMemo, path, memo, next, entries, i);
        ghost var step := SaveEntry(h, useMemo, path, memo, next, entries[i]);
        var e := WriteEntry(h, path, entries[i]);
        if e.Some? {
          return e;
        }
        ThenThen(done, step.value.ops, SaveEntries(h, useMemo, path, memo, next, entries[i + 1..]));
        done := done + step.value.ops;
        i := i + 1;
      }
      assert entries[i..] == [] && done + [] == done;
      return None;
    }

    /** One property: its name as text, then its value. */
    method WriteProp(h: Heap, path: set<Ref>, prop: (string, Val)) returns (err: Option<PickleError>)
      requires Closed(h) && ValIn(h, prop.1) && Valid()
      modifies this
      ensures Valid() && Reached(Then([BinUnicode(prop.0)], SaveValue(h, useMemo, path, old(memo), old(next), prop.1)), old(written), err)
      decreases |h.Keys - path|, 3, 0
    {
      Emit(BinUnicode(prop.0));
      err := Save(h, path, prop.1);
      if err.None? {
        ghost var value := SaveValue(h, useMemo, path, old(memo), old(next), prop.1).value;
        assert written == old(written) + ([BinUnicode(prop.0)] + value.ops);
      }
    }

    /** The properties of a generic object: each name as text, then its value. */
    method WriteProps(h: Heap, path: set<Ref>, props: seq<(string, Val)>) returns (err: Option<PickleError>)
      requires Closed(h) && PropsIn(h, props) && Valid()
      modifies this
      ensures Valid() && Reached(SaveProps(h, useMemo, path, old(memo), old(next), props), old(written), err)
      decreases |h.Keys - path|, 3, |props|
    {
      assert props[0..] == props;
      ThenNil(SaveProps(h, useMemo, path, memo, next, props));
      ghost var done: seq<Op> := [];
      var i := 0;
      while i < |props|
        invariant 0 <= i <= |props| && Valid()
        invariant SaveProps(h, useMemo, path, old(memo), old(next), props)
                  == Then(done, SaveProps(h, useMemo, path, memo, next, props[i..]))
        invariant written == old(written) + done
      {
        PropsStep(h, useMemo, path, memo, next, props, i);
        ghost var value := SaveValue(h, useMemo, path, memo, next, props[i].1);
        var e := WriteProp(h, path, props[i]);
        if e.Some? {
          return e;
        }
        ghost var prop := [BinUnicode(props[i].0)] + value.value.ops;
        ThenThen(done, prop, SaveProps(h, useMemo, path, memo, next, props[i + 1..]));
        done := done + prop;
        i := i + 1;
      }
      assert props[i..] == [] && done + [] == done;
      return None;
    }
  }

  /** A fresh pickler's `dumps`. */
  method Pickle(useMemo: bool, h: Heap, root: Val) returns (r: Result<seq<byte>, PickleError>)
    requires Closed(h) && ValIn(h, root)
    ensures r == Pickled(h, useMemo, root)
  {
    var p := new Pickler(useMemo);
    r := p.Dumps(h, root);
  }
}
