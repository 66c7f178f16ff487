/** The unpickler: a stack machine that executes the instructions of a pickle
    left to right over a value stack, a memo table (slot to value) and a heap
    of the instances it builds. Every string, tuple, list and dictionary it
    builds is a fresh heap cell, so identity in the result is heap address. */
module Decoder {
  import opened Wrappers
  import opened Bytes
  import opened Opcodes

  type Addr = nat

  datatype DVal =
    | DNone
    | DBool(b: bool)
    | DInt(i: int)
    | DRef(addr: Addr)
    | DClass(modulePath: seq<byte>, name: seq<byte>)   // what GLOBAL pushes

  datatype DObj =
    | DStr(s: string)
    | DTuple(items: seq<DVal>)                 // object[]
    | DList(items: seq<DVal>)                  // ArrayList
    | DDict(entries: seq<(DVal, DVal)>)        // Hashtable, one entry per key, in insertion order
    | DIntArray(ints: seq<int>)                // int[]
    | DBytes(data: seq<byte>)                  // byte[]

  datatype Entry = Item(v: DVal) | Marker

  datatype Machine = Machine(stack: seq<Entry>, memo: map<nat, DVal>, heap: seq<DObj>)

  datatype UnpickleError =
    | Malformed(cause: ParseError)
    | UnsupportedProtocol
    | StackUnderflow
    | BadInt
    | NoMark
    | NotAList
    | NotADict
    | OddSetItems
    | NullKey
    | MissingMemo
    | BadReduce
    | BadStop

  const Initial: Machine := Machine([], map[], [])

  function Push(m: Machine, v: DVal): Machine {
    m.(stack := m.stack + [Item(v)])
  }

  /** Adds `o` to the heap and pushes a reference to it. */
  function Alloc(m: Machine, o: DObj): (r: Machine)
    ensures r.heap == m.heap + [o] && r.stack == m.stack + [Item(DRef(|m.heap|))] && r.memo == m.memo
  {
    Machine(m.stack + [Item(DRef(|m.heap|))], m.memo, m.heap + [o])
  }

  predicate AllItems(s: seq<Entry>) {
    forall i | 0 <= i < |s| :: s[i].Item?
  }

  function ItemValues(s: seq<Entry>): (r: seq<DVal>)
    requires AllItems(s)
    ensures |r| == |s| && forall i | 0 <= i < |s| :: r[i] == s[i].v
  {
    if s == [] then [] else [s[0].v] + ItemValues(s[1..])
  }

  /** The position of the topmost mark; everything above it is an item. */
  function LastMark(s: seq<Entry>): (r: Option<nat>)
    ensures r.Some? ==> r.value < |s| && s[r.value] == Marker && AllItems(s[r.value + 1..])
    ensures r.None? ==> AllItems(s)
  {
    MarkBelow(s, |s|)
  }

  /** The position of the topmost mark among the first n entries. */
  function MarkBelow(s: seq<Entry>, n: nat): (r: Option<nat>)
    requires n <= |s|
    ensures r.Some? ==> r.value < n && s[r.value] == Marker && forall i | r.value < i < n :: s[i].Item?
    ensures r.None? ==> forall i | 0 <= i < n :: s[i].Item?
  {
    if n == 0 then None
    else if s[n - 1] == Marker then Some(n - 1)
    else MarkBelow(s, n - 1)
  }

  /** Consecutive items taken as key/value pairs; None if one is left over. */
  function Pairs(vs: seq<DVal>): (r: Option<seq<(DVal, DVal)>>)
    ensures r.Some? ==> 2 * |r.value| == |vs|
  {
    if vs == [] then Some([])
    else if |vs| == 1 then None
    else
      match Pairs(vs[2..])
      case None => None
      case Some(rest) => Some([(vs[0], vs[1])] + rest)
  }

  /** TUPLE1, TUPLE2, TUPLE3: the top n items become a tuple. */
  function PopTuple(m: Machine, n: nat): Result<Machine, UnpickleError> {
    if n <= |m.stack| && AllItems(m.stack[|m.stack| - n..]) then
      Ok(Alloc(m.(stack := m.stack[..|m.stack| - n]), DTuple(ItemValues(m.stack[|m.stack| - n..]))))
    else Err(StackUnderflow)
  }

  /** The integers of a list of 32-bit integer values, or None if some item is not one. */
  function Ints32(xs: seq<DVal>): Option<seq<int>> {
    if xs == [] then Some([])
    else if xs[0].DInt? && -(TWO_31 as int) <= xs[0].i < TWO_31 then
      match Ints32(xs[1..])
      case None => None
      case Some(rest) => Some([xs[0].i] + rest)
    else None
  }

  /** The string cell `d` refers to, if it refers to one. */
  function StrOf(heap: seq<DObj>, d: DVal): Option<string> {
    if d.DRef? && d.addr < |heap| && heap[d.addr].DStr? then Some(heap[d.addr].s) else None
  }

  /** The REDUCE constructors this decoder knows: array.array with type code
      'i' and a list of 32-bit integers, and bytearray of Latin-1 text. */
  function Construct(heap: seq<DObj>, f: DVal, args: seq<DVal>): Result<DObj, UnpickleError>
    requires f.DClass?
  {
    if |args| != 2 then Err(BadReduce)
    else if f.modulePath == ARRAY_MODULE && f.name == ARRAY_MODULE then
      if StrOf(heap, args[0]) == Some("i") && args[1].DRef? && args[1].addr < |heap| && heap[args[1].addr].DList? then
        match Ints32(heap[args[1].addr].items)
        case None => Err(BadReduce)
        case Some(xs) => Ok(DIntArray(xs))
      else Err(BadReduce)
    else if f.modulePath == BUILTIN_MODULE && f.name == BYTEARRAY_NAME then
      if StrOf(heap, args[1]) == Some(LATIN1) && StrOf(heap, args[0]).Some? then
        match Latin1Encode(StrOf(heap, args[0]).value)
        case None => Err(BadReduce)
        case Some(b) => Ok(DBytes(b))
      else Err(BadReduce)
    else Err(BadReduce)
  }

  /** The value of an INT line: "00" and "01" are the protocol's spellings of
      False and True, anything else must be a decimal integer. */
  function IntFromText(t: seq<byte>): Option<DVal> {
    if t == [ZERO, ZERO] then Some(DBool(false))
    else if t == [ZERO, ZERO + 1] then Some(DBool(true))
    else match ParseDecimal(t)
      case Some(v) => Some(DInt(v))
      case None => None
  }

  /** The decimal text of an integer outside the 32-bit range reads back as that integer. */
  lemma IntFromDecimal(v: int)
    requires v < -(TWO_31 as int) || TWO_31 <= v
    ensures IntFromText(DecimalText(v)) == Some(DInt(v))
  {
    if v < 0 { DigitsLength(-v); } else { DigitsLength(v); }
    assert |DecimalText(v)| >= 3;
    DecimalRoundTrip(v);
  }

  /** INT: a decimal line, or one of the two boolean spellings. */
  function StepIntText(m: Machine, t: seq<byte>): Result<Machine, UnpickleError> {
    match IntFromText(t)
    case None => Err(BadInt)
    case Some(d) => Ok(Push(m, d))
  }

  /** TUPLE: the items above the topmost mark become a tuple. */
  function StepTuple(m: Machine): Result<Machine, UnpickleError> {
    var s := m.stack;
    match LastMark(s)
    case None => Err(NoMark)
    case Some(k) => Ok(Alloc(m.(stack := s[..k]), DTuple(ItemValues(s[k + 1..]))))
  }

  /** APPENDS: the items above the topmost mark are appended to the list
      just below it. */
  function StepAppends(m: Machine): Result<Machine, UnpickleError> {
    var s := m.stack;
    match LastMark(s)
    case None => Err(NoMark)
    case Some(k) =>
      if 1 <= k && s[k - 1].Item? && s[k - 1].v.DRef? && s[k - 1].v.addr < |m.heap|
         && m.heap[s[k - 1].v.addr].DList?
      then
        var a := s[k - 1].v.addr;
        Ok(Machine(s[..k], m.memo, m.heap[a := DList(m.heap[a].items + ItemValues(s[k + 1..]))]))
      else Err(NotAList)
  }

  /** SETITEMS: the items above the topmost mark, taken as key/value pairs,
      are added to the dict just below it. */
  function StepSetItems(m: Machine): Result<Machine, UnpickleError> {
    var s := m.stack;
    match LastMark(s)
    case None => Err(NoMark)
    case Some(k) =>
      if DictBelow(m, k) then SetItemsInto(m, k, s[k - 1].v.addr, Pairs(ItemValues(s[k + 1..])))
      else Err(NotADict)
  }

  /** The entry just below position k is a reference to a dict cell. */
  predicate DictBelow(m: Machine, k: nat) {
    && 1 <= k <= |m.stack| && m.stack[k - 1].Item? && m.stack[k - 1].v.DRef?
    && m.stack[k - 1].v.addr < |m.heap| && m.heap[m.stack[k - 1].v.addr].DDict?
  }

  /** The last part of SETITEMS: an odd run of items fails; the pairs are
      assigned into the dict at `a` one after another, and the stack is cut
      back to end with it. */
  function SetItemsInto(m: Machine, k: nat, a: Addr, pairs: Option<seq<(DVal, DVal)>>): Result<Machine, UnpickleError>
    requires k <= |m.stack| && a < |m.heap| && m.heap[a].DDict?
  {
    match pairs
    case None => Err(OddSetItems)
    case Some(ps) =>
      match AssignAll(m.heap, m.heap[a].entries, ps)
      case None => Err(NullKey)
      case Some(es) => Ok(Machine(m.stack[..k], m.memo, m.heap[a := DDict(es)]))
  }

  /** Two decoded keys a Hashtable takes for one key: the same value, or two
      strings with the same text. Every other cell is compared by address. */
  predicate SameKey(heap: seq<DObj>, x: DVal, y: DVal) {
    x == y || (StrOf(heap, x).Some? && StrOf(heap, x) == StrOf(heap, y))
  }

  /** The position of the entry whose key is the same as `key`, if any. */
  function FindKey(heap: seq<DObj>, es: seq<(DVal, DVal)>, key: DVal): (r: Option<nat>)
    ensures r.Some? ==> r.value < |es| && SameKey(heap, es[r.value].0, key)
    ensures r.Some? ==> forall i | 0 <= i < r.value :: !SameKey(heap, es[i].0, key)
    ensures r.None? ==> forall i | 0 <= i < |es| :: !SameKey(heap, es[i].0, key)
  {
    if es == [] then None
    else if SameKey(heap, es[0].0, key) then Some(0)
    else
      match FindKey(heap, es[1..], key)
      case None => None
      case Some(j) => Some(j + 1)
  }

  /** `table[key] = value` on a Hashtable: the entry with the same key keeps
      its key and takes the new value; a new key is added at the end. */
  function Assign(heap: seq<DObj>, es: seq<(DVal, DVal)>, key: DVal, value: DVal): (r: seq<(DVal, DVal)>)
    ensures |es| <= |r| <= |es| + 1
    ensures forall i | 0 <= i < |es| && !SameKey(heap, es[i].0, key) :: r[i] == es[i]
    ensures forall i | 0 <= i < |es| :: r[i].0 == es[i].0
    ensures FindKey(heap, es, key).None? ==> r == es + [(key, value)]
    ensures FindKey(heap, r, key).Some? && r[FindKey(heap, r, key).value].1 == value
  {
    match FindKey(heap, es, key)
    case None =>
      var r := es + [(key, value)];
      assert SameKey(heap, r[|es|].0, key);
      r
    case Some(i) =>
      var r := es[i := (es[i].0, value)];
      assert forall j | 0 <= j < i :: r[j] == es[j];
      r
  }

  /** The pairs of one SETITEMS, assigned in order; None at a None key, which
      a Hashtable refuses. */
  function AssignAll(heap: seq<DObj>, es: seq<(DVal, DVal)>, ps: seq<(DVal, DVal)>): (r: Option<seq<(DVal, DVal)>>)
    ensures r.Some? <==> forall i | 0 <= i < |ps| :: ps[i].0 != DNone
    decreases |ps|
  {
    if ps == [] then Some(es)
    else if ps[0].0 == DNone then None
    else
      var rest := AssignAll(heap, Assign(heap, es, ps[0].0, ps[0].1), ps[1..]);
      assert forall i | 1 <= i < |ps| :: ps[i] == ps[1..][i - 1];
      rest
  }

  /** Of two pairs with the same key, the value of the later one is kept, so
      the pairs (1, "a") and (1, "b") read back as the single entry 1 to "b". */
  lemma LaterValueWins(heap: seq<DObj>, k: DVal, v1: DVal, v2: DVal)
    requires k != DNone
    ensures AssignAll(heap, [], [(k, v1), (k, v2)]) == Some([(k, v2)])
  {
    var es := Assign(heap, [], k, v1);
    assert es == [(k, v1)];
    assert FindKey(heap, es, k) == Some(0);
    assert Assign(heap, es, k, v2) == [(k, v2)];
    assert [(k, v1), (k, v2)][1..] == [(k, v2)] && [(k, v2)][1..] == [];
    assert AssignAll(heap, es, [(k, v2)]) == AssignAll(heap, [(k, v2)], []);
  }

  /** Keys none of which is None and no two of which are the same key. */
  predicate DistinctKeys(heap: seq<DObj>, ps: seq<(DVal, DVal)>) {
    && (forall i | 0 <= i < |ps| :: ps[i].0 != DNone)
    && forall i, j | 0 <= i < j < |ps| :: !SameKey(heap, ps[i].0, ps[j].0)
  }

  /** When the keys are distinct, assigning the pairs adds each of them in order. */
  lemma {:induction false} AssignAllDistinct(heap: seq<DObj>, es: seq<(DVal, DVal)>, ps: seq<(DVal, DVal)>)
    requires DistinctKeys(heap, es + ps)
    ensures AssignAll(heap, es, ps) == Some(es + ps)
    decreases |ps|
  {
    if ps == [] {
      assert es + ps == es;
    } else {
      var all := es + ps;
      assert all[|es|] == ps[0];
      assert FindKey(heap, es, ps[0].0).None? by {
        forall i | 0 <= i < |es| ensures !SameKey(heap, es[i].0, ps[0].0) {
          assert all[i] == es[i];
        }
      }
      var es1 := Assign(heap, es, ps[0].0, ps[0].1);
      assert es1 + ps[1..] == all;
      AssignAllDistinct(heap, es1, ps[1..]);
    }
  }

  /** BINPUT / LONG_BINPUT: the top of the stack is stored in slot n. */
  function StepPut(m: Machine, n: nat): Result<Machine, UnpickleError> {
    var s := m.stack;
    if |s| >= 1 && s[|s| - 1].Item? then Ok(m.(memo := m.memo[n := s[|s| - 1].v])) else Err(StackUnderflow)
  }

  /** BINGET / LONG_BINGET: slot n is pushed again. */
  function StepGet(m: Machine, n: nat): Result<Machine, UnpickleError> {
    if n in m.memo then Ok(Push(m, m.memo[n])) else Err(MissingMemo)
  }

  /** REDUCE: the class below the argument tuple is called with it. */
  function StepReduce(m: Machine): Result<Machine, UnpickleError> {
    var s := m.stack;
    if |s| >= 2 && s[|s| - 2].Item? && s[|s| - 2].v.DClass? && s[|s| - 1].Item? && s[|s| - 1].v.DRef?
       && s[|s| - 1].v.addr < |m.heap| && m.heap[s[|s| - 1].v.addr].DTuple?
    then
      match Construct(m.heap, s[|s| - 2].v, m.heap[s[|s| - 1].v.addr].items)
      case Err(e) => Err(e)
      case Ok(o) => Ok(Alloc(m.(stack := s[..|s| - 2]), o))
    else Err(StackUnderflow)
  }

  /** Executes one instruction. */
  function Step(m: Machine, op: Op): Result<Machine, UnpickleError> {
    match op
    case Proto(v) => if v <= 2 then Ok(m) else Err(UnsupportedProtocol)
    case Stop => Ok(m)
    case PushNone => Ok(Push(m, DNone))
    case NewTrue => Ok(Push(m, DBool(true)))
    case NewFalse => Ok(Push(m, DBool(false)))
    case BinInt1(n) => Ok(Push(m, DInt(n)))
    case BinInt2(n) => Ok(Push(m, DInt(n)))
    case BinInt(n) => Ok(Push(m, DInt(n)))
    case IntText(t) => StepIntText(m, t)
    case ShortBinString(d) => Ok(Alloc(m, DStr(Latin1Decode(d))))
    case BinUnicode(t) => Ok(Alloc(m, DStr(t)))
    case EmptyTuple => Ok(Alloc(m, DTuple([])))
    case Tuple1 => PopTuple(m, 1)
    case Tuple2 => PopTuple(m, 2)
    case Tuple3 => PopTuple(m, 3)
    case Mark => Ok(m.(stack := m.stack + [Marker]))
    case Tuple => StepTuple(m)
    case EmptyList => Ok(Alloc(m, DList([])))
    case Appends => StepAppends(m)
    case EmptyDict => Ok(Alloc(m, DDict([])))
    case SetItems => StepSetItems(m)
    case Put(n) => StepPut(m, n)
    case Get(n) => StepGet(m, n)
    case Global(mp, name) => Ok(Push(m, DClass(mp, name)))
    case Reduce => StepReduce(m)
  }

  /** Executes instructions left to right, stopping at the first failure. */
  function Exec(m: Machine, ops: seq<Op>): Result<Machine, UnpickleError>
    decreases |ops|
  {
    if ops == [] then Ok(m)
    else match Step(m, ops[0])
      case Err(e) => Err(e)
      case Ok(m1) => Exec(m1, ops[1..])
  }

  /** Running `a` then `b` is running `a + b`. */
  lemma {:induction false} ExecConcat(m: Machine, a: seq<Op>, b: seq<Op>)
    ensures Exec(m, a + b) == (match Exec(m, a) case Err(e) => Err(e) case Ok(m1) => Exec(m1, b))
    decreases |a|
  {
    if a == [] {
      assert a + b == b;
    } else {
      assert (a + b)[0] == a[0];
      assert (a + b)[1..] == a[1..] + b;
      match Step(m, a[0])
      case Err(e) =>
      case Ok(m1) => ExecConcat(m1, a[1..], b);
    }
  }

  /** `Unpickler.loads`: the reconstructed value and the heap it lives in.
      STOP must leave exactly one value on the stack. */
  function Loads(b: seq<byte>): Result<(seq<DObj>, DVal), UnpickleError> {
    match Parse(b)
    case Err(e) => Err(Malformed(e))
    case Ok(ops) =>
      match Exec(Initial, ops)
      case Err(e) => Err(e)
      case Ok(m) =>
        if |m.stack| == 1 && m.stack[0].Item? then Ok((m.heap, m.stack[0].v)) else Err(BadStop)
  }
}
