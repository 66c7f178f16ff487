/** The round trip of `dumps` and `loads`: running the decoder on what the
    encoder wrote rebuilds the input graph, one decoded cell per instance
    when memoization is on. The proof follows the encoder's recursion: each
    lemma below runs the decoder over the instructions of the matching
    encoding function and relates the machine it reaches to the input. */
module Simulation {
  import opened Wrappers
  import opened Bytes
  import opened Opcodes
  import opened Values
  import opened Encoder
  import opened Decoder
  import opened RoundTrip

  // ---------------------------------------------------------------------
  // Runs of one instruction

  /** The empty run. */
  lemma RanNil(h: Heap, useMemo: bool, pending: set<Addr>, memo: map<Ref, nat>, next: nat, m: Machine, own: map<Addr, Ref>)
    requires Sim(h, useMemo, memo, next, m, own, pending)
    ensures Ran(h, useMemo, pending, m, own, Enc([], memo, next), m, own, [])
  {
    assert m.stack + Items([]) == m.stack;
  }

  /** An instruction that pushes a scalar. */
  lemma RanScalar(h: Heap, useMemo: bool, pending: set<Addr>, memo: map<Ref, nat>, next: nat, m: Machine,
                  own: map<Addr, Ref>, op: Op, d: DVal)
    requires Sim(h, useMemo, memo, next, m, own, pending)
    requires Step(m, op) == Ok(Push(m, d)) && WellFormedOp(op) && op != Stop
    ensures Ran(h, useMemo, pending, m, own, Enc([op], memo, next), Push(m, d), own, [d])
  {
    Run1(m, op, Push(m, d));
    ItemsOne(d);
  }

  /** BINUNICODE pushes a fresh string cell. */
  lemma RanText(h: Heap, useMemo: bool, pending: set<Addr>, memo: map<Ref, nat>, next: nat, m: Machine,
                own: map<Addr, Ref>, s: string)
    requires Sim(h, useMemo, memo, next, m, own, pending) && |Utf8(s)| < TWO_32
    ensures Ran(h, useMemo, pending, m, own, Enc([BinUnicode(s)], memo, next), Alloc(m, DStr(s)), own, [DRef(|m.heap|)])
    ensures StrAt(Alloc(m, DStr(s)).heap, DRef(|m.heap|), s)
  {
    var m2 := Alloc(m, DStr(s));
    Run1(m, BinUnicode(s), m2);
    InvGrow(h, m.heap, m2.heap, own, pending);
    ItemsOne(DRef(|m.heap|));
  }

  // ---------------------------------------------------------------------
  // Tuples and containers

  /** TUPLE1/2/3 pop that many items. */
  lemma UnfoldTupleClose(m: Machine, n: nat)
    requires 1 <= n <= 3
    ensures Step(m, TupleClose(n)[0]) == PopTuple(m, n)
  {
  }

  /** Up to three elements, then TUPLE1/2/3. */
  lemma ExecSmallTuple(m: Machine, body: seq<Op>, m1: Machine, ds: seq<DVal>)
    requires 1 <= |ds| <= 3
    requires Exec(m, body) == Ok(m1) && m1.stack == m.stack + Items(ds)
    ensures Exec(m, TupleOps(|ds|, body)) == Ok(Alloc(m1.(stack := m.stack), DTuple(ds)))
  {
    var n := |ds|;
    var done := Alloc(m1.(stack := m.stack), DTuple(ds));
    StepPopTuple(m1, m.stack, ds);
    UnfoldTupleClose(m1, n);
    Run1(m1, TupleClose(n)[0], done);
    assert TupleClose(n) == [TupleClose(n)[0]];
    ExecThen(m, body, TupleClose(n), m1, done);
    assert TupleOps(n, body) == body + TupleClose(n);
  }

  /** MARK, four or more elements, TUPLE. */
  lemma ExecMarkedTuple(m: Machine, body: seq<Op>, m1: Machine, ds: seq<DVal>)
    requires |ds| >= 4
    requires Exec(m.(stack := m.stack + [Marker]), body) == Ok(m1) && m1.stack == m.stack + [Marker] + Items(ds)
    ensures Exec(m, TupleOps(|ds|, body)) == Ok(Alloc(m1.(stack := m.stack), DTuple(ds)))
  {
    var mk := m.(stack := m.stack + [Marker]);
    var done := Alloc(m1.(stack := m.stack), DTuple(ds));
    StepTupleItems(m1, m.stack, ds);
    Run1(m, Mark, mk);
    Run1(m1, Tuple, done);
    ExecThen(m, [Mark], body, mk, m1);
    ExecThen(m, [Mark] + body, [Tuple], m1, done);
    assert TupleOps(|ds|, body) == [Mark] + body + [Tuple];
  }

  /** The tuple forms: EMPTY_TUPLE, the elements and TUPLE1/2/3, or MARK, the
      elements and TUPLE, all leave one tuple of the elements. */
  lemma ExecTuple(m: Machine, body: seq<Op>, m1: Machine, ds: seq<DVal>)
    requires |ds| == 0 ==> body == [] && m1 == m
    requires Exec(if |ds| >= 4 then m.(stack := m.stack + [Marker]) else m, body) == Ok(m1)
    requires m1.stack == (if |ds| >= 4 then m.stack + [Marker] else m.stack) + Items(ds)
    ensures Exec(m, TupleOps(|ds|, body)) == Ok(Alloc(m1.(stack := m.stack), DTuple(ds)))
  {
    if |ds| == 0 {
      assert TupleOps(0, body) == [EmptyTuple];
      assert m1.stack == m.stack;
      Run1(m, EmptyTuple, Alloc(m, DTuple([])));
    } else if |ds| <= 3 {
      ExecSmallTuple(m, body, m1, ds);
    } else {
      ExecMarkedTuple(m, body, m1, ds);
    }
  }

  lemma TupleOpsEmittable(n: nat, body: seq<Op>)
    requires Emittable(body)
    ensures Emittable(TupleOps(n, body))
  {
    EmittableConcat(TupleOpen(n), body);
    EmittableConcat(TupleOpen(n) + body, TupleClose(n));
  }

  /** Writing a cell that is not a string keeps every string cell. */
  lemma UpdateKeepsStrs(dh: seq<DObj>, a: Addr, x: DObj)
    requires a < |dh| && !dh[a].DStr?
    ensures KeepsStrs(dh, dh[a := x])
  {
  }

  /** A pending container whose contents are now in place leaves `pending`. */
  lemma Complete(h: Heap, dh: seq<DObj>, own: map<Addr, Ref>, pending: set<Addr>, a: Addr, x: DObj)
    requires Inv(h, dh, own, pending + {a}) && a !in pending && a in own && a < |dh| && !dh[a].DStr?
    requires ObjCorr(dh[a := x], own, h[own[a]], x)
    ensures Inv(h, dh[a := x], own, pending)
  {
    var dh2 := dh[a := x];
    UpdateKeepsStrs(dh, a, x);
    forall b | b in own && b !in pending ensures ObjCorr(dh2, own, h[own[b]], dh2[b]) {
      if b != a {
        ObjCorrMono(dh, own, dh2, own, h[own[b]], dh[b]);
      }
    }
  }

  /** An empty list or dict, its PUT and a MARK: the new cell stands for `r`
      and is pending until its contents are added. */
  lemma OpenShell(h: Heap, useMemo: bool, memo: map<Ref, nat>, next: nat, m: Machine, own: map<Addr, Ref>,
                  pending: set<Addr>, r: Ref, empty: Op, x: DObj)
    returns (mk: Machine, owns: map<Addr, Ref>)
    requires Sim(h, useMemo, memo, next, m, own, pending) && |h.Keys| < TWO_31
    requires r in h && !(useMemo && r in memo) && !h[r].OStr? && !h[r].OCharArray?
    requires (empty == EmptyList && x == DList([])) || (empty == EmptyDict && x == DDict([]))
    ensures var shell := Memorize(useMemo, Enc([empty], memo, next), r);
      && Opened(m, own, pending, r, shell.ops + [Mark], mk, owns, x)
      && Sim(h, useMemo, shell.memo, shell.next, mk, owns, pending + {|m.heap|})
  {
    var m1;
    m1, owns := Register(h, useMemo, memo, next, m, own, pending, r, x, pending + {|m.heap|});
    var tail := Memorize(useMemo, Enc([], memo, next), r);
    MemorizeAfter(useMemo, [empty], memo, next, r);
    mk := ShellRun(m, empty, x, tail.ops, m1);
  }

  /** The empty container, what follows it, and a MARK, run one after another. */
  lemma ShellRun(m: Machine, empty: Op, x: DObj, tail: seq<Op>, m1: Machine) returns (mk: Machine)
    requires (empty == EmptyList && x == DList([])) || (empty == EmptyDict && x == DDict([]))
    requires Exec(Alloc(m, x), tail) == Ok(m1) && Emittable(tail)
    ensures mk == m1.(stack := m1.stack + [Marker])
    ensures Exec(m, [empty] + tail + [Mark]) == Ok(mk) && Emittable([empty] + tail + [Mark])
  {
    ExecCons(m, empty, tail, Alloc(m, x));
    mk := m1.(stack := m1.stack + [Marker]);
    Run1(m1, Mark, mk);
    ExecThen(m, [empty] + tail, [Mark], m1, mk);
    EmittableConcat([empty], tail);
    EmittableConcat([empty] + tail, [Mark]);
  }

  /** APPENDS or SETITEMS fills the pending container with what its contents
      pushed; the container is then complete and the whole run pushed one
      reference to it. */
  lemma CloseShell(h: Heap, useMemo: bool, pending: set<Addr>, m: Machine, own: map<Addr, Ref>,
                   opening: seq<Op>, mk: Machine, owns: map<Addr, Ref>,
                   e: Enc, m1: Machine, own1: map<Addr, Ref>, vs: seq<DVal>, close: Op, x: DObj, r: Ref)
    returns (m3: Machine)
    requires Exec(m, opening) == Ok(mk) && Emittable(opening) && m.heap <= mk.heap && |m.heap| < |mk.heap|
    requires mk.stack == m.stack + [Item(DRef(|m.heap|))] + [Marker]
    requires SubMap(own, owns) && |m.heap| in owns && owns[|m.heap|] == r && |m.heap| !in pending
    requires Ran(h, useMemo, pending + {|m.heap|}, mk, owns, e, m1, own1, vs)
    requires !m1.heap[|m.heap|].DStr?
    requires Exec(m1, [close]) == Ok(Machine(m.stack + [Item(DRef(|m.heap|))], m1.memo, m1.heap[|m.heap| := x]))
    requires WellFormedOp(close) && close != Stop
    requires ObjCorr(m1.heap[|m.heap| := x], own1, h[r], x)
    ensures m3 == Machine(m.stack + [Item(DRef(|m.heap|))], m1.memo, m1.heap[|m.heap| := x])
    ensures Ran(h, useMemo, pending, m, own, Enc(opening + e.ops + [close], e.memo, e.next), m3, own1, [DRef(|m.heap|)])
    ensures ValCorr(m3.heap, own1, VRef(r), DRef(|m.heap|))
  {
    var a := |m.heap|;
    m3 := Machine(m.stack + [Item(DRef(a))], m1.memo, m1.heap[a := x]);
    CloseRun(m, opening, mk, e.ops, m1, close, m3);
    CloseSim(h, useMemo, pending, e, m1, own1, a, x, m3);
    assert m3.heap[..a] == m1.heap[..a];
    ItemsOne(DRef(a));
  }

  /** The opening, the contents and the closing instruction, one after another. */
  lemma CloseRun(m: Machine, opening: seq<Op>, mk: Machine, body: seq<Op>, m1: Machine, close: Op, m3: Machine)
    requires Exec(m, opening) == Ok(mk) && Exec(mk, body) == Ok(m1) && Exec(m1, [close]) == Ok(m3)
    requires Emittable(opening) && Emittable(body) && WellFormedOp(close) && close != Stop
    ensures Exec(m, opening + body + [close]) == Ok(m3) && Emittable(opening + body + [close])
  {
    ExecThen(m, opening, body, mk, m1);
    ExecThen(m, opening + body, [close], m1, m3);
    EmittableConcat(opening, body);
    EmittableConcat(opening + body, [close]);
  }

  /** Filling the pending container keeps the relation and ends its pendency. */
  lemma CloseSim(h: Heap, useMemo: bool, pending: set<Addr>, e: Enc, m1: Machine, own1: map<Addr, Ref>,
                 a: Addr, x: DObj, m3: Machine)
    requires Sim(h, useMemo, e.memo, e.next, m1, own1, pending + {a})
    requires a !in pending && a in own1 && a < |m1.heap| && !m1.heap[a].DStr?
    requires ObjCorr(m1.heap[a := x], own1, h[own1[a]], x)
    requires m3.memo == m1.memo && m3.heap == m1.heap[a := x]
    ensures Sim(h, useMemo, e.memo, e.next, m3, own1, pending)
  {
    Complete(h, m1.heap, own1, pending, a, x);
  }

  /** APPENDS, run on its own. */
  lemma ExecAppends(m: Machine, p: seq<Entry>, a: Addr, ds: seq<DVal>)
    requires m.stack == p + [Item(DRef(a))] + [Marker] + Items(ds)
    requires a < |m.heap| && m.heap[a] == DList([])
    ensures Exec(m, [Appends]) == Ok(Machine(p + [Item(DRef(a))], m.memo, m.heap[a := DList(ds)]))
  {
    StepAppendsItems(m, p, a, ds);
    assert [] + ds == ds;
    Run1(m, Appends, Machine(p + [Item(DRef(a))], m.memo, m.heap[a := DList(ds)]));
  }

  /** SETITEMS, run on its own. */
  lemma ExecSetItems(m: Machine, p: seq<Entry>, a: Addr, ps: seq<(DVal, DVal)>)
    requires m.stack == p + [Item(DRef(a))] + [Marker] + Items(Flatten(ps))
    requires a < |m.heap| && m.heap[a] == DDict([]) && DistinctKeys(m.heap, ps)
    ensures Exec(m, [SetItems]) == Ok(Machine(p + [Item(DRef(a))], m.memo, m.heap[a := DDict(ps)]))
  {
    assert [] + ps == ps;
    StepSetItemsPairs(m, p, a, ps);
    Run1(m, SetItems, Machine(p + [Item(DRef(a))], m.memo, m.heap[a := DDict(ps)]));
  }

  /** The filled list stands for the list, stack or queue. */
  lemma CollectionCorr(dh: seq<DObj>, own: map<Addr, Ref>, o: Obj, ds: seq<DVal>, a: Addr)
    requires IsOrdered(o) && a < |dh| && !dh[a].DStr? && SeqCorr(dh, own, Enumeration(o), ds)
    ensures ObjCorr(dh[a := DList(ds)], own, o, DList(ds))
  {
    UpdateKeepsStrs(dh, a, DList(ds));
    SeqCorrMono(dh, own, dh[a := DList(ds)], own, Enumeration(o), ds);
  }

  /** The filled dict stands for the dictionary. */
  lemma DictCorr(dh: seq<DObj>, own: map<Addr, Ref>, o: Obj, ps: seq<(DVal, DVal)>, a: Addr)
    requires o.ODict? && a < |dh| && !dh[a].DStr? && EntriesCorr(dh, own, o.entries, ps)
    ensures ObjCorr(dh[a := DDict(ps)], own, o, DDict(ps))
  {
    UpdateKeepsStrs(dh, a, DDict(ps));
    EntriesCorrMono(dh, own, dh[a := DDict(ps)], own, o.entries, ps);
  }

  /** The state an opened shell leaves: `mk` holds the reference to the empty
      container `x0` at `|m.heap|` and a mark above it. */
  predicate Opened(m: Machine, own: map<Addr, Ref>, pending: set<Addr>, r: Ref, opening: seq<Op>,
                   mk: Machine, owns: map<Addr, Ref>, x0: DObj) {
    && Exec(m, opening) == Ok(mk) && Emittable(opening)
    && mk.stack == m.stack + [Item(DRef(|m.heap|))] + [Marker]
    && mk.heap == m.heap + [x0]
    && owns == own[|m.heap| := r] && SubMap(own, owns)
    && |m.heap| !in pending
  }

  /** A list, stack or queue once its items have run: APPENDS completes it. */
  lemma CollectionDone(h: Heap, useMemo: bool, pending: set<Addr>, m: Machine, own: map<Addr, Ref>, r: Ref,
                       opening: seq<Op>, mk: Machine, owns: map<Addr, Ref>,
                       e: Enc, m1: Machine, own1: map<Addr, Ref>, ds: seq<DVal>)
    returns (m3: Machine)
    requires r in h && IsOrdered(h[r])
    requires Opened(m, own, pending, r, opening, mk, owns, DList([]))
    requires Ran(h, useMemo, pending + {|m.heap|}, mk, owns, e, m1, own1, ds)
    requires SeqCorr(m1.heap, own1, Enumeration(h[r]), ds)
    ensures Ran(h, useMemo, pending, m, own, Enc(opening + e.ops + [Appends], e.memo, e.next), m3, own1, [DRef(|m.heap|)])
    ensures ValCorr(m3.heap, own1, VRef(r), DRef(|m.heap|))
  {
    var a := |m.heap|;
    assert m1.heap[a] == mk.heap[a] == DList([]);
    ExecAppends(m1, m.stack, a, ds);
    CollectionCorr(m1.heap, own1, h[r], ds, a);
    m3 := CloseShell(h, useMemo, pending, m, own, opening, mk, owns, e, m1, own1, ds, Appends, DList(ds), r);
  }

  /** A dictionary once its entries have run: SETITEMS completes it. */
  lemma DictDone(h: Heap, useMemo: bool, pending: set<Addr>, m: Machine, own: map<Addr, Ref>, r: Ref,
                 opening: seq<Op>, mk: Machine, owns: map<Addr, Ref>,
                 e: Enc, m1: Machine, own1: map<Addr, Ref>, ps: seq<(DVal, DVal)>)
    returns (m3: Machine)
    requires r in h && h[r].ODict? && KeysApart(h, h[r])
    requires Opened(m, own, pending, r, opening, mk, owns, DDict([]))
    requires Ran(h, useMemo, pending + {|m.heap|}, mk, owns, e, m1, own1, Flatten(ps))
    requires EntriesCorr(m1.heap, own1, h[r].entries, ps)
    ensures Ran(h, useMemo, pending, m, own, Enc(opening + e.ops + [SetItems], e.memo, e.next), m3, own1, [DRef(|m.heap|)])
    ensures ValCorr(m3.heap, own1, VRef(r), DRef(|m.heap|))
  {
    var a := |m.heap|;
    assert m1.heap[a] == mk.heap[a] == DDict([]);
    EntriesKeysDistinct(h, m1.heap, own1, pending + {a}, h[r].entries, ps);
    ExecSetItems(m1, m.stack, a, ps);
    DictCorr(m1.heap, own1, h[r], ps, a);
    m3 := CloseShell(h, useMemo, pending, m, own, opening, mk, owns, e, m1, own1, Flatten(ps), SetItems, DDict(ps), r);
  }

  /** A generic object once its properties and class entry have run: SETITEMS completes it. */
  lemma InstanceDone(h: Heap, useMemo: bool, pending: set<Addr>, m: Machine, own: map<Addr, Ref>, r: Ref,
                     opening: seq<Op>, mk: Machine, owns: map<Addr, Ref>,
                     e: Enc, mc: Machine, own1: map<Addr, Ref>, ps: seq<(DVal, DVal)>, entries: seq<(DVal, DVal)>)
    returns (m3: Machine)
    requires r in h && h[r].OObject? && KeysApart(h, h[r])
    requires Opened(m, own, pending, r, opening, mk, owns, DDict([]))
    requires Ran(h, useMemo, pending + {|m.heap|}, mk, owns, e, mc, own1, Flatten(entries))
    requires PropsCorr(mc.heap, own1, h[r].props, ps)
    requires h[r].anonymous ==> entries == ps
    requires !h[r].anonymous ==> |entries| == |ps| + 1 && entries[..|ps|] == ps
    requires !h[r].anonymous ==> StrAt(mc.heap, entries[|ps|].0, CLASS_KEY) && StrAt(mc.heap, entries[|ps|].1, h[r].className)
    ensures Ran(h, useMemo, pending, m, own, Enc(opening + e.ops + [SetItems], e.memo, e.next), m3, own1, [DRef(|m.heap|)])
    ensures ValCorr(m3.heap, own1, VRef(r), DRef(|m.heap|))
  {
    var a := |m.heap|;
    assert mc.heap[a] == mk.heap[a] == DDict([]);
    InstanceKeysDistinct(h, mc.heap, own1, h[r], ps, entries);
    ExecSetItems(mc, m.stack, a, entries);
    InstanceCorr(mc.heap, own1, h[r], ps, entries, a, DDict(entries));
    m3 := CloseShell(h, useMemo, pending, m, own, opening, mk, owns, e, mc, own1, Flatten(entries), SetItems, DDict(entries), r);
  }

  // ---------------------------------------------------------------------
  // The simulation, one encoding function at a time

  lemma IntOpsEmittable(xs: seq<int>)
    ensures Emittable(IntOps(xs))
  {
    if xs != [] {
      IntOpsEmittable(xs[1..]);
      EmittableConcat([IntOp(xs[0])], IntOps(xs[1..]));
    }
  }

  /** A value: the decoder runs its instructions and pushes one value that
      stands for it. */
  lemma SimValue(h: Heap, useMemo: bool, path: set<Ref>, memo: map<Ref, nat>, next: nat, v: Val,
                 m: Machine, own: map<Addr, Ref>, pending: set<Addr>)
    returns (m2: Machine, own2: map<Addr, Ref>, d: DVal)
    requires WellFormedHeap(h) && ValIn(h, v) && ValFits(v)
    requires Sim(h, useMemo, memo, next, m, own, pending)
    ensures var res := SaveValue(h, useMemo, path, memo, next, v);
      res.Ok? ==> Ran(h, useMemo, pending, m, own, res.value, m2, own2, [d]) && ValCorr(m2.heap, own2, v, d)
    decreases |h.Keys - path|, 2, 0
  {
    m2, own2, d := m, own, DNone;
    match v
    case VNone =>
      RanScalar(h, useMemo, pending, memo, next, m, own, PushNone, DNone);
      m2 := Push(m, DNone);
    case VBool(b) =>
      d := DBool(b);
      RanScalar(h, useMemo, pending, memo, next, m, own, if b then NewTrue else NewFalse, d);
      m2 := Push(m, d);
    case VInt(i) =>
      d := DInt(i);
      StepInt(m, i);
      RanScalar(h, useMemo, pending, memo, next, m, own, IntOp(i), d);
      m2 := Push(m, d);
    case VChar(c) =>
      RanText(h, useMemo, pending, memo, next, m, own, [c]);
      m2, d := Alloc(m, DStr([c])), DRef(|m.heap|);
    case VEnum(name) =>
      RanText(h, useMemo, pending, memo, next, m, own, name);
      m2, d := Alloc(m, DStr(name)), DRef(|m.heap|);
    case VRef(r) =>
      if useMemo && r in memo {
        m2, d := RanMemoGet(h, useMemo, pending, memo, next, m, own, r);
      } else if r !in path {
        m2, own2, d := SimObject(h, useMemo, path, memo, next, r, m, own, pending);
      }
  }

  /** An instance seen before: GET pushes the value its slot holds. */
  lemma RanMemoGet(h: Heap, useMemo: bool, pending: set<Addr>, memo: map<Ref, nat>, next: nat, m: Machine,
                   own: map<Addr, Ref>, r: Ref)
    returns (m2: Machine, d: DVal)
    requires WellFormedHeap(h) && Sim(h, useMemo, memo, next, m, own, pending) && r in memo
    ensures Ran(h, useMemo, pending, m, own, Enc([Get(memo[r])], memo, next), m2, own, [d])
    ensures ValCorr(m2.heap, own, VRef(r), d)
  {
    d := m.memo[memo[r]];
    SlotsFit(h, memo, next);
    StepMemoGet(m, memo[r]);
    RanScalar(h, useMemo, pending, memo, next, m, own, Get(memo[r]), d);
    m2 := Push(m, d);
  }

  /** An instance without a memo slot, by its type. */
  lemma SimObject(h: Heap, useMemo: bool, path: set<Ref>, memo: map<Ref, nat>, next: nat, r: Ref,
                  m: Machine, own: map<Addr, Ref>, pending: set<Addr>)
    returns (m2: Machine, own2: map<Addr, Ref>, d: DVal)
    requires WellFormedHeap(h) && r in h && r !in path && !(useMemo && r in memo)
    requires Sim(h, useMemo, memo, next, m, own, pending)
    ensures var res := SaveObject(h, useMemo, path, memo, next, r);
      res.Ok? ==> Ran(h, useMemo, pending, m, own, res.value, m2, own2, [d]) && ValCorr(m2.heap, own2, VRef(r), d)
    decreases |h.Keys - path|, 1, 0
  {
    assert ObjFits(h[r]);
    d := DRef(|m.heap|);
    match h[r]
    case OStr(s) =>
      m2, own2 := SimText(h, useMemo, memo, next, m, own, pending, r, s);
    case OCharArray(cs) =>
      m2, own2 := SimText(h, useMemo, memo, next, m, own, pending, r, cs);
    case OIntArray(xs) =>
      m2, own2, d := SimIntArray(h, useMemo, memo, next, m, own, pending, r, xs);
    case OByteArray(data) =>
      m2, own2, d := SimByteArray(h, useMemo, memo, next, m, own, pending, r, data);
    case OArray(_) =>
      m2, own2, d := SimArray(h, useMemo, path, memo, next, r, m, own, pending);
    case ODict(_) =>
      m2, own2, d := SimDict(h, useMemo, path, memo, next, r, m, own, pending);
    case OObject(_, _, _) =>
      m2, own2, d := SimInstance(h, useMemo, path, memo, next, r, m, own, pending);
    case _ =>
      m2, own2, d := SimCollection(h, useMemo, path, memo, next, r, m, own, pending);
  }

  // The fixed texts this encoder writes fit their instructions.

  lemma ClassKeyFits()
    ensures |Utf8(CLASS_KEY)| < TWO_32
  {
  }

  lemma Latin1NameFits()
    ensures |Utf8(LATIN1)| < TWO_32
  {
  }

  lemma ArrayPathFits()
    ensures NoNewline(ARRAY_MODULE) && |INT_TYPECODE| < 256
  {
  }

  lemma BytearrayPathFits()
    ensures NoNewline(BUILTIN_MODULE) && NoNewline(BYTEARRAY_NAME)
  {
  }

  lemma ByteArrayOpsEmittable(data: seq<byte>)
    requires TextFits(Latin1Decode(data))
    ensures Emittable(ByteArrayOps(data))
  {
    Latin1NameFits();
    BytearrayPathFits();
  }

  lemma IntArrayOpsEmittable(xs: seq<int>)
    ensures Emittable(IntArrayOps(xs))
  {
    ArrayPathFits();
    IntOpsEmittable(xs);
    var head := [Global(ARRAY_MODULE, ARRAY_MODULE), ShortBinString(INT_TYPECODE), EmptyList, Mark];
    EmittableConcat(head, IntOps(xs));
    EmittableConcat(head + IntOps(xs), [Appends, Tuple2, Reduce]);
  }

  /** A string or a char[]: one BINUNICODE, then its PUT. */
  lemma SimText(h: Heap, useMemo: bool, memo: map<Ref, nat>, next: nat, m: Machine, own: map<Addr, Ref>,
                pending: set<Addr>, r: Ref, s: string)
    returns (m2: Machine, own2: map<Addr, Ref>)
    requires Sim(h, useMemo, memo, next, m, own, pending) && |h.Keys| < TWO_31
    requires r in h && !(useMemo && r in memo) && (h[r] == OStr(s) || h[r] == OCharArray(s)) && TextFits(s)
    ensures Ran(h, useMemo, pending, m, own, Memorize(useMemo, Enc([BinUnicode(s)], memo, next), r), m2, own2, [DRef(|m.heap|)])
    ensures ValCorr(m2.heap, own2, VRef(r), DRef(|m.heap|))
  {
    Run1(m, BinUnicode(s), Alloc(m, DStr(s)));
    m2, own2 := SimAtomic(h, useMemo, memo, next, m, own, pending, r, [BinUnicode(s)], m, DStr(s));
  }

  /** An int[]: array.array('i', [...]), then its PUT. */
  lemma SimIntArray(h: Heap, useMemo: bool, memo: map<Ref, nat>, next: nat, m: Machine, own: map<Addr, Ref>,
                    pending: set<Addr>, r: Ref, xs: seq<int>)
    returns (m2: Machine, own2: map<Addr, Ref>, d: DVal)
    requires Sim(h, useMemo, memo, next, m, own, pending) && |h.Keys| < TWO_31
    requires r in h && !(useMemo && r in memo) && h[r] == OIntArray(xs) && ObjFits(h[r])
    ensures Ran(h, useMemo, pending, m, own, Memorize(useMemo, Enc(IntArrayOps(xs), memo, next), r), m2, own2, [d])
    ensures ValCorr(m2.heap, own2, VRef(r), d)
  {
    var n := |m.heap|;
    var mid := Machine(m.stack, m.memo, m.heap + [DStr("i"), DList(DInts(xs)), DTuple([DRef(n), DRef(n + 1)])]);
    ExecIntArray(m, xs);
    IntArrayOpsEmittable(xs);
    m2, own2 := SimAtomic(h, useMemo, memo, next, m, own, pending, r, IntArrayOps(xs), mid, DIntArray(xs));
    d := DRef(|mid.heap|);
  }

  /** A byte[]: bytearray(text, 'latin-1'), then its PUT. */
  lemma SimByteArray(h: Heap, useMemo: bool, memo: map<Ref, nat>, next: nat, m: Machine, own: map<Addr, Ref>,
                     pending: set<Addr>, r: Ref, data: seq<byte>)
    returns (m2: Machine, own2: map<Addr, Ref>, d: DVal)
    requires Sim(h, useMemo, memo, next, m, own, pending) && |h.Keys| < TWO_31
    requires r in h && !(useMemo && r in memo) && h[r] == OByteArray(data) && ObjFits(h[r])
    ensures Ran(h, useMemo, pending, m, own, Memorize(useMemo, Enc(ByteArrayOps(data), memo, next), r), m2, own2, [d])
    ensures ValCorr(m2.heap, own2, VRef(r), d)
  {
    var n := |m.heap|;
    var mid := Machine(m.stack, m.memo, m.heap + [DStr(Latin1Decode(data)), DStr(LATIN1), DTuple([DRef(n), DRef(n + 1)])]);
    ExecByteArray(m, data);
    ByteArrayOpsEmittable(data);
    m2, own2 := SimAtomic(h, useMemo, memo, next, m, own, pending, r, ByteArrayOps(data), mid, DBytes(data));
    d := DRef(|mid.heap|);
  }

  /** An array once its elements have run: the tuple of them, then its PUT. */
  lemma ArrayDone(h: Heap, useMemo: bool, pending: set<Addr>, m: Machine, own: map<Addr, Ref>, r: Ref,
                  e: Enc, m1: Machine, own1: map<Addr, Ref>, ds: seq<DVal>)
    returns (m2: Machine, own2: map<Addr, Ref>, d: DVal)
    requires WellFormedHeap(h) && r in h && h[r].OArray? && !(useMemo && r in e.memo)
    requires |h[r].items| == 0 ==> e.ops == [] && m1 == m
    requires Ran(h, useMemo, pending, if |h[r].items| >= 4 then m.(stack := m.stack + [Marker]) else m, own,
                 e, m1, own1, ds)
    requires SeqCorr(m1.heap, own1, h[r].items, ds)
    ensures Ran(h, useMemo, pending, m, own, Memorize(useMemo, Enc(TupleOps(|h[r].items|, e.ops), e.memo, e.next), r),
                m2, own2, [d])
    ensures ValCorr(m2.heap, own2, VRef(r), d)
  {
    var items := h[r].items;
    ExecTuple(m, e.ops, m1, ds);
    TupleOpsEmittable(|items|, e.ops);
    var mid := m1.(stack := m.stack);
    var x := DTuple(ds);
    SeqCorrMono(m1.heap, own1, mid.heap + [x], own1[|mid.heap| := r], items, ds);
    m2, own2 := FinishAtomic(h, useMemo, pending, m, own, TupleOps(|items|, e.ops), e.memo, e.next, mid, own1, r, x);
    d := DRef(|mid.heap|);
  }

  /** An array: its elements, the tuple of them, its PUT. */
  lemma SimArray(h: Heap, useMemo: bool, path: set<Ref>, memo: map<Ref, nat>, next: nat, r: Ref,
                 m: Machine, own: map<Addr, Ref>, pending: set<Addr>)
    returns (m2: Machine, own2: map<Addr, Ref>, d: DVal)
    requires WellFormedHeap(h) && r in h && r !in path && !(useMemo && r in memo) && h[r].OArray?
    requires Sim(h, useMemo, memo, next, m, own, pending)
    ensures var res := SaveArray(h, useMemo, path, memo, next, r);
      res.Ok? ==> Ran(h, useMemo, pending, m, own, res.value, m2, own2, [d]) && ValCorr(m2.heap, own2, VRef(r), d)
    decreases |h.Keys - path|, 0, 0
  {
    m2, own2, d := m, own, DNone;
    var items := h[r].items;
    assert ObjIn(h, h[r]) && ObjFits(h[r]);
    ShrinkUnvisited(h, path, r);
    if !(1 <= |items| <= 3 && VRef(r) in items) {
      var m0 := if |items| >= 4 then m.(stack := m.stack + [Marker]) else m;
      var m1, own1, ds := SimItems(h, useMemo, path + {r}, memo, next, items, m0, own, pending);
      ItemsGrows(h, useMemo, path + {r}, memo, next, items);
      var res := SaveItems(h, useMemo, path + {r}, memo, next, items);
      if res.Ok? {
        m2, own2, d := ArrayDone(h, useMemo, pending, m, own, r, res.value, m1, own1, ds);
      }
    }
  }

  /** A list, stack or queue: the shell, its items in enumeration order, APPENDS. */
  lemma SimCollection(h: Heap, useMemo: bool, path: set<Ref>, memo: map<Ref, nat>, next: nat, r: Ref,
                      m: Machine, own: map<Addr, Ref>, pending: set<Addr>)
    returns (m2: Machine, own2: map<Addr, Ref>, d: DVal)
    requires WellFormedHeap(h) && r in h && r !in path && !(useMemo && r in memo)
    requires h[r].OList? || h[r].OStack? || h[r].OQueue?
    requires Sim(h, useMemo, memo, next, m, own, pending)
    ensures var res := SaveCollection(h, useMemo, path, memo, next, r);
      res.Ok? ==> Ran(h, useMemo, pending, m, own, res.value, m2, own2, [d]) && ValCorr(m2.heap, own2, VRef(r), d)
    decreases |h.Keys - path|, 0, 0
  {
    var o := h[r];
    var a := |m.heap|;
    m2, own2, d := m, own, DRef(a);
    assert ObjIn(h, o) && ObjFits(o);
    EnumerationIn(h, o);
    ShrinkUnvisited(h, path, r);
    EnumerationFits(o);
    var items := Enumeration(o);
    var shell := Memorize(useMemo, Enc([EmptyList], memo, next), r);
    var mk, owns := OpenShell(h, useMemo, memo, next, m, own, pending, r, EmptyList, DList([]));
    var m1, own1, ds := SimItems(h, useMemo, path + {r}, shell.memo, shell.next, items, mk, owns, pending + {a});
    var res := SaveItems(h, useMemo, path + {r}, shell.memo, shell.next, items);
    if res.Ok? {
      m2 := CollectionDone(h, useMemo, pending, m, own, r, shell.ops + [Mark], mk, owns, res.value, m1, own1, ds);
      own2 := own1;
    }
  }

  /** A dictionary: the shell, its entries, SETITEMS. */
  lemma SimDict(h: Heap, useMemo: bool, path: set<Ref>, memo: map<Ref, nat>, next: nat, r: Ref,
                m: Machine, own: map<Addr, Ref>, pending: set<Addr>)
    returns (m2: Machine, own2: map<Addr, Ref>, d: DVal)
    requires WellFormedHeap(h) && r in h && r !in path && !(useMemo && r in memo) && h[r].ODict?
    requires Sim(h, useMemo, memo, next, m, own, pending)
    ensures var res := SaveDict(h, useMemo, path, memo, next, r);
      res.Ok? ==> Ran(h, useMemo, pending, m, own, res.value, m2, own2, [d]) && ValCorr(m2.heap, own2, VRef(r), d)
    decreases |h.Keys - path|, 0, 0
  {
    var entries := h[r].entries;
    var a := |m.heap|;
    m2, own2, d := m, own, DRef(a);
    assert ObjIn(h, h[r]) && ObjFits(h[r]);
    assert forall i | 0 <= i < |entries| :: ValFits(entries[i].0) && ValFits(entries[i].1);
    ShrinkUnvisited(h, path, r);
    var shell := Memorize(useMemo, Enc([EmptyDict], memo, next), r);
    var mk, owns := OpenShell(h, useMemo, memo, next, m, own, pending, r, EmptyDict, DDict([]));
    var m1, own1, ps := SimEntries(h, useMemo, path + {r}, shell.memo, shell.next, entries, mk, owns, pending + {a});
    var res := SaveEntries(h, useMemo, path + {r}, shell.memo, shell.next, entries);
    if res.Ok? {
      m2 := DictDone(h, useMemo, pending, m, own, r, shell.ops + [Mark], mk, owns, res.value, m1, own1, ps);
      own2 := own1;
    }
  }

  /** A generic object: the shell, its properties, the class entry unless the
      type is anonymous, SETITEMS. */
  lemma SimInstance(h: Heap, useMemo: bool, path: set<Ref>, memo: map<Ref, nat>, next: nat, r: Ref,
                    m: Machine, own: map<Addr, Ref>, pending: set<Addr>)
    returns (m2: Machine, own2: map<Addr, Ref>, d: DVal)
    requires WellFormedHeap(h) && r in h && r !in path && !(useMemo && r in memo) && h[r].OObject?
    requires Sim(h, useMemo, memo, next, m, own, pending)
    ensures var res := SaveInstance(h, useMemo, path, memo, next, r);
      res.Ok? ==> Ran(h, useMemo, pending, m, own, res.value, m2, own2, [d]) && ValCorr(m2.heap, own2, VRef(r), d)
    decreases |h.Keys - path|, 0, 0
  {
    var o := h[r];
    var a := |m.heap|;
    m2, own2, d := m, own, DRef(a);
    assert ObjIn(h, o) && ObjFits(o);
    assert TextFits(o.className);
    ShrinkUnvisited(h, path, r);
    if |o.props| > 0 {
      var shell := Memorize(useMemo, Enc([EmptyDict], memo, next), r);
      var mk, owns := OpenShell(h, useMemo, memo, next, m, own, pending, r, EmptyDict, DDict([]));
      var m1, own1, ps := SimProps(h, useMemo, path + {r}, shell.memo, shell.next, o.props, mk, owns, pending + {a});
      var res := SaveProps(h, useMemo, path + {r}, shell.memo, shell.next, o.props);
      if res.Ok? {
        m2 := InstanceFinish(h, useMemo, pending, m, own, r, shell.ops + [Mark], mk, owns, res.value, m1, own1, ps);
        own2 := own1;
      }
    }
  }

  /** The entries of a generic object's dictionary stand for its properties and class name. */
  /** A generic object's entry keys are string cells with pairwise different
      texts: its property names and, unless its type is anonymous, CLASS_KEY. */
  lemma InstanceKeysDistinct(h: Heap, dh: seq<DObj>, own: map<Addr, Ref>, o: Obj, ps: seq<(DVal, DVal)>,
                             entries: seq<(DVal, DVal)>)
    requires o.OObject? && KeysApart(h, o) && PropsCorr(dh, own, o.props, ps)
    requires o.anonymous ==> entries == ps
    requires !o.anonymous ==> |entries| == |ps| + 1 && entries[..|ps|] == ps && StrAt(dh, entries[|ps|].0, CLASS_KEY)
    ensures DistinctKeys(dh, entries)
  {
    var names := seq(|o.props|, i requires 0 <= i < |o.props| => o.props[i].0);
    if o.anonymous {
      TextKeysDistinct(dh, entries, names);
    } else {
      forall i | 0 <= i < |ps| ensures entries[i] == ps[i] {
        assert entries[..|ps|][i] == entries[i];
      }
      TextKeysDistinct(dh, entries, names + [CLASS_KEY]);
    }
  }

  lemma InstanceCorr(dh: seq<DObj>, own: map<Addr, Ref>, o: Obj, ps: seq<(DVal, DVal)>, entries: seq<(DVal, DVal)>,
                     a: Addr, x: DObj)
    requires o.OObject? && a < |dh| && !dh[a].DStr? && x == DDict(entries)
    requires PropsCorr(dh, own, o.props, ps)
    requires o.anonymous ==> entries == ps
    requires !o.anonymous ==> |entries| == |ps| + 1 && entries[..|ps|] == ps
    requires !o.anonymous ==> StrAt(dh, entries[|ps|].0, CLASS_KEY) && StrAt(dh, entries[|ps|].1, o.className)
    ensures ObjCorr(dh[a := x], own, o, x)
  {
    var dh2 := dh[a := x];
    UpdateKeepsStrs(dh, a, x);
    PropsCorrMono(dh, own, dh2, own, o.props, ps);
    assert entries[..|o.props|] == ps;
  }

  /** A generic object once its properties have run: the class entry unless
      the type is anonymous, then SETITEMS. */
  lemma InstanceFinish(h: Heap, useMemo: bool, pending: set<Addr>, m: Machine, own: map<Addr, Ref>, r: Ref,
                       opening: seq<Op>, mk: Machine, owns: map<Addr, Ref>,
                       e: Enc, m1: Machine, own1: map<Addr, Ref>, ps: seq<(DVal, DVal)>)
    returns (m3: Machine)
    requires r in h && h[r].OObject? && TextFits(h[r].className) && KeysApart(h, h[r])
    requires Opened(m, own, pending, r, opening, mk, owns, DDict([]))
    requires Ran(h, useMemo, pending + {|m.heap|}, mk, owns, e, m1, own1, Flatten(ps))
    requires PropsCorr(m1.heap, own1, h[r].props, ps)
    ensures Ran(h, useMemo, pending, m, own, Enc(opening + e.ops + ClassEntryOps(h[r]) + [SetItems], e.memo, e.next),
                m3, own1, [DRef(|m.heap|)])
    ensures ValCorr(m3.heap, own1, VRef(r), DRef(|m.heap|))
  {
    if h[r].anonymous {
      m3 := InstanceDone(h, useMemo, pending, m, own, r, opening, mk, owns, e, m1, own1, ps, ps);
      assert opening + e.ops + ClassEntryOps(h[r]) + [SetItems] == opening + e.ops + [SetItems];
    } else {
      m3 := NamedInstanceFinish(h, useMemo, pending, m, own, r, opening, mk, owns, e, m1, own1, ps);
    }
  }

  /** A generic object of a named type: `__class__` and the class name follow
      the properties, two more string cells. */
  lemma NamedInstanceFinish(h: Heap, useMemo: bool, pending: set<Addr>, m: Machine, own: map<Addr, Ref>, r: Ref,
                            opening: seq<Op>, mk: Machine, owns: map<Addr, Ref>,
                            e: Enc, m1: Machine, own1: map<Addr, Ref>, ps: seq<(DVal, DVal)>)
    returns (m3: Machine)
    requires r in h && h[r].OObject? && !h[r].anonymous && TextFits(h[r].className) && KeysApart(h, h[r])
    requires Opened(m, own, pending, r, opening, mk, owns, DDict([]))
    requires Ran(h, useMemo, pending + {|m.heap|}, mk, owns, e, m1, own1, Flatten(ps))
    requires PropsCorr(m1.heap, own1, h[r].props, ps)
    ensures Ran(h, useMemo, pending, m, own, Enc(opening + e.ops + ClassEntryOps(h[r]) + [SetItems], e.memo, e.next),
                m3, own1, [DRef(|m.heap|)])
    ensures ValCorr(m3.heap, own1, VRef(r), DRef(|m.heap|))
  {
    var o := h[r];
    var mc, entries := ClassEntry(h, useMemo, pending + {|m.heap|}, mk, owns, e, m1, own1, ps, o);
    var ec := Enc(e.ops + ClassEntryOps(o), e.memo, e.next);
    m3 := InstanceDone(h, useMemo, pending, m, own, r, opening, mk, owns, ec, mc, own1, ps, entries);
    assert opening + ec.ops + [SetItems] == opening + e.ops + ClassEntryOps(o) + [SetItems];
  }

  /** `__class__` and the class name after the properties: one more entry. */
  lemma ClassEntry(h: Heap, useMemo: bool, pending: set<Addr>, mk: Machine, owns: map<Addr, Ref>,
                   e: Enc, m1: Machine, own1: map<Addr, Ref>, ps: seq<(DVal, DVal)>, o: Obj)
    returns (mc: Machine, entries: seq<(DVal, DVal)>)
    requires o.OObject? && !o.anonymous && TextFits(o.className)
    requires Ran(h, useMemo, pending, mk, owns, e, m1, own1, Flatten(ps))
    requires PropsCorr(m1.heap, own1, o.props, ps)
    ensures Ran(h, useMemo, pending, mk, owns, Enc(e.ops + ClassEntryOps(o), e.memo, e.next), mc, own1, Flatten(entries))
    ensures PropsCorr(mc.heap, own1, o.props, ps)
    ensures |entries| == |ps| + 1 && entries[..|ps|] == ps
    ensures StrAt(mc.heap, entries[|ps|].0, CLASS_KEY) && StrAt(mc.heap, entries[|ps|].1, o.className)
  {
    var n := |m1.heap|;
    mc := ClassEntryRan(h, useMemo, pending, mk, owns, e, m1, own1, Flatten(ps), o);
    entries := ps + [(DRef(n), DRef(n + 1))];
    FlattenSnoc(ps, (DRef(n), DRef(n + 1)));
    assert entries[..|ps|] == ps && entries[|ps|] == (DRef(n), DRef(n + 1));
    assert mc.heap[n] == DStr(CLASS_KEY) && mc.heap[n + 1] == DStr(o.className);
    PrefixKeepsStrs(m1.heap, mc.heap);
    PropsCorrMono(m1.heap, own1, mc.heap, own1, o.props, ps);
  }

  /** The run of `__class__` and the class name, after whatever ran before. */
  lemma ClassEntryRan(h: Heap, useMemo: bool, pending: set<Addr>, mk: Machine, owns: map<Addr, Ref>,
                      e: Enc, m1: Machine, own1: map<Addr, Ref>, pushed: seq<DVal>, o: Obj)
    returns (mc: Machine)
    requires o.OObject? && !o.anonymous && TextFits(o.className)
    requires Ran(h, useMemo, pending, mk, owns, e, m1, own1, pushed)
    ensures Ran(h, useMemo, pending, mk, owns, Enc(e.ops + ClassEntryOps(o), e.memo, e.next), mc, own1,
                pushed + [DRef(|m1.heap|), DRef(|m1.heap| + 1)])
    ensures mc.heap == m1.heap + [DStr(CLASS_KEY), DStr(o.className)]
  {
    mc := ClassTexts(h, useMemo, pending, e.memo, e.next, m1, own1, o.className);
    RanThen(h, useMemo, pending, mk, owns, e, m1, own1, pushed,
            Enc(ClassEntryOps(o), e.memo, e.next), mc, own1, [DRef(|m1.heap|), DRef(|m1.heap| + 1)]);
  }

  /** `__class__` and the class name, two fresh string cells. */
  lemma ClassTexts(h: Heap, useMemo: bool, pending: set<Addr>, memo: map<Ref, nat>, next: nat, m: Machine,
                   own: map<Addr, Ref>, className: string)
    returns (mc: Machine)
    requires Sim(h, useMemo, memo, next, m, own, pending) && TextFits(className)
    ensures Ran(h, useMemo, pending, m, own, Enc([BinUnicode(CLASS_KEY), BinUnicode(className)], memo, next),
                mc, own, [DRef(|m.heap|), DRef(|m.heap| + 1)])
    ensures mc.heap == m.heap + [DStr(CLASS_KEY), DStr(className)]
  {
    ClassKeyFits();
    mc := RanTexts(h, useMemo, pending, memo, next, m, own, CLASS_KEY, className);
  }

  /** Two texts one after the other: two fresh string cells. */
  lemma RanTexts(h: Heap, useMemo: bool, pending: set<Addr>, memo: map<Ref, nat>, next: nat, m: Machine,
                 own: map<Addr, Ref>, s: string, t: string)
    returns (mc: Machine)
    requires Sim(h, useMemo, memo, next, m, own, pending) && |Utf8(s)| < TWO_32 && |Utf8(t)| < TWO_32
    ensures Ran(h, useMemo, pending, m, own, Enc([BinUnicode(s), BinUnicode(t)], memo, next),
                mc, own, [DRef(|m.heap|), DRef(|m.heap| + 1)])
    ensures mc.heap == m.heap + [DStr(s), DStr(t)]
  {
    var n := |m.heap|;
    RanText(h, useMemo, pending, memo, next, m, own, s);
    var mk := Alloc(m, DStr(s));
    RanText(h, useMemo, pending, memo, next, mk, own, t);
    mc := Alloc(mk, DStr(t));
    RanThen(h, useMemo, pending, m, own, Enc([BinUnicode(s)], memo, next), mk, own, [DRef(n)],
            Enc([BinUnicode(t)], memo, next), mc, own, [DRef(n + 1)]);
    assert [BinUnicode(s)] + [BinUnicode(t)] == [BinUnicode(s), BinUnicode(t)];
  }

  /** Values one after another: the decoder pushes one value per item. */
  lemma SimItems(h: Heap, useMemo: bool, path: set<Ref>, memo: map<Ref, nat>, next: nat, items: seq<Val>,
                 m: Machine, own: map<Addr, Ref>, pending: set<Addr>)
    returns (m2: Machine, own2: map<Addr, Ref>, ds: seq<DVal>)
    requires WellFormedHeap(h) && ItemsIn(h, items) && forall i | 0 <= i < |items| :: ValFits(items[i])
    requires Sim(h, useMemo, memo, next, m, own, pending)
    ensures var res := SaveItems(h, useMemo, path, memo, next, items);
      res.Ok? ==> Ran(h, useMemo, pending, m, own, res.value, m2, own2, ds) && SeqCorr(m2.heap, own2, items, ds)
    decreases |h.Keys - path|, 3, |items|
  {
    m2, own2, ds := m, own, [];
    if items == [] {
      RanNil(h, useMemo, pending, memo, next, m, own);
    } else {
      var m1, own1, d := SimValue(h, useMemo, path, memo, next, items[0], m, own, pending);
      var first := SaveValue(h, useMemo, path, memo, next, items[0]);
      if first.Ok? {
        var e1 := first.value;
        var rest;
        m2, own2, rest := SimItems(h, useMemo, path, e1.memo, e1.next, items[1..], m1, own1, pending);
        var tail := SaveItems(h, useMemo, path, e1.memo, e1.next, items[1..]);
        if tail.Ok? {
          RanThen(h, useMemo, pending, m, own, e1, m1, own1, [d], tail.value, m2, own2, rest);
          PrefixKeepsStrs(m1.heap, m2.heap);
          ValCorrMono(m1.heap, own1, m2.heap, own2, items[0], d);
          ds := [d] + rest;
        }
      }
    }
  }

  /** One key/value pair: the decoder pushes the key's value, then the value's. */
  lemma SimEntry(h: Heap, useMemo: bool, path: set<Ref>, memo: map<Ref, nat>, next: nat, entry: (Val, Val),
                 m: Machine, own: map<Addr, Ref>, pending: set<Addr>)
    returns (m2: Machine, own2: map<Addr, Ref>, p: (DVal, DVal))
    requires WellFormedHeap(h) && ValIn(h, entry.0) && ValIn(h, entry.1) && ValFits(entry.0) && ValFits(entry.1)
    requires Sim(h, useMemo, memo, next, m, own, pending)
    ensures var res := SaveEntry(h, useMemo, path, memo, next, entry);
      res.Ok? ==> Ran(h, useMemo, pending, m, own, res.value, m2, own2, [p.0, p.1])
                  && ValCorr(m2.heap, own2, entry.0, p.0) && ValCorr(m2.heap, own2, entry.1, p.1)
    decreases |h.Keys - path|, 3, 0
  {
    m2, own2, p := m, own, (DNone, DNone);
    var m1, own1, dk := SimValue(h, useMemo, path, memo, next, entry.0, m, own, pending);
    var key := SaveValue(h, useMemo, path, memo, next, entry.0);
    if key.Ok? {
      var e1 := key.value;
      var dv;
      m2, own2, dv := SimValue(h, useMemo, path, e1.memo, e1.next, entry.1, m1, own1, pending);
      var value := SaveValue(h, useMemo, path, e1.memo, e1.next, entry.1);
      if value.Ok? {
        RanThen(h, useMemo, pending, m, own, e1, m1, own1, [dk], value.value, m2, own2, [dv]);
        PrefixKeepsStrs(m1.heap, m2.heap);
        ValCorrMono(m1.heap, own1, m2.heap, own2, entry.0, dk);
        p := (dk, dv);
        assert [dk] + [dv] == [p.0, p.1];
      }
    }
  }

  /** Key/value pairs one after another: the decoder pushes them flattened. */
  lemma SimEntries(h: Heap, useMemo: bool, path: set<Ref>, memo: map<Ref, nat>, next: nat, entries: seq<(Val, Val)>,
                   m: Machine, own: map<Addr, Ref>, pending: set<Addr>)
    returns (m2: Machine, own2: map<Addr, Ref>, ps: seq<(DVal, DVal)>)
    requires WellFormedHeap(h) && EntriesIn(h, entries)
    requires forall i | 0 <= i < |entries| :: ValFits(entries[i].0) && ValFits(entries[i].1)
    requires Sim(h, useMemo, memo, next, m, own, pending)
    ensures var res := SaveEntries(h, useMemo, path, memo, next, entries);
      res.Ok? ==> Ran(h, useMemo, pending, m, own, res.value, m2, own2, Flatten(ps)) && EntriesCorr(m2.heap, own2, entries, ps)
    decreases |h.Keys - path|, 3, |entries|
  {
    m2, own2, ps := m, own, [];
    if entries == [] {
      RanNil(h, useMemo, pending, memo, next, m, own);
    } else {
      var m1, own1, p := SimEntry(h, useMemo, path, memo, next, entries[0], m, own, pending);
      var first := SaveEntry(h, useMemo, path, memo, next, entries[0]);
      if first.Ok? {
        var e1 := first.value;
        var rest;
        m2, own2, rest := SimEntries(h, useMemo, path, e1.memo, e1.next, entries[1..], m1, own1, pending);
        var tail := SaveEntries(h, useMemo, path, e1.memo, e1.next, entries[1..]);
        if tail.Ok? {
          RanThen(h, useMemo, pending, m, own, e1, m1, own1, [p.0, p.1], tail.value, m2, own2, Flatten(rest));
          PrefixKeepsStrs(m1.heap, m2.heap);
          ValCorrMono(m1.heap, own1, m2.heap, own2, entries[0].0, p.0);
          ValCorrMono(m1.heap, own1, m2.heap, own2, entries[0].1, p.1);
          ps := [p] + rest;
          FlattenCons(p, rest);
        }
      }
    }
  }

  /** One property ahead of the others: its name cell and its value come
      first, among the entries and among the values pushed. */
  lemma PropsCons(h: Heap, useMemo: bool, pending: set<Addr>, m: Machine, own: map<Addr, Ref>,
                  en: Enc, mn: Machine, prop: (string, Val), e1: Enc, m1: Machine, own1: map<Addr, Ref>, dv: DVal,
                  props: seq<(string, Val)>, e2: Enc, m2: Machine, own2: map<Addr, Ref>, rest: seq<(DVal, DVal)>)
    requires en.ops == [BinUnicode(prop.0)] && StrAt(mn.heap, DRef(|m.heap|), prop.0)
    requires Ran(h, useMemo, pending, m, own, en, mn, own, [DRef(|m.heap|)])
    requires Ran(h, useMemo, pending, mn, own, e1, m1, own1, [dv]) && ValCorr(m1.heap, own1, prop.1, dv)
    requires Ran(h, useMemo, pending, m1, own1, e2, m2, own2, Flatten(rest)) && PropsCorr(m2.heap, own2, props, rest)
    ensures Ran(h, useMemo, pending, m, own, Enc([BinUnicode(prop.0)] + e1.ops + e2.ops, e2.memo, e2.next), m2, own2,
                Flatten([(DRef(|m.heap|), dv)] + rest))
    ensures PropsCorr(m2.heap, own2, [prop] + props, [(DRef(|m.heap|), dv)] + rest)
  {
    var k := DRef(|m.heap|);
    RanThen(h, useMemo, pending, m, own, en, mn, own, [k], e1, m1, own1, [dv]);
    RanThen(h, useMemo, pending, m, own, Enc(en.ops + e1.ops, e1.memo, e1.next), m1, own1, [k, dv],
            e2, m2, own2, Flatten(rest));
    PrefixKeepsStrs(m1.heap, m2.heap);
    PrefixKeepsStrs(mn.heap, m2.heap);
    ValCorrMono(m1.heap, own1, m2.heap, own2, prop.1, dv);
    FlattenCons((k, dv), rest);
    assert ([prop] + props)[1..] == props;
  }

  /** One property in front of the rest, as SaveProps puts it. */
  lemma PropsRan(h: Heap, useMemo: bool, path: set<Ref>, memo: map<Ref, nat>, next: nat, props: seq<(string, Val)>,
                 pending: set<Addr>, m: Machine, own: map<Addr, Ref>, mn: Machine,
                 e1: Enc, m1: Machine, own1: map<Addr, Ref>, dv: DVal,
                 e2: Enc, m2: Machine, own2: map<Addr, Ref>, rest: seq<(DVal, DVal)>)
    requires Closed(h) && PropsIn(h, props) && props != []
    requires SaveValue(h, useMemo, path, memo, next, props[0].1) == Ok(e1)
    requires SaveProps(h, useMemo, path, e1.memo, e1.next, props[1..]) == Ok(e2)
    requires StrAt(mn.heap, DRef(|m.heap|), props[0].0)
    requires Ran(h, useMemo, pending, m, own, Enc([BinUnicode(props[0].0)], memo, next), mn, own, [DRef(|m.heap|)])
    requires Ran(h, useMemo, pending, mn, own, e1, m1, own1, [dv]) && ValCorr(m1.heap, own1, props[0].1, dv)
    requires Ran(h, useMemo, pending, m1, own1, e2, m2, own2, Flatten(rest)) && PropsCorr(m2.heap, own2, props[1..], rest)
    ensures var res := SaveProps(h, useMemo, path, memo, next, props);
      && res.Ok?
      && Ran(h, useMemo, pending, m, own, res.value, m2, own2, Flatten([(DRef(|m.heap|), dv)] + rest))
      && PropsCorr(m2.heap, own2, props, [(DRef(|m.heap|), dv)] + rest)
  {
    PropsCons(h, useMemo, pending, m, own, Enc([BinUnicode(props[0].0)], memo, next), mn, props[0], e1, m1, own1,
              dv, props[1..], e2, m2, own2, rest);
    assert [props[0]] + props[1..] == props;
  }

  /** The properties of a generic object: each name as a string cell, then its value. */
  lemma SimProps(h: Heap, useMemo: bool, path: set<Ref>, memo: map<Ref, nat>, next: nat, props: seq<(string, Val)>,
                 m: Machine, own: map<Addr, Ref>, pending: set<Addr>)
    returns (m2: Machine, own2: map<Addr, Ref>, ps: seq<(DVal, DVal)>)
    requires WellFormedHeap(h) && PropsIn(h, props)
    requires forall i | 0 <= i < |props| :: TextFits(props[i].0) && ValFits(props[i].1)
    requires Sim(h, useMemo, memo, next, m, own, pending)
    ensures var res := SaveProps(h, useMemo, path, memo, next, props);
      res.Ok? ==> Ran(h, useMemo, pending, m, own, res.value, m2, own2, Flatten(ps)) && PropsCorr(m2.heap, own2, props, ps)
    decreases |h.Keys - path|, 3, |props|
  {
    m2, own2, ps := m, own, [];
    if props == [] {
      RanNil(h, useMemo, pending, memo, next, m, own);
    } else {
      var name := props[0].0;
      var k := DRef(|m.heap|);
      RanText(h, useMemo, pending, memo, next, m, own, name);
      var mn := Alloc(m, DStr(name));
      var m1, own1, dv := SimValue(h, useMemo, path, memo, next, props[0].1, mn, own, pending);
      var first := SaveValue(h, useMemo, path, memo, next, props[0].1);
      if first.Ok? {
        var e1 := first.value;
        var rest;
        m2, own2, rest := SimProps(h, useMemo, path, e1.memo, e1.next, props[1..], m1, own1, pending);
        var tail := SaveProps(h, useMemo, path, e1.memo, e1.next, props[1..]);
        if tail.Ok? {
          PropsRan(h, useMemo, path, memo, next, props, pending, m, own, mn, e1, m1, own1, dv, tail.value, m2, own2, rest);
          ps := [(k, dv)] + rest;
        }
      }
    }
  }
}
