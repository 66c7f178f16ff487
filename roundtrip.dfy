/** Reading a pickle back: the decoder rebuilds the encoder's object graph.
    A decoded value corresponds to an input value through `own`, which says
    for each decoded heap cell which input instance it stands for. */
module RoundTrip {
  import opened Wrappers
  import opened Bytes
  import opened Opcodes
  import opened Values
  import opened Encoder
  import opened Decoder

  // ---------------------------------------------------------------------
  // The machine, one instruction at a time

  /** The stack entries of a run of values. */
  function Items(ds: seq<DVal>): (r: seq<Entry>)
    ensures |r| == |ds| && forall i | 0 <= i < |ds| :: r[i] == Item(ds[i])
  {
    seq(|ds|, i requires 0 <= i < |ds| => Item(ds[i]))
  }

  lemma ItemsValues(ds: seq<DVal>)
    ensures AllItems(Items(ds)) && ItemValues(Items(ds)) == ds
  {
  }

  lemma ItemsConcat(a: seq<DVal>, b: seq<DVal>)
    ensures Items(a + b) == Items(a) + Items(b)
  {
  }

  /** The topmost mark is the one below a run of items. */
  lemma LastMarkItems(p: seq<Entry>, ds: seq<DVal>)
    ensures LastMark(p + [Marker] + Items(ds)) == Some(|p|)
  {
    var s := p + [Marker] + Items(ds);
    MarkAbove(s, |p|, |s|);
  }

  /** Above the mark at k there are only items, so the search from n stops at k. */
  lemma {:induction false} MarkAbove(s: seq<Entry>, k: nat, n: nat)
    requires k < n <= |s| && s[k] == Marker && forall i | k < i < |s| :: s[i].Item?
    ensures MarkBelow(s, n) == Some(k)
    decreases n
  {
    if n - 1 != k {
      MarkAbove(s, k, n - 1);
    }
  }

  /** Two runs that succeed one after the other succeed together. */
  lemma ExecThen(m: Machine, a: seq<Op>, b: seq<Op>, m1: Machine, m2: Machine)
    requires Exec(m, a) == Ok(m1) && Exec(m1, b) == Ok(m2)
    ensures Exec(m, a + b) == Ok(m2)
  {
    ExecConcat(m, a, b);
  }

  // ---------------------------------------------------------------------
  // Correspondence between input values and decoded values

  /** `d` refers to a decoded string cell holding `s`. */
  predicate StrAt(dh: seq<DObj>, d: DVal, s: string) {
    d.DRef? && d.addr < |dh| && dh[d.addr] == DStr(s)
  }

  /** A decoded value stands for an input value: scalars are equal, a char or
      enum member is a string cell with its text, and an instance reference
      is a reference to a cell that `own` maps to that instance. */
  predicate ValCorr(dh: seq<DObj>, own: map<Addr, Ref>, v: Val, d: DVal) {
    match v
    case VNone => d == DNone
    case VBool(b) => d == DBool(b)
    case VInt(i) => d == DInt(i)
    case VChar(c) => StrAt(dh, d, [c])
    case VEnum(name) => StrAt(dh, d, name)
    case VRef(r) => d.DRef? && d.addr in own && own[d.addr] == r
  }

  predicate SeqCorr(dh: seq<DObj>, own: map<Addr, Ref>, vs: seq<Val>, ds: seq<DVal>) {
    |vs| == |ds| && forall i | 0 <= i < |vs| :: ValCorr(dh, own, vs[i], ds[i])
  }

  predicate EntriesCorr(dh: seq<DObj>, own: map<Addr, Ref>, es: seq<(Val, Val)>, ds: seq<(DVal, DVal)>) {
    |es| == |ds| && forall i | 0 <= i < |es| :: ValCorr(dh, own, es[i].0, ds[i].0) && ValCorr(dh, own, es[i].1, ds[i].1)
  }

  /** Each property becomes an entry keyed by a string cell holding its name. */
  predicate PropsCorr(dh: seq<DObj>, own: map<Addr, Ref>, ps: seq<(string, Val)>, ds: seq<(DVal, DVal)>) {
    |ps| == |ds| && forall i | 0 <= i < |ps| :: StrAt(dh, ds[i].0, ps[i].0) && ValCorr(dh, own, ps[i].1, ds[i].1)
  }

  /** A decoded cell stands for an input instance: texts and char arrays are
      strings, int[] and byte[] come back as themselves, element-type arrays
      are tuples, lists, stacks and queues are lists in enumeration order,
      dictionaries keep their entries, and a generic object is a dictionary
      of its properties followed, unless its type is anonymous, by
      `__class__` and its class name. */
  predicate ObjCorr(dh: seq<DObj>, own: map<Addr, Ref>, o: Obj, x: DObj) {
    match o
    case OStr(s) => x == DStr(s)
    case OCharArray(cs) => x == DStr(cs)
    case OIntArray(xs) => x == DIntArray(xs)
    case OByteArray(d) => x == DBytes(d)
    case OArray(items) => x.DTuple? && SeqCorr(dh, own, items, x.items)
    case OList(items) => x.DList? && SeqCorr(dh, own, items, x.items)
    case OStack(pushed) => x.DList? && SeqCorr(dh, own, Reverse(pushed), x.items)
    case OQueue(enqueued) => x.DList? && SeqCorr(dh, own, enqueued, x.items)
    case ODict(es) => x.DDict? && EntriesCorr(dh, own, es, x.entries)
    case OObject(cls, anonymous, props) =>
      && x.DDict?
      && |x.entries| == |props| + (if anonymous then 0 else 1)
      && PropsCorr(dh, own, props, x.entries[..|props|])
      && (!anonymous ==> StrAt(dh, x.entries[|props|].0, CLASS_KEY) && StrAt(dh, x.entries[|props|].1, cls))
  }

  /** `own2` extends `own`. */
  predicate SubMap(own: map<Addr, Ref>, own2: map<Addr, Ref>) {
    forall a | a in own :: a in own2 && own2[a] == own[a]
  }

  /** `dh2` keeps every string cell of `dh`. */
  predicate KeepsStrs(dh: seq<DObj>, dh2: seq<DObj>) {
    |dh| <= |dh2| && forall a | 0 <= a < |dh| && dh[a].DStr? :: dh2[a] == dh[a]
  }

  lemma PrefixKeepsStrs(dh: seq<DObj>, dh2: seq<DObj>)
    requires dh <= dh2
    ensures KeepsStrs(dh, dh2)
  {
  }

  lemma ValCorrMono(dh: seq<DObj>, own: map<Addr, Ref>, dh2: seq<DObj>, own2: map<Addr, Ref>, v: Val, d: DVal)
    requires ValCorr(dh, own, v, d) && KeepsStrs(dh, dh2) && SubMap(own, own2)
    ensures ValCorr(dh2, own2, v, d)
  {
  }

  lemma SeqCorrMono(dh: seq<DObj>, own: map<Addr, Ref>, dh2: seq<DObj>, own2: map<Addr, Ref>, vs: seq<Val>, ds: seq<DVal>)
    requires SeqCorr(dh, own, vs, ds) && KeepsStrs(dh, dh2) && SubMap(own, own2)
    ensures SeqCorr(dh2, own2, vs, ds)
  {
    forall i | 0 <= i < |vs| ensures ValCorr(dh2, own2, vs[i], ds[i]) {
      ValCorrMono(dh, own, dh2, own2, vs[i], ds[i]);
    }
  }

  lemma EntriesCorrMono(dh: seq<DObj>, own: map<Addr, Ref>, dh2: seq<DObj>, own2: map<Addr, Ref>, es: seq<(Val, Val)>, ds: seq<(DVal, DVal)>)
    requires EntriesCorr(dh, own, es, ds) && KeepsStrs(dh, dh2) && SubMap(own, own2)
    ensures EntriesCorr(dh2, own2, es, ds)
  {
    forall i | 0 <= i < |es| ensures ValCorr(dh2, own2, es[i].0, ds[i].0) && ValCorr(dh2, own2, es[i].1, ds[i].1) {
      ValCorrMono(dh, own, dh2, own2, es[i].0, ds[i].0);
      ValCorrMono(dh, own, dh2, own2, es[i].1, ds[i].1);
    }
  }

  lemma PropsCorrMono(dh: seq<DObj>, own: map<Addr, Ref>, dh2: seq<DObj>, own2: map<Addr, Ref>, ps: seq<(string, Val)>, ds: seq<(DVal, DVal)>)
    requires PropsCorr(dh, own, ps, ds) && KeepsStrs(dh, dh2) && SubMap(own, own2)
    ensures PropsCorr(dh2, own2, ps, ds)
  {
    forall i | 0 <= i < |ps| ensures StrAt(dh2, ds[i].0, ps[i].0) && ValCorr(dh2, own2, ps[i].1, ds[i].1) {
      ValCorrMono(dh, own, dh2, own2, ps[i].1, ds[i].1);
    }
  }

  lemma ObjCorrMono(dh: seq<DObj>, own: map<Addr, Ref>, dh2: seq<DObj>, own2: map<Addr, Ref>, o: Obj, x: DObj)
    requires ObjCorr(dh, own, o, x) && KeepsStrs(dh, dh2) && SubMap(own, own2)
    ensures ObjCorr(dh2, own2, o, x)
  {
    match o
    case OArray(items) => SeqCorrMono(dh, own, dh2, own2, items, x.items);
    case OList(items) => SeqCorrMono(dh, own, dh2, own2, items, x.items);
    case OStack(pushed) => SeqCorrMono(dh, own, dh2, own2, Reverse(pushed), x.items);
    case OQueue(enqueued) => SeqCorrMono(dh, own, dh2, own2, enqueued, x.items);
    case ODict(es) => EntriesCorrMono(dh, own, dh2, own2, es, x.entries);
    case OObject(_, _, props) => PropsCorrMono(dh, own, dh2, own2, props, x.entries[..|props|]);
    case _ =>
  }

  // ---------------------------------------------------------------------
  // The simulation relation

  /** Every decoded cell `own` knows stands for its instance; cells in
      `pending` are containers whose contents are still being decoded. */
  predicate Inv(h: Heap, dh: seq<DObj>, own: map<Addr, Ref>, pending: set<Addr>) {
    && pending <= own.Keys
    && forall a | a in own ::
         && a < |dh| && own[a] in h
         && (a !in pending ==> ObjCorr(dh, own, h[own[a]], dh[a]))
         && (a in pending ==> Shell(h[own[a]], dh[a]))
  }

  /** A container under construction: neither the cell nor its instance is text. */
  predicate Shell(o: Obj, x: DObj) {
    !x.DStr? && !o.OStr? && !o.OCharArray?
  }

  /** A decoded key is compared by the text its input key reads back as. */
  lemma KeyTextCorr(h: Heap, dh: seq<DObj>, own: map<Addr, Ref>, pending: set<Addr>, v: Val, d: DVal)
    requires Inv(h, dh, own, pending) && ValCorr(dh, own, v, d)
    ensures StrOf(dh, d) == KeyText(h, v)
  {
    if v.VRef? && d.addr !in pending {
      assert ObjCorr(dh, own, h[v.ref], dh[d.addr]);
    }
  }

  /** Input keys that do not collide read back as keys a Hashtable keeps apart. */
  lemma KeysApartCorr(h: Heap, dh: seq<DObj>, own: map<Addr, Ref>, pending: set<Addr>, u: Val, du: DVal, v: Val, dv: DVal)
    requires Inv(h, dh, own, pending) && ValCorr(dh, own, u, du) && ValCorr(dh, own, v, dv)
    requires !KeysCollide(h, u, v)
    ensures !SameKey(dh, du, dv)
  {
    KeyTextCorr(h, dh, own, pending, u, du);
    KeyTextCorr(h, dh, own, pending, v, dv);
  }

  /** The entries of a dictionary whose keys stay apart read back with distinct keys. */
  lemma EntriesKeysDistinct(h: Heap, dh: seq<DObj>, own: map<Addr, Ref>, pending: set<Addr>, es: seq<(Val, Val)>, ps: seq<(DVal, DVal)>)
    requires Inv(h, dh, own, pending) && EntriesCorr(dh, own, es, ps) && KeysApart(h, ODict(es))
    ensures DistinctKeys(dh, ps)
  {
    forall i, j | 0 <= i < j < |ps| ensures !SameKey(dh, ps[i].0, ps[j].0) {
      KeysApartCorr(h, dh, own, pending, es[i].0, ps[i].0, es[j].0, ps[j].0);
    }
  }

  /** Keys that are string cells with pairwise different texts are distinct. */
  lemma TextKeysDistinct(dh: seq<DObj>, ps: seq<(DVal, DVal)>, names: seq<string>)
    requires |ps| == |names| && forall i | 0 <= i < |ps| :: StrAt(dh, ps[i].0, names[i])
    requires forall i, j | 0 <= i < j < |names| :: names[i] != names[j]
    ensures DistinctKeys(dh, ps)
  {
    forall i, j | 0 <= i < j < |ps| ensures !SameKey(dh, ps[i].0, ps[j].0) {
      assert StrOf(dh, ps[i].0) == Some(names[i]) && StrOf(dh, ps[j].0) == Some(names[j]);
    }
  }

  /** The encoder's memo table (instance to slot) and the decoder's (slot to
      value) agree: every slot the encoder handed out holds a reference to a
      cell standing for that instance, and with memoization on every decoded
      cell is the one its instance's slot holds. */
  predicate Linked(useMemo: bool, memo: map<Ref, nat>, next: nat, mm: map<nat, DVal>, own: map<Addr, Ref>) {
    && (forall r | r in memo :: memo[r] < next && memo[r] in mm && ValCorr([], own, VRef(r), mm[memo[r]]))
    && (useMemo ==> forall a | a in own :: own[a] in memo && memo[own[a]] in mm && mm[memo[own[a]]] == DRef(a))
    && (!useMemo ==> memo == map[])
  }

  /** Slots are handed out densely to instances of the heap: `next` is the
      number of instances memoized so far. */
  predicate Counted(h: Heap, memo: map<Ref, nat>, next: nat) {
    memo.Keys <= h.Keys && next == |memo.Keys|
  }

  predicate Sim(h: Heap, useMemo: bool, memo: map<Ref, nat>, next: nat, m: Machine, own: map<Addr, Ref>, pending: set<Addr>) {
    Inv(h, m.heap, own, pending) && Linked(useMemo, memo, next, m.memo, own) && Counted(h, memo, next)
  }

  /** Instructions the parser reads back as themselves, none of them STOP. */
  predicate Emittable(ops: seq<Op>) {
    forall i | 0 <= i < |ops| :: WellFormedOp(ops[i]) && ops[i] != Stop
  }

  lemma EmittableConcat(a: seq<Op>, b: seq<Op>)
    requires Emittable(a) && Emittable(b)
    ensures Emittable(a + b)
  {
    forall i | 0 <= i < |a + b| ensures WellFormedOp((a + b)[i]) && (a + b)[i] != Stop {
      if i >= |a| {
        assert (a + b)[i] == b[i - |a|];
      }
    }
  }

  lemma SubsetCard(a: set<Ref>, b: set<Ref>)
    requires a <= b
    ensures |a| <= |b|
  {
    assert b * a == a;
    assert |b - a| == |b| - |a|;
  }

  lemma SubsetCardLess(a: set<Ref>, b: set<Ref>, x: Ref)
    requires a <= b && x in b && x !in a
    ensures |a| < |b|
  {
    assert b * a == a;
    assert x in b - a;
    assert |b - a| == |b| - |a|;
  }

  /** Every slot handed out so far fits the four-byte memo instructions. */
  lemma SlotsFit(h: Heap, memo: map<Ref, nat>, next: nat)
    requires Counted(h, memo, next) && |h.Keys| < TWO_31
    ensures next < TWO_31
  {
    SubsetCard(memo.Keys, h.Keys);
  }

  /** Cells added to the heap that stand for no instance change nothing. */
  lemma InvGrow(h: Heap, dh: seq<DObj>, dh2: seq<DObj>, own: map<Addr, Ref>, pending: set<Addr>)
    requires Inv(h, dh, own, pending) && dh <= dh2
    ensures Inv(h, dh2, own, pending)
  {
    PrefixKeepsStrs(dh, dh2);
    forall a | a in own && a !in pending ensures ObjCorr(dh2, own, h[own[a]], dh2[a]) {
      ObjCorrMono(dh, own, dh2, own, h[own[a]], dh[a]);
    }
  }

  /** Memoizing after a prefix is memoizing the whole. */
  lemma MemorizeAfter(useMemo: bool, prefix: seq<Op>, memo: map<Ref, nat>, next: nat, r: Ref)
    ensures Memorize(useMemo, Enc(prefix, memo, next), r)
         == Enc(prefix + Memorize(useMemo, Enc([], memo, next), r).ops,
                Memorize(useMemo, Enc([], memo, next), r).memo, Memorize(useMemo, Enc([], memo, next), r).next)
  {
  }

  /** A new cell for `r` keeps the invariant, standing for `r` or left pending. */
  lemma InvAdd(h: Heap, dh: seq<DObj>, own: map<Addr, Ref>, pending: set<Addr>, r: Ref, x: DObj, pending2: set<Addr>)
    requires Inv(h, dh, own, pending) && r in h
    requires pending2 == pending || pending2 == pending + {|dh|}
    requires |dh| !in pending2 ==> ObjCorr(dh + [x], own[|dh| := r], h[r], x)
    requires |dh| in pending2 ==> Shell(h[r], x)
    ensures |dh| !in own && SubMap(own, own[|dh| := r])
    ensures Inv(h, dh + [x], own[|dh| := r], pending2)
  {
    var own2 := own[|dh| := r];
    var dh2 := dh + [x];
    PrefixKeepsStrs(dh, dh2);
    forall b | b in own && b !in pending2 ensures ObjCorr(dh2, own2, h[own2[b]], dh2[b]) {
      ObjCorrMono(dh, own, dh2, own2, h[own[b]], dh[b]);
    }
  }

  /** The PUT of a new slot for `r`, holding a reference to `r`'s new cell `a`. */
  lemma LinkedAdd(memo: map<Ref, nat>, next: nat, mm: map<nat, DVal>, own: map<Addr, Ref>, r: Ref, a: Addr)
    requires Linked(true, memo, next, mm, own) && r !in memo && a !in own
    ensures Linked(true, memo[r := next], next + 1, mm[next := DRef(a)], own[a := r])
  {
    var memo2: map<Ref, nat> := memo[r := next];
    var mm2 := mm[next := DRef(a)];
    var own2 := own[a := r];
    forall q | q in memo2 ensures memo2[q] < next + 1 && memo2[q] in mm2 && ValCorr([], own2, VRef(q), mm2[memo2[q]]) {
      if q != r {
        assert memo2[q] == memo[q] < next;
      }
    }
    forall b | b in own2 ensures own2[b] in memo2 && memo2[own2[b]] in mm2 && mm2[memo2[own2[b]]] == DRef(b) {
      if b != a {
        assert own2[b] == own[b] && own[b] in memo;
        assert memo[own[b]] < next;
      }
    }
  }

  /** A freshly built cell for instance `r`, on top of the stack, followed by
      its PUT when memoization is on: the cell joins `own`, and either stands
      for `r` already or is a container left pending. */
  lemma Register(h: Heap, useMemo: bool, memo: map<Ref, nat>, next: nat, m: Machine, own: map<Addr, Ref>,
                 pending: set<Addr>, r: Ref, x: DObj, pending2: set<Addr>)
    returns (m2: Machine, own2: map<Addr, Ref>)
    requires Sim(h, useMemo, memo, next, m, own, pending)
    requires r in h && !(useMemo && r in memo)
    requires pending2 == pending || pending2 == pending + {|m.heap|}
    requires |m.heap| !in pending2 ==> ObjCorr(m.heap + [x], own[|m.heap| := r], h[r], x)
    requires |m.heap| in pending2 ==> Shell(h[r], x)
    requires |h.Keys| < TWO_31
    ensures own2 == own[|m.heap| := r] && SubMap(own, own2)
    ensures var e := Memorize(useMemo, Enc([], memo, next), r);
      && Exec(Alloc(m, x), e.ops) == Ok(m2)
      && m2.stack == m.stack + [Item(DRef(|m.heap|))] && m2.heap == m.heap + [x]
      && Sim(h, useMemo, e.memo, e.next, m2, own2, pending2)
      && Emittable(e.ops)
  {
    var a := |m.heap|;
    var m1 := Alloc(m, x);
    own2 := own[a := r];
    InvAdd(h, m.heap, own, pending, r, x, pending2);
    if useMemo {
      m2 := RegisterPut(h, memo, next, m1, own, r, a, own2);
    } else {
      m2 := m1;
    }
  }

  /** The PUT after a fresh cell at `a`: slot `next` refers to it. */
  lemma RegisterPut(h: Heap, memo: map<Ref, nat>, next: nat, m1: Machine, own: map<Addr, Ref>, r: Ref, a: Addr,
                    own2: map<Addr, Ref>)
    returns (m2: Machine)
    requires Linked(true, memo, next, m1.memo, own) && Counted(h, memo, next) && |h.Keys| < TWO_31
    requires r in h && r !in memo && a !in own && own2 == own[a := r]
    requires |m1.stack| >= 1 && m1.stack[|m1.stack| - 1] == Item(DRef(a))
    ensures Exec(m1, [Put(next)]) == Ok(m2) && m2 == m1.(memo := m1.memo[next := DRef(a)])
    ensures Linked(true, memo[r := next], next + 1, m2.memo, own2) && Counted(h, memo[r := next], next + 1)
    ensures Emittable([Put(next)])
  {
    SlotsFit(h, memo, next);
    m2 := RunPut(m1, next, a);
    LinkedAdd(memo, next, m1.memo, own, r, a);
    CountedAdd(h, memo, next, r);
  }

  /** Memoizing one more instance of the heap takes the next slot. */
  lemma CountedAdd(h: Heap, memo: map<Ref, nat>, next: nat, r: Ref)
    requires Counted(h, memo, next) && r in h && r !in memo
    ensures Counted(h, memo[r := next], next + 1)
  {
    assert memo[r := next].Keys == memo.Keys + {r};
  }

  /** PUT stores the reference on top of the stack in slot `next`. */
  lemma RunPut(m1: Machine, next: nat, a: Addr) returns (m2: Machine)
    requires |m1.stack| >= 1 && m1.stack[|m1.stack| - 1] == Item(DRef(a)) && next < TWO_31
    ensures Exec(m1, [Put(next)]) == Ok(m2) && m2 == m1.(memo := m1.memo[next := DRef(a)])
    ensures Emittable([Put(next)])
  {
    m2 := m1.(memo := m1.memo[next := DRef(a)]);
    Run1(m1, Put(next), m2);
  }

  /** A run of instructions from `m` that succeeded: it pushed `pushed`, only
      added heap cells, only extended `own`, and kept the relation. */
  predicate Ran(h: Heap, useMemo: bool, pending: set<Addr>, m: Machine, own: map<Addr, Ref>, e: Enc,
                m2: Machine, own2: map<Addr, Ref>, pushed: seq<DVal>) {
    && Exec(m, e.ops) == Ok(m2)
    && m2.stack == m.stack + Items(pushed)
    && m.heap <= m2.heap
    && SubMap(own, own2)
    && Sim(h, useMemo, e.memo, e.next, m2, own2, pending)
    && Emittable(e.ops)
  }

  lemma RanThen(h: Heap, useMemo: bool, pending: set<Addr>, m: Machine, own: map<Addr, Ref>,
                e1: Enc, m1: Machine, own1: map<Addr, Ref>, p1: seq<DVal>,
                e2: Enc, m2: Machine, own2: map<Addr, Ref>, p2: seq<DVal>)
    requires Ran(h, useMemo, pending, m, own, e1, m1, own1, p1)
    requires Ran(h, useMemo, pending, m1, own1, e2, m2, own2, p2)
    ensures Ran(h, useMemo, pending, m, own, Enc(e1.ops + e2.ops, e2.memo, e2.next), m2, own2, p1 + p2)
  {
    ExecThen(m, e1.ops, e2.ops, m1, m2);
    ItemsConcat(p1, p2);
    EmittableConcat(e1.ops, e2.ops);
  }

  lemma ItemsOne(d: DVal)
    ensures Items([d]) == [Item(d)]
  {
  }

  /** Key/value pairs as the run of values a SETITEMS consumes. */
  function Flatten(ps: seq<(DVal, DVal)>): (r: seq<DVal>)
    ensures |r| == 2 * |ps|
  {
    if ps == [] then [] else [ps[0].0, ps[0].1] + Flatten(ps[1..])
  }

  /** SETITEMS pairs up what the encoder flattened. */
  lemma {:induction false} PairsFlatten(ps: seq<(DVal, DVal)>)
    ensures Pairs(Flatten(ps)) == Some(ps)
  {
    if ps != [] {
      PairsFlatten(ps[1..]);
      assert Flatten(ps)[2..] == Flatten(ps[1..]);
      assert [ps[0]] + ps[1..] == ps;
    }
  }

  lemma FlattenCons(p: (DVal, DVal), ps: seq<(DVal, DVal)>)
    ensures Flatten([p] + ps) == [p.0] + [p.1] + Flatten(ps)
  {
    assert ([p] + ps)[1..] == ps;
  }

  lemma {:induction false} FlattenSnoc(ps: seq<(DVal, DVal)>, p: (DVal, DVal))
    ensures Flatten(ps + [p]) == Flatten(ps) + [p.0, p.1]
  {
    if ps == [] {
      assert [] + [p] == [p];
    } else {
      FlattenSnoc(ps[1..], p);
      assert (ps + [p])[1..] == ps[1..] + [p];
      assert (ps + [p])[0] == ps[0];
    }
  }

  // ---------------------------------------------------------------------
  // Single instructions

  /** One instruction in front of the rest of a run. */
  lemma ExecCons(m: Machine, op: Op, rest: seq<Op>, m1: Machine)
    requires Step(m, op) == Ok(m1)
    ensures Exec(m, [op] + rest) == Exec(m1, rest)
  {
    assert ([op] + rest)[1..] == rest;
  }

  // Short runs whose every instruction succeeds.

  lemma Run1(m0: Machine, o1: Op, m1: Machine)
    requires Step(m0, o1) == Ok(m1)
    ensures Exec(m0, [o1]) == Ok(m1)
  {
    assert [o1][1..] == [];
  }

  lemma Run2(m0: Machine, o1: Op, m1: Machine, o2: Op, m2: Machine)
    requires Step(m0, o1) == Ok(m1) && Step(m1, o2) == Ok(m2)
    ensures Exec(m0, [o1, o2]) == Ok(m2)
  {
    Run1(m1, o2, m2);
    ExecCons(m0, o1, [o2], m1);
    assert [o1, o2] == [o1] + [o2];
  }

  lemma Run3(m0: Machine, o1: Op, m1: Machine, o2: Op, m2: Machine, o3: Op, m3: Machine)
    requires Step(m0, o1) == Ok(m1) && Step(m1, o2) == Ok(m2) && Step(m2, o3) == Ok(m3)
    ensures Exec(m0, [o1, o2, o3]) == Ok(m3)
  {
    Run2(m1, o2, m2, o3, m3);
    ExecCons(m0, o1, [o2, o3], m1);
    assert [o1, o2, o3] == [o1] + [o2, o3];
  }

  lemma Run4(m0: Machine, o1: Op, m1: Machine, o2: Op, m2: Machine, o3: Op, m3: Machine, o4: Op, m4: Machine)
    requires Step(m0, o1) == Ok(m1) && Step(m1, o2) == Ok(m2) && Step(m2, o3) == Ok(m3) && Step(m3, o4) == Ok(m4)
    ensures Exec(m0, [o1, o2, o3, o4]) == Ok(m4)
  {
    Run3(m1, o2, m2, o3, m3, o4, m4);
    ExecCons(m0, o1, [o2, o3, o4], m1);
    assert [o1, o2, o3, o4] == [o1] + [o2, o3, o4];
  }

  lemma Run5(m0: Machine, o1: Op, m1: Machine, o2: Op, m2: Machine, o3: Op, m3: Machine, o4: Op, m4: Machine,
             o5: Op, m5: Machine)
    requires Step(m0, o1) == Ok(m1) && Step(m1, o2) == Ok(m2) && Step(m2, o3) == Ok(m3) && Step(m3, o4) == Ok(m4)
    requires Step(m4, o5) == Ok(m5)
    ensures Exec(m0, [o1, o2, o3, o4, o5]) == Ok(m5)
  {
    Run4(m1, o2, m2, o3, m3, o4, m4, o5, m5);
    ExecCons(m0, o1, [o2, o3, o4, o5], m1);
    assert [o1, o2, o3, o4, o5] == [o1] + [o2, o3, o4, o5];
  }

  // Instructions that consume stack entries, on stacks built the way the
  // encoder's runs build them.

  lemma StepInt(m: Machine, i: int)
    ensures Step(m, IntOp(i)) == Ok(Push(m, DInt(i)))
  {
    if IntOp(i).IntText? {
      IntFromDecimal(i);
    }
  }

  /** TUPLE1/2/3 take exactly the top items. */
  lemma StepPopTuple(m: Machine, p: seq<Entry>, ds: seq<DVal>)
    requires m.stack == p + Items(ds)
    ensures PopTuple(m, |ds|) == Ok(Alloc(m.(stack := p), DTuple(ds)))
  {
    assert m.stack[|m.stack| - |ds|..] == Items(ds);
    assert m.stack[..|m.stack| - |ds|] == p;
    ItemsValues(ds);
  }

  lemma StepTuple2(m: Machine, p: seq<Entry>, x: DVal, y: DVal)
    requires m.stack == p + [Item(x)] + [Item(y)]
    ensures Step(m, Tuple2) == Ok(Alloc(m.(stack := p), DTuple([x, y])))
  {
    assert m.stack == p + Items([x, y]);
    StepPopTuple(m, p, [x, y]);
  }

  /** The stack above a mark: everything above it is the items pushed since. */
  lemma MarkSplit(s: seq<Entry>, q: seq<Entry>, ds: seq<DVal>)
    requires s == q + [Marker] + Items(ds)
    ensures LastMark(s) == Some(|q|) && s[..|q|] == q && AllItems(s[|q| + 1..]) && ItemValues(s[|q| + 1..]) == ds
  {
    LastMarkItems(q, ds);
    assert s[|q| + 1..] == Items(ds);
    ItemsValues(ds);
  }

  /** TUPLE takes the items above the mark. */
  lemma StepTupleItems(m: Machine, p: seq<Entry>, ds: seq<DVal>)
    requires m.stack == p + [Marker] + Items(ds)
    ensures Step(m, Tuple) == Ok(Alloc(m.(stack := p), DTuple(ds)))
  {
    MarkSplit(m.stack, p, ds);
  }

  /** APPENDS extends the list below the mark by the items above it. */
  lemma StepAppendsItems(m: Machine, p: seq<Entry>, a: Addr, ds: seq<DVal>)
    requires m.stack == p + [Item(DRef(a))] + [Marker] + Items(ds)
    requires a < |m.heap| && m.heap[a].DList?
    ensures Step(m, Appends)
         == Ok(Machine(p + [Item(DRef(a))], m.memo, m.heap[a := DList(m.heap[a].items + ds)]))
  {
    MarkSplit(m.stack, p + [Item(DRef(a))], ds);
  }

  lemma UnfoldSetItems(m: Machine)
    ensures Step(m, SetItems) == StepSetItems(m)
  {
  }

  lemma StepSetItemsAt(m: Machine, k: nat, a: Addr, ps: seq<(DVal, DVal)>)
    requires LastMark(m.stack) == Some(k) && 1 <= k && m.stack[k - 1] == Item(DRef(a))
    requires a < |m.heap| && m.heap[a].DDict? && Pairs(ItemValues(m.stack[k + 1..])) == Some(ps)
    ensures StepSetItems(m) == SetItemsInto(m, k, a, Some(ps))
  {
    assert DictBelow(m, k) && m.stack[k - 1].v.addr == a;
    StepSetItemsInto(m, k, ps);
  }

  lemma StepSetItemsInto(m: Machine, k: nat, ps: seq<(DVal, DVal)>)
    requires LastMark(m.stack) == Some(k) && DictBelow(m, k) && Pairs(ItemValues(m.stack[k + 1..])) == Some(ps)
    ensures StepSetItems(m) == SetItemsInto(m, k, m.stack[k - 1].v.addr, Some(ps))
  {
    StepSetItemsMark(m, k);
  }

  /** SETITEMS once the mark is found at k. */
  lemma StepSetItemsMark(m: Machine, k: nat)
    requires LastMark(m.stack) == Some(k)
    ensures StepSetItems(m)
         == if DictBelow(m, k) then SetItemsInto(m, k, m.stack[k - 1].v.addr, Pairs(ItemValues(m.stack[k + 1..])))
            else Err(NotADict)
  {
  }

  /** SETITEMS assigns the pairs above the mark, in order, into the dict
      below it; with keys that are distinct and none of them None, among
      themselves and from the keys already there, it adds them at the end. */
  lemma StepSetItemsPairs(m: Machine, p: seq<Entry>, a: Addr, ps: seq<(DVal, DVal)>)
    requires m.stack == p + [Item(DRef(a))] + [Marker] + Items(Flatten(ps))
    requires a < |m.heap| && m.heap[a].DDict?
    ensures Step(m, SetItems)
         == match AssignAll(m.heap, m.heap[a].entries, ps)
            case None => Err(NullKey)
            case Some(es) => Ok(Machine(p + [Item(DRef(a))], m.memo, m.heap[a := DDict(es)]))
    ensures DistinctKeys(m.heap, m.heap[a].entries + ps)
         ==> Step(m, SetItems) == Ok(Machine(p + [Item(DRef(a))], m.memo, m.heap[a := DDict(m.heap[a].entries + ps)]))
  {
    var ds := Flatten(ps);
    var q := p + [Item(DRef(a))];
    var s := m.stack;
    var k := |q|;
    MarkSplit(s, q, ds);
    assert s[k - 1] == Item(DRef(a));
    PairsFlatten(ps);
    StepSetItemsAt(m, k, a, ps);
    UnfoldSetItems(m);
    if DistinctKeys(m.heap, m.heap[a].entries + ps) {
      AssignAllDistinct(m.heap, m.heap[a].entries, ps);
    }
  }

  /** The decoded form of a run of 32-bit integers. */
  function DInts(xs: seq<int>): (r: seq<DVal>)
    ensures |r| == |xs| && forall i | 0 <= i < |xs| :: r[i] == DInt(xs[i])
  {
    seq(|xs|, i requires 0 <= i < |xs| => DInt(xs[i]))
  }

  lemma {:induction false} ExecInts(m: Machine, xs: seq<int>)
    ensures Exec(m, IntOps(xs)) == Ok(m.(stack := m.stack + Items(DInts(xs))))
    decreases |xs|
  {
    if xs == [] {
      assert m.stack + Items(DInts(xs)) == m.stack;
    } else {
      var m1 := Push(m, DInt(xs[0]));
      StepInt(m, xs[0]);
      ExecCons(m, IntOp(xs[0]), IntOps(xs[1..]), m1);
      ExecInts(m1, xs[1..]);
      IntsCons(m.stack, xs);
    }
  }

  lemma IntsCons(s: seq<Entry>, xs: seq<int>)
    requires xs != []
    ensures s + [Item(DInt(xs[0]))] + Items(DInts(xs[1..])) == s + Items(DInts(xs))
  {
    assert [Item(DInt(xs[0]))] + Items(DInts(xs[1..])) == Items(DInts(xs));
  }

  /** `array.array('i', [...])`: the class, the type code string, the list of
      integers (filled by APPENDS), the argument pair, the call. */
  lemma ExecIntArray(m: Machine, xs: seq<int>)
    requires forall i | 0 <= i < |xs| :: -(TWO_31 as int) <= xs[i] < TWO_31
    ensures var n := |m.heap|;
      Exec(m, IntArrayOps(xs)) == Ok(Alloc(Machine(m.stack, m.memo,
        m.heap + [DStr("i"), DList(DInts(xs)), DTuple([DRef(n), DRef(n + 1)])]), DIntArray(xs)))
  {
    var head := [Global(ARRAY_MODULE, ARRAY_MODULE), ShortBinString(INT_TYPECODE), EmptyList, Mark];
    var tail := [Appends, Tuple2, Reduce];
    var m4 := ExecIntArrayHead(m);
    ExecInts(m4, xs);
    ExecIntArrayTail(m, xs, m4.(stack := m4.stack + Items(DInts(xs))));
    ExecConcat(m, head, IntOps(xs));
    ExecConcat(m, head + IntOps(xs), tail);
  }

  lemma ExecIntArrayHead(m: Machine) returns (m4: Machine)
    ensures var n := |m.heap|;
      && m4 == Machine(m.stack + [Item(DClass(ARRAY_MODULE, ARRAY_MODULE))] + [Item(DRef(n))] + [Item(DRef(n + 1))] + [Marker],
                       m.memo, m.heap + [DStr("i")] + [DList([])])
      && Exec(m, [Global(ARRAY_MODULE, ARRAY_MODULE), ShortBinString(INT_TYPECODE), EmptyList, Mark]) == Ok(m4)
  {
    assert Latin1Decode(INT_TYPECODE) == "i";
    var m1 := Push(m, DClass(ARRAY_MODULE, ARRAY_MODULE));
    var m2 := Alloc(m1, DStr("i"));
    var m3 := Alloc(m2, DList([]));
    m4 := m3.(stack := m3.stack + [Marker]);
    Run4(m, Global(ARRAY_MODULE, ARRAY_MODULE), m1, ShortBinString(INT_TYPECODE), m2, EmptyList, m3, Mark, m4);
  }

  lemma ExecIntArrayTail(m: Machine, xs: seq<int>, mi: Machine)
    requires forall i | 0 <= i < |xs| :: -(TWO_31 as int) <= xs[i] < TWO_31
    requires var n := |m.heap|;
      mi == Machine(m.stack + [Item(DClass(ARRAY_MODULE, ARRAY_MODULE))] + [Item(DRef(n))] + [Item(DRef(n + 1))] + [Marker]
                      + Items(DInts(xs)), m.memo, m.heap + [DStr("i")] + [DList([])])
    ensures var n := |m.heap|;
      Exec(mi, [Appends, Tuple2, Reduce]) == Ok(Alloc(Machine(m.stack, m.memo,
        m.heap + [DStr("i"), DList(DInts(xs)), DTuple([DRef(n), DRef(n + 1)])]), DIntArray(xs)))
  {
    var n := |m.heap|;
    var f := DClass(ARRAY_MODULE, ARRAY_MODULE);
    var p := m.stack + [Item(f)] + [Item(DRef(n))];
    StepAppendsItems(mi, p, n + 1, DInts(xs));
    var m1 := Machine(p + [Item(DRef(n + 1))], m.memo, mi.heap[n + 1 := DList(mi.heap[n + 1].items + DInts(xs))]);
    StepTuple2(m1, m.stack + [Item(f)], DRef(n), DRef(n + 1));
    var m2 := Alloc(m1.(stack := m.stack + [Item(f)]), DTuple([DRef(n), DRef(n + 1)]));
    HeapIntArray(m.heap, n, xs, m2.heap);
    StepReduceInts(m2, m.stack, n, xs);
    Run3(mi, Appends, m1, Tuple2, m2, Reduce, Alloc(m2.(stack := m.stack), DIntArray(xs)));
  }

  lemma HeapIntArray(h: seq<DObj>, n: nat, xs: seq<int>, h2: seq<DObj>)
    requires n == |h|
    requires h2 == (h + [DStr("i")] + [DList([])])[n + 1 := DList((h + [DStr("i")] + [DList([])])[n + 1].items + DInts(xs))]
                   + [DTuple([DRef(n), DRef(n + 1)])]
    ensures h2 == h + [DStr("i"), DList(DInts(xs)), DTuple([DRef(n), DRef(n + 1)])]
  {
    assert [] + DInts(xs) == DInts(xs);
  }

  lemma StepReduceInts(m: Machine, p: seq<Entry>, n: nat, xs: seq<int>)
    requires forall i | 0 <= i < |xs| :: -(TWO_31 as int) <= xs[i] < TWO_31
    requires m.stack == p + [Item(DClass(ARRAY_MODULE, ARRAY_MODULE))] + [Item(DRef(n + 2))]
    requires |m.heap| == n + 3 && m.heap[n] == DStr("i") && m.heap[n + 1] == DList(DInts(xs))
    requires m.heap[n + 2] == DTuple([DRef(n), DRef(n + 1)])
    ensures Step(m, Reduce) == Ok(Alloc(m.(stack := p), DIntArray(xs)))
  {
    Ints32DInts(xs);
    assert m.stack[..|m.stack| - 2] == p;
  }

  /** A list of 32-bit integer values reads back as its integers. */
  lemma {:induction false} Ints32DInts(xs: seq<int>)
    requires forall i | 0 <= i < |xs| :: -(TWO_31 as int) <= xs[i] < TWO_31
    ensures Ints32(DInts(xs)) == Some(xs)
    decreases |xs|
  {
    if xs != [] {
      assert DInts(xs)[1..] == DInts(xs[1..]);
      Ints32DInts(xs[1..]);
      assert [xs[0]] + xs[1..] == xs;
    }
  }

  lemma Append3<T>(h: seq<T>, a: T, b: T, c: T)
    ensures h + [a] + [b] + [c] == h + [a, b, c]
  {
  }

  /** `bytearray(text, 'latin-1')`: the class, the text, the encoding name, the
      argument pair, the call. */
  lemma ExecByteArray(m: Machine, d: seq<byte>)
    ensures var n := |m.heap|;
      Exec(m, ByteArrayOps(d)) == Ok(Alloc(Machine(m.stack, m.memo,
        m.heap + [DStr(Latin1Decode(d)), DStr(LATIN1), DTuple([DRef(n), DRef(n + 1)])]), DBytes(d)))
  {
    var n := |m.heap|;
    var t := Latin1Decode(d);
    var head := [Global(BUILTIN_MODULE, BYTEARRAY_NAME), BinUnicode(t), BinUnicode(LATIN1)];
    var m3 := Machine(m.stack + [Item(DClass(BUILTIN_MODULE, BYTEARRAY_NAME)), Item(DRef(n)), Item(DRef(n + 1))],
                      m.memo, m.heap + [DStr(t), DStr(LATIN1)]);
    var ops := head + [Tuple2, Reduce];
    assert ByteArrayOps(d) == ops;
    ExecByteArrayHead(m, t);
    ExecByteArrayTail(m, d);
    ExecThen(m, head, [Tuple2, Reduce], m3, Alloc(Machine(m.stack, m.memo,
      m.heap + [DStr(t), DStr(LATIN1), DTuple([DRef(n), DRef(n + 1)])]), DBytes(d)));
  }

  /** The argument pair, then the call. */
  lemma ExecByteArrayTail(m: Machine, d: seq<byte>)
    ensures var n := |m.heap|;
      Exec(Machine(m.stack + [Item(DClass(BUILTIN_MODULE, BYTEARRAY_NAME)), Item(DRef(n)), Item(DRef(n + 1))],
                   m.memo, m.heap + [DStr(Latin1Decode(d)), DStr(LATIN1)]), [Tuple2, Reduce])
      == Ok(Alloc(Machine(m.stack, m.memo,
                  m.heap + [DStr(Latin1Decode(d)), DStr(LATIN1), DTuple([DRef(n), DRef(n + 1)])]), DBytes(d)))
  {
    var n := |m.heap|;
    var t := Latin1Decode(d);
    var f := DClass(BUILTIN_MODULE, BYTEARRAY_NAME);
    var m3 := Machine(m.stack + [Item(f), Item(DRef(n)), Item(DRef(n + 1))], m.memo, m.heap + [DStr(t), DStr(LATIN1)]);
    var x := DTuple([DRef(n), DRef(n + 1)]);
    var m4 := Alloc(m3.(stack := m.stack + [Item(f)]), x);
    assert m3.stack == m.stack + [Item(f)] + [Item(DRef(n))] + [Item(DRef(n + 1))];
    StepTuple2(m3, m.stack + [Item(f)], DRef(n), DRef(n + 1));
    StepReduceBytes(m4, m.stack, n, d);
    assert m4.heap == m.heap + [DStr(t), DStr(LATIN1), x];
    assert m4.(stack := m.stack) == Machine(m.stack, m.memo, m.heap + [DStr(t), DStr(LATIN1), x]);
    Run2(m3, Tuple2, m4, Reduce, Alloc(m4.(stack := m.stack), DBytes(d)));
  }

  /** The class, the text and the encoding name: one push, two string cells. */
  lemma ExecByteArrayHead(m: Machine, t: string)
    ensures var n := |m.heap|;
      Exec(m, [Global(BUILTIN_MODULE, BYTEARRAY_NAME), BinUnicode(t), BinUnicode(LATIN1)])
      == Ok(Machine(m.stack + [Item(DClass(BUILTIN_MODULE, BYTEARRAY_NAME)), Item(DRef(n)), Item(DRef(n + 1))],
                    m.memo, m.heap + [DStr(t), DStr(LATIN1)]))
  {
    ExecGlobalTexts(m, BUILTIN_MODULE, BYTEARRAY_NAME, t, LATIN1);
  }

  lemma StepGlobal(m: Machine, home: seq<byte>, name: seq<byte>)
    ensures Step(m, Global(home, name)) == Ok(Push(m, DClass(home, name)))
  {
  }

  lemma StepMemoGet(m: Machine, n: nat)
    requires n in m.memo
    ensures Step(m, Get(n)) == Ok(Push(m, m.memo[n]))
  {
  }

  lemma StepText(m: Machine, t: string)
    ensures Step(m, BinUnicode(t)) == Ok(Alloc(m, DStr(t)))
  {
  }

  /** A GLOBAL then two texts, for any names and texts. */
  lemma ExecGlobalTexts(m: Machine, home: seq<byte>, name: seq<byte>, t: string, u: string)
    ensures var n := |m.heap|;
      Exec(m, [Global(home, name), BinUnicode(t), BinUnicode(u)])
      == Ok(Machine(m.stack + [Item(DClass(home, name)), Item(DRef(n)), Item(DRef(n + 1))],
                    m.memo, m.heap + [DStr(t), DStr(u)]))
  {
    var n := |m.heap|;
    var m1 := Push(m, DClass(home, name));
    var m2 := Alloc(m1, DStr(t));
    var m3 := Alloc(m2, DStr(u));
    StepGlobal(m, home, name);
    StepText(m1, t);
    StepText(m2, u);
    Run3(m, Global(home, name), m1, BinUnicode(t), m2, BinUnicode(u), m3);
    assert m3.stack == m.stack + [Item(DClass(home, name)), Item(DRef(n)), Item(DRef(n + 1))];
    assert m3.heap == m.heap + [DStr(t), DStr(u)];
  }

  lemma StepReduceBytes(m: Machine, p: seq<Entry>, n: nat, d: seq<byte>)
    requires m.stack == p + [Item(DClass(BUILTIN_MODULE, BYTEARRAY_NAME))] + [Item(DRef(n + 2))]
    requires |m.heap| == n + 3 && m.heap[n] == DStr(Latin1Decode(d)) && m.heap[n + 1] == DStr(LATIN1)
    requires m.heap[n + 2] == DTuple([DRef(n), DRef(n + 1)])
    ensures Step(m, Reduce) == Ok(Alloc(m.(stack := p), DBytes(d)))
  {
    Latin1RoundTrip(d);
    assert m.stack[..|m.stack| - 2] == p;
  }

  // ---------------------------------------------------------------------
  // Instances

  /** An instance built in one go (text, char[], int[], byte[], or an array's
      tuple once its elements are on the stack), then memoized: the run
      pushes one reference to a cell standing for it. `mid` is the machine
      just before the instance's cell is allocated. */
  lemma FinishAtomic(h: Heap, useMemo: bool, pending: set<Addr>, m: Machine, own: map<Addr, Ref>,
                     ops: seq<Op>, memo: map<Ref, nat>, next: nat, mid: Machine, own1: map<Addr, Ref>,
                     r: Ref, x: DObj)
    returns (m2: Machine, own2: map<Addr, Ref>)
    requires Sim(h, useMemo, memo, next, mid, own1, pending) && |h.Keys| < TWO_31
    requires r in h && !(useMemo && r in memo)
    requires Exec(m, ops) == Ok(Alloc(mid, x)) && Emittable(ops)
    requires mid.stack == m.stack && m.heap <= mid.heap && SubMap(own, own1)
    requires ObjCorr(mid.heap + [x], own1[|mid.heap| := r], h[r], x)
    ensures Ran(h, useMemo, pending, m, own, Memorize(useMemo, Enc(ops, memo, next), r), m2, own2, [DRef(|mid.heap|)])
    ensures ValCorr(m2.heap, own2, VRef(r), DRef(|mid.heap|))
  {
    m2, own2 := Register(h, useMemo, memo, next, mid, own1, pending, r, x, pending);
    var tail := Memorize(useMemo, Enc([], memo, next), r);
    ExecThen(m, ops, tail.ops, Alloc(mid, x), m2);
    MemorizeAfter(useMemo, ops, memo, next, r);
    ItemsOne(DRef(|mid.heap|));
    EmittableConcat(ops, tail.ops);
  }

  /** The same, for an instance whose instructions hold no other instance. */
  lemma SimAtomic(h: Heap, useMemo: bool, memo: map<Ref, nat>, next: nat, m: Machine, own: map<Addr, Ref>,
                  pending: set<Addr>, r: Ref, ops: seq<Op>, mid: Machine, x: DObj)
    returns (m2: Machine, own2: map<Addr, Ref>)
    requires Sim(h, useMemo, memo, next, m, own, pending) && |h.Keys| < TWO_31
    requires r in h && !(useMemo && r in memo)
    requires Exec(m, ops) == Ok(Alloc(mid, x)) && Emittable(ops)
    requires mid.stack == m.stack && mid.memo == m.memo && m.heap <= mid.heap
    requires ObjCorr(mid.heap + [x], own[|mid.heap| := r], h[r], x)
    ensures Ran(h, useMemo, pending, m, own, Memorize(useMemo, Enc(ops, memo, next), r), m2, own2, [DRef(|mid.heap|)])
    ensures ValCorr(m2.heap, own2, VRef(r), DRef(|mid.heap|))
  {
    InvGrow(h, m.heap, mid.heap, own, pending);
    m2, own2 := FinishAtomic(h, useMemo, pending, m, own, ops, memo, next, mid, own, r, x);
  }
}
