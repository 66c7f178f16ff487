/** What `dumps` followed by `loads` gives back: the whole pickle parses,
    runs on a fresh unpickler and leaves exactly the decoded root, in a heap
    where every instance the root reaches has a cell standing for it; with
    memoization on, each instance has exactly one such cell, so shared
    references and cycles survive. */
module Theorem {
  import opened Wrappers
  import opened Bytes
  import opened Opcodes
  import opened Values
  import opened Encoder
  import opened Decoder
  import opened RoundTrip
  import opened Simulation

  /** A whole pickle is PROTO 2, the value's bytes and STOP. */
  lemma FrameSerialize(body: seq<Op>)
    ensures Serialize(Frame(body)) == [PROTO, 2] + Serialize(body) + [STOP]
  {
    SerializeConcat([Proto(2)] + body, [Stop]);
    SerializeConcat([Proto(2)], body);
    assert Serialize([Proto(2)]) == [PROTO, 2] + Serialize([]);
    assert Serialize([Stop]) == [STOP] + Serialize([]);
  }

  /** The frame parses back to PROTO 2 and the body. */
  lemma ParseFrame(body: seq<Op>)
    requires Emittable(body)
    ensures Parse(Serialize(Frame(body))) == Ok([Proto(2)] + body)
  {
    var ops := [Proto(2)] + body;
    forall i | 0 <= i < |ops| ensures WellFormedOp(ops[i]) && ops[i] != Stop {
      if i > 0 {
        assert ops[i] == body[i - 1];
      }
    }
    ParseSerialize(ops, []);
    SerializeConcat(ops, [Stop]);
    assert Serialize([Stop]) == OpBytes(Stop) + Serialize([]);
    assert OpBytes(Stop) + [] == OpBytes(Stop);
  }

  /** `loads` of a framed body that leaves one value behind returns it. */
  lemma LoadsFrame(body: seq<Op>, m: Machine, d: DVal)
    requires Emittable(body) && Exec(Initial, body) == Ok(m) && m.stack == [Item(d)]
    ensures Loads(Serialize(Frame(body))) == Ok((m.heap, d))
  {
    ParseFrame(body);
    ExecCons(Initial, Proto(2), body, Initial);
  }

  /** The decoded heap stands for the input heap: each cell `own` knows is
      built and stands for its instance. */
  predicate Decoded(h: Heap, dh: seq<DObj>, own: map<Addr, Ref>) {
    forall a | a in own :: a < |dh| && own[a] in h && ObjCorr(dh, own, h[own[a]], dh[a])
  }

  /** No two decoded cells stand for the same instance. */
  predicate OneCellEach(own: map<Addr, Ref>) {
    forall a, b | a in own && b in own && own[a] == own[b] :: a == b
  }

  lemma SimDecoded(h: Heap, useMemo: bool, memo: map<Ref, nat>, next: nat, m: Machine, own: map<Addr, Ref>)
    requires Sim(h, useMemo, memo, next, m, own, {})
    ensures Decoded(h, m.heap, own)
    ensures useMemo ==> OneCellEach(own)
  {
    if useMemo {
      forall a, b | a in own && b in own && own[a] == own[b] ensures a == b {
        assert DRef(a) == m.memo[memo[own[a]]] == DRef(b);
      }
    }
  }

  /** The round trip: whenever `dumps` succeeds, `loads` of its bytes succeeds
      with a root standing for the input root, in a decoded heap standing for
      the input heap, one cell per instance when memoization is on. The heap
      is well formed: within the limits of .NET, and no two keys of one
      mapping read back as one key. */
  lemma PickleRoundTrip(h: Heap, useMemo: bool, root: Val) returns (dh: seq<DObj>, d: DVal, own: map<Addr, Ref>)
    requires WellFormedHeap(h) && ValIn(h, root) && ValFits(root)
    requires Pickled(h, useMemo, root).Ok?
    ensures Loads(Pickled(h, useMemo, root).value) == Ok((dh, d))
    ensures ValCorr(dh, own, root, d)
    ensures Decoded(h, dh, own)
    ensures useMemo ==> OneCellEach(own)
  {
    var e := SaveValue(h, useMemo, {}, map[], 0, root).value;
    assert Sim(h, useMemo, map[], 0, Initial, map[], {});
    var m2, own2, d2 := SimValue(h, useMemo, {}, map[], 0, root, Initial, map[], {});
    assert m2.stack == [Item(d2)];
    LoadsFrame(e.ops, m2, d2);
    SimDecoded(h, useMemo, e.memo, e.next, m2, own2);
    dh, d, own := m2.heap, d2, own2;
  }
}
