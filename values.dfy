/** The object graph the pickler is given. Values that .NET passes by value
    (null, bool, the integer types, char, enum members) are `Val`s; every
    instance with an identity (strings, arrays, collections, objects) lives in
    a `Heap` under a reference, so that two references to one instance and two
    equal but distinct instances can be told apart. */
module Values {
  import opened Wrappers
  import opened Bytes

  type Ref = nat

  datatype Val =
    | VNone
    | VBool(b: bool)
    | VInt(i: int)          // any integral type: byte, sbyte, short, ushort, int, uint, long, ulong
    | VChar(c: char)
    | VEnum(name: string)   // an enum member, by its symbolic name
    | VRef(ref: Ref)

  datatype Obj =
    | OStr(s: string)
    | OArray(items: seq<Val>)          // an element-type array: object[], string[], bool[]
    | OCharArray(chars: string)
    | OIntArray(ints: seq<int>)
    | OByteArray(data: seq<byte>)
    | OList(items: seq<Val>)           // ArrayList, List<T>
    | OStack(pushed: seq<Val>)         // Stack<T>, in the order of its Push calls
    | OQueue(enqueued: seq<Val>)       // Queue<T>, in the order of its Enqueue calls
    | ODict(entries: seq<(Val, Val)>)  // a keyed mapping, in its enumeration order
    | OObject(className: string, anonymous: bool, props: seq<(string, Val)>)
      // a generic object: its full type name, whether the type is anonymous,
      // and its public readable properties (public fields are not among them)

  type Heap = map<Ref, Obj>

  function Reverse<T>(s: seq<T>): (r: seq<T>)
    ensures |r| == |s|
    ensures forall i | 0 <= i < |s| :: r[i] == s[|s| - 1 - i]
  {
    if s == [] then [] else Reverse(s[1..]) + [s[0]]
  }

  predicate IsOrdered(o: Obj) {
    o.OList? || o.OStack? || o.OQueue?
  }

  /** The enumeration order of an ordered collection: a stack enumerates from
      its top, so its most recently pushed element comes first. */
  function Enumeration(o: Obj): seq<Val>
    requires IsOrdered(o)
  {
    match o
    case OList(items) => items
    case OStack(pushed) => Reverse(pushed)
    case OQueue(enqueued) => enqueued
  }

  predicate ValIn(h: Heap, v: Val) {
    v.VRef? ==> v.ref in h
  }

  predicate ItemsIn(h: Heap, items: seq<Val>) {
    forall i | 0 <= i < |items| :: ValIn(h, items[i])
  }

  predicate EntriesIn(h: Heap, entries: seq<(Val, Val)>) {
    forall i | 0 <= i < |entries| :: ValIn(h, entries[i].0) && ValIn(h, entries[i].1)
  }

  predicate PropsIn(h: Heap, props: seq<(string, Val)>) {
    forall i | 0 <= i < |props| :: ValIn(h, props[i].1)
  }

  /** Every reference held by `o` points into `h`. */
  predicate ObjIn(h: Heap, o: Obj) {
    match o
    case OArray(items) => ItemsIn(h, items)
    case OList(items) => ItemsIn(h, items)
    case OStack(items) => ItemsIn(h, items)
    case OQueue(items) => ItemsIn(h, items)
    case ODict(entries) => EntriesIn(h, entries)
    case OObject(_, _, props) => PropsIn(h, props)
    case _ => true
  }

  /** A heap is closed when no reference dangles, as in any .NET object graph. */
  predicate Closed(h: Heap) {
    forall r | r in h :: ObjIn(h, h[r])
  }

  lemma EnumerationIn(h: Heap, o: Obj)
    requires IsOrdered(o) && ObjIn(h, o)
    ensures ItemsIn(h, Enumeration(o))
  {
  }

  // ---------------------------------------------------------------------
  // Bounds that .NET itself imposes, needed to read a pickle back

  /** Text whose UTF-8 form fits a .NET byte array, so its 4-byte length field is exact. */
  predicate TextFits(s: string) {
    |Utf8(s)| < TWO_31
  }

  predicate ValFits(v: Val) {
    v.VEnum? ==> TextFits(v.name)
  }

  predicate ObjFits(o: Obj) {
    match o
    case OStr(s) => TextFits(s)
    case OCharArray(cs) => TextFits(cs)
    case OIntArray(xs) => forall i | 0 <= i < |xs| :: -(TWO_31 as int) <= xs[i] < TWO_31
    case OByteArray(d) => TextFits(Latin1Decode(d))
    case OArray(items) => forall i | 0 <= i < |items| :: ValFits(items[i])
    case OList(items) => forall i | 0 <= i < |items| :: ValFits(items[i])
    case OStack(items) => forall i | 0 <= i < |items| :: ValFits(items[i])
    case OQueue(items) => forall i | 0 <= i < |items| :: ValFits(items[i])
    case ODict(es) => forall i | 0 <= i < |es| :: ValFits(es[i].0) && ValFits(es[i].1)
    case OObject(cls, _, ps) =>
      TextFits(cls) && forall i | 0 <= i < |ps| :: TextFits(ps[i].0) && ValFits(ps[i].1)
  }

  /** The items of a collection in enumeration order fit as the collection does. */
  lemma EnumerationFits(o: Obj)
    requires IsOrdered(o) && ObjFits(o)
    ensures forall i | 0 <= i < |Enumeration(o)| :: ValFits(Enumeration(o)[i])
  {
  }

  /** A closed heap whose texts, int arrays and instance count are within the
      limits of .NET (arrays of at most 2^31 - 1 elements), and whose
      mappings keep their keys apart when read back. */
  predicate WellFormedHeap(h: Heap) {
    && Closed(h)
    && |h.Keys| < TWO_31
    && (forall r | r in h :: ObjFits(h[r]))
    && forall r | r in h :: KeysApart(h, h[r])
  }

  // ---------------------------------------------------------------------
  // Keys that stay apart when read back into a Hashtable

  /** The key a generic object's class name is stored under. */
  const CLASS_KEY: string := "__class__"

  /** The text a key reads back as: a char, an enum member's name, or the
      contents of a string or char[]. Other keys have none. */
  function KeyText(h: Heap, v: Val): (t: Option<string>)
    ensures t.Some? ==> v.VChar? || v.VEnum? || v.VRef?
  {
    match v
    case VChar(c) => Some([c])
    case VEnum(name) => Some(name)
    case VRef(r) =>
      if r in h && h[r].OStr? then Some(h[r].s)
      else if r in h && h[r].OCharArray? then Some(h[r].chars)
      else None
    case _ => None
  }

  /** Two keys that read back as one Hashtable key: equal values ((byte)1 and
      (int)1 are both the integer 1), one instance, or the same text. */
  predicate KeysCollide(h: Heap, u: Val, v: Val) {
    u == v || (KeyText(h, u).Some? && KeyText(h, u) == KeyText(h, v))
  }

  /** A dictionary's keys read back pairwise apart, and none is null (no .NET
      mapping holds a null key); a generic object's property names are
      pairwise distinct and, unless its type is anonymous, none is CLASS_KEY. */
  predicate KeysApart(h: Heap, o: Obj) {
    match o
    case ODict(es) =>
      && (forall i | 0 <= i < |es| :: es[i].0 != VNone)
      && forall i, j | 0 <= i < j < |es| :: !KeysCollide(h, es[i].0, es[j].0)
    case OObject(_, anonymous, ps) =>
      && (forall i, j | 0 <= i < j < |ps| :: ps[i].0 != ps[j].0)
      && (!anonymous ==> forall i | 0 <= i < |ps| :: ps[i].0 != CLASS_KEY)
    case _ => true
  }
}
