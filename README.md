# Pyrolite pickle protocol 2, modelled in Dafny

This project models the pickle codec of Pyrolite, the .NET client library of
Pyro. `Pickler.dumps` turns a .NET object graph into a Python pickle,
protocol 2, and `Unpickler.loads` reads one back. The unit tests in
`dotnet/Pyrolite.Tests/Pickle/PicklerTests.cs` pin the encoder's output byte
for byte. The model reproduces those bytes. It then proves that decoding what
the encoder writes rebuilds the input graph, with sharing and cycles intact
when memoization is on.

The modules follow the codec's structure:

- `Wrappers`: `Option` and `Result`.
- `Bytes`: little-endian integer layouts, decimal text, Latin-1 and UTF-8,
  each with its inverse.
- `Opcodes`: the protocol-2 opcodes the codec uses, the byte layout of each
  instruction (`OpBytes`, `Serialize`) and the parser that reads them back
  (`Parse`).
- `Values`: the input graph.
  - Values that .NET passes by value (null, bool, every integer type, char,
    enum members) are `Val`s.
  - Every instance with an identity (strings, arrays, lists, stacks, queues,
    dictionaries, generic objects) lives in a `Heap` under a reference.
    Two references to one instance and two equal but distinct instances are
    therefore different things.
- `Encoder`: the pickler.
  - First as functions (`SaveValue` and the functions it calls): the
    instruction stream, the memo table (instance to slot) and the next free
    slot.
  - Then as the `Pickler` class. Its methods append bytes to `out` and update
    `memo` and `next` in place. Each method is proved to reach exactly the
    state the matching function describes.
- `Decoder`: the unpickler, a stack machine with a value stack, a memo table
  (slot to value) and a heap of the cells it builds.
  - `Step` executes one instruction and `Exec` a sequence.
  - A dict is a Hashtable: SETITEMS assigns each pair as `table[key] = value`.
    A key the table already holds keeps its entry and takes the new value.
    Two keys are the same when they are equal values or strings with one
    text; other cells compare by address. A None key fails with `NullKey`.
  - `Loads` parses, executes, and requires STOP to leave exactly one value.
- `RoundTrip`, `Simulation`, `Theorem`: the round trip.
  - Each `Sim…` lemma runs the decoder over the instructions of the matching
    encoding function.
  - It relates the machine reached to the input through a correspondence
    `own` from decoded cells to input instances.
  - `Theorem.PickleRoundTrip` is the result for whole pickles.
- `Vectors`: the byte-exact expectations of `PicklerTests.cs`, each proved
  of the model.
- `Readback`: what those tests check after `loads`, derived from the round
  trip.

Two behaviours the tests fix, and the model follows:

- **Strings.** Every string, however short, is written as `X` (BINUNICODE)
  with a four-byte length (lines 59-66, 92).
- **Public fields.** A type whose only public member is a field cannot be
  pickled (lines 396-407). A generic object therefore carries only its
  public readable properties.

## Model

All source paths are in `dotnet/Pyrolite.Tests/Pickle/PicklerTests.cs`; the table gives them in full.

| member | source | states |
|---|---|---|
| Bytes.Unsigned2Inverse | dotnet/Pyrolite.Tests/Pickle/PicklerTests.cs:73-74 | reading the two little-endian bytes written for any value in [0, 0xFFFF] gives the value back (the `M` layout) |
| Bytes.Unsigned4Inverse | dotnet/Pyrolite.Tests/Pickle/PicklerTests.cs:77-78 | reading the four little-endian bytes written for any value in [0, 2^32) gives the value back |
| Bytes.Signed4Inverse | dotnet/Pyrolite.Tests/Pickle/PicklerTests.cs:69-78 | the four little-endian bytes of any signed 32-bit value, read as two's complement, give the value back (the `J` layout, negatives included) |
| Bytes.DecimalRoundTrip | dotnet/Pyrolite.Tests/Pickle/PicklerTests.cs:79-82 | the decimal text of any integer, sign included, parses back to that integer (the `I…\n` form) |
| Bytes.Latin1RoundTrip | dotnet/Pyrolite.Tests/Pickle/PicklerTests.cs:117-118 | the Latin-1 text a byte[] is written as encodes back to exactly those bytes |
| Bytes.Utf8RoundTrip | dotnet/Pyrolite.Tests/Pickle/PicklerTests.cs:63-66 | strict UTF-8 decoding of the UTF-8 form of any string gives the string back |
| Bytes.Utf8Concat | dotnet/Pyrolite.Tests/Pickle/PicklerTests.cs:65-66 | the UTF-8 form of a concatenation is the concatenation of the UTF-8 forms |
| Opcodes.ParseSerialize | dotnet/Pyrolite.Tests/Pickle/PicklerTests.cs:57-82 | parsing the bytes of any well-formed STOP-free instruction sequence, followed by STOP, gives exactly that sequence back; trailing bytes after STOP are ignored |
| Encoder.IntOp | dotnet/Pyrolite.Tests/Pickle/PicklerTests.cs:67-82 | the integer width rule, each case as an if-and-only-if on the value: `K` exactly for [0, 256), `M` exactly for [256, 2^16), `J` exactly for the rest of the signed 32-bit range, `I` decimal text exactly outside it; the argument is the value itself |
| Encoder.Memorize | dotnet/Pyrolite.Tests/Pickle/PicklerTests.cs:268-285 | with memoization on, the instance gets slot `next`, a PUT of that slot is appended and `next` grows by one; with it off nothing changes |
| Encoder.ValueGrows | dotnet/Pyrolite.Tests/Pickle/PicklerTests.cs:268-285 | encoding a value only extends the memo table: existing slots are kept, and new entries are instances off the current path with slots in [next, new next); with memoization off the table and counter are untouched |
| Encoder.ObjectGrows | dotnet/Pyrolite.Tests/Pickle/PicklerTests.cs:268-285 | the same for an instance without a slot, whatever its type |
| Encoder.ArrayGrows | dotnet/Pyrolite.Tests/Pickle/PicklerTests.cs:100-109 | the same for an element-type array |
| Encoder.DictGrows | dotnet/Pyrolite.Tests/Pickle/PicklerTests.cs:346-350 | the same for a dictionary |
| Encoder.InstanceGrows | dotnet/Pyrolite.Tests/Pickle/PicklerTests.cs:379-394 | the same for a generic object |
| Encoder.CollectionGrows | dotnet/Pyrolite.Tests/Pickle/PicklerTests.cs:238-264 | the same for a list, stack or queue |
| Encoder.ItemsGrows | dotnet/Pyrolite.Tests/Pickle/PicklerTests.cs:280-285 | the same for a run of items |
| Encoder.EntryGrows | dotnet/Pyrolite.Tests/Pickle/PicklerTests.cs:346-350 | the same for one key/value pair |
| Encoder.EntriesGrows | dotnet/Pyrolite.Tests/Pickle/PicklerTests.cs:346-350 | the same for a run of key/value pairs |
| Encoder.PropsGrows | dotnet/Pyrolite.Tests/Pickle/PicklerTests.cs:379-394 | the same for the properties of a generic object |
| Encoder.Pickler.constructor | dotnet/Pyrolite.Tests/Pickle/PicklerTests.cs:56 | a new pickler has the given memoization flag, an empty output, an empty memo table and slot counter 0 |
| Encoder.Pickler.Emit | dotnet/Pyrolite.Tests/Pickle/PicklerTests.cs:57-92 | appends the bytes of one instruction to the output; the memo table is unchanged |
| Encoder.Pickler.EmitAll | dotnet/Pyrolite.Tests/Pickle/PicklerTests.cs:100-109 | appends the bytes of a run of instructions in order; the memo table is unchanged |
| Encoder.Pickler.WriteMemo | dotnet/Pyrolite.Tests/Pickle/PicklerTests.cs:285 | the state after the PUT is the one `Memorize` describes |
| Encoder.Pickler.Dumps | dotnet/Pyrolite.Tests/Pickle/PicklerTests.cs:57-58 | returns exactly `Pickled`: PROTO 2, the value's instructions, STOP, or the encoding failure; memo state is reset per call |
| Encoder.Pickler.Save | dotnet/Pyrolite.Tests/Pickle/PicklerTests.cs:268-303 | output, memo table and counter after saving a value are those of `SaveValue`: a memo hit is a GET; an instance already on the path fails as a recursive array or as unbounded recursion |
| Encoder.Pickler.Dispatch | dotnet/Pyrolite.Tests/Pickle/PicklerTests.cs:95-125 | an instance is written by the strategy of its type, with the state `SaveObject` describes |
| Encoder.Pickler.WriteAtomic | dotnet/Pyrolite.Tests/Pickle/PicklerTests.cs:111-121 | a string, char[], int[] or byte[] is its instructions followed by its PUT |
| Encoder.Pickler.WriteArray | dotnet/Pyrolite.Tests/Pickle/PicklerTests.cs:100-145 | an array is a tuple of its elements (EMPTY_TUPLE, TUPLE1-3, or MARK…TUPLE by length), memoized after it is built; one of one to three elements that holds itself fails first |
| Encoder.Pickler.WriteDict | dotnet/Pyrolite.Tests/Pickle/PicklerTests.cs:346-350 | a dictionary is EMPTY_DICT, its PUT, MARK, the entries key first, SETITEMS |
| Encoder.Pickler.WriteObject | dotnet/Pyrolite.Tests/Pickle/PicklerTests.cs:379-407 | a generic object is a dictionary of its properties, then `__class__` and its class name unless it is anonymous; none fails with no public members |
| Encoder.Pickler.WriteCollection | dotnet/Pyrolite.Tests/Pickle/PicklerTests.cs:238-264 | a list, stack or queue is EMPTY_LIST, its PUT, MARK, the items in enumeration order, APPENDS |
| Encoder.Pickler.WriteShell | dotnet/Pyrolite.Tests/Pickle/PicklerTests.cs:285 | the empty container, its PUT, then MARK: the slot is taken before the contents |
| Encoder.Pickler.WriteItems | dotnet/Pyrolite.Tests/Pickle/PicklerTests.cs:280-285 | items are written in order, the memo table threaded through; the first failure stops the run |
| Encoder.Pickler.WriteEntry | dotnet/Pyrolite.Tests/Pickle/PicklerTests.cs:348-350 | a key/value pair is its key then its value |
| Encoder.Pickler.WriteEntries | dotnet/Pyrolite.Tests/Pickle/PicklerTests.cs:346-350 | pairs are written in enumeration order, the memo table threaded through |
| Encoder.Pickler.WriteProp | dotnet/Pyrolite.Tests/Pickle/PicklerTests.cs:379-394 | one property is its name as text, then its value, reaching the state and memo table SaveValue describes |
| Encoder.Pickler.WriteProps | dotnet/Pyrolite.Tests/Pickle/PicklerTests.cs:379-394 | each property is its name as text, then its value |
| Encoder.Pickle | dotnet/Pyrolite.Tests/Pickle/PicklerTests.cs:56-58 | a fresh pickler's `dumps` returns `Pickled` |
| Decoder.LastMark | dotnet/Pyrolite.Tests/Pickle/PicklerTests.cs:285 | the position of the topmost mark, with only items above it; none means there is no mark |
| Decoder.MarkBelow | dotnet/Pyrolite.Tests/Pickle/PicklerTests.cs:285 | the topmost mark among the first n entries, with only items between it and n |
| Decoder.Pairs | dotnet/Pyrolite.Tests/Pickle/PicklerTests.cs:350 | SETITEMS' pairing: a result has half as many pairs as items; an odd run fails |
| Decoder.FindKey | dotnet/Pyrolite.Tests/Pickle/PicklerTests.cs:386-393 | the first entry whose key is the same key as the one looked up; none exactly when no entry's key is |
| Decoder.Assign | dotnet/Pyrolite.Tests/Pickle/PicklerTests.cs:201-229 | `table[key] = value`: the entry with the same key keeps its key and takes the value; no entry with another key changes; a new key is added at the end; afterwards the key finds the value |
| Decoder.AssignAll | dotnet/Pyrolite.Tests/Pickle/PicklerTests.cs:201-229 | the pairs of one SETITEMS assigned in order; it fails exactly when some key is None |
| Decoder.AssignAllDistinct | dotnet/Pyrolite.Tests/Pickle/PicklerTests.cs:201-229 | when no key is None and no two keys are the same, among the new pairs and the entries already there, assigning the pairs appends them in order |
| Decoder.LaterValueWins | dotnet/Pyrolite.Tests/Pickle/PicklerTests.cs:201-229 | two pairs with the same key leave one entry holding the later value, so `(byte)1` and `(int)1` as keys, both written as `K\x01`, read back as one key |
| Decoder.ItemValues | dotnet/Pyrolite.Tests/Pickle/PicklerTests.cs:285 | the values of a run of stack items, position by position |
| Decoder.Alloc | dotnet/Pyrolite.Tests/Pickle/PicklerTests.cs:299-302 | a new cell is added at the end of the heap and a reference to it is pushed |
| Decoder.IntFromDecimal | dotnet/Pyrolite.Tests/Pickle/PicklerTests.cs:79-82 | the decimal line written for an integer outside 32 bits reads back as that integer, never as a boolean |
| Decoder.ExecConcat | dotnet/Pyrolite.Tests/Pickle/PicklerTests.cs:287-288 | running two instruction sequences one after the other is running their concatenation |
| RoundTrip.LastMarkItems | dotnet/Pyrolite.Tests/Pickle/PicklerTests.cs:285 | the topmost mark is the one below a run of pushed items |
| RoundTrip.PairsFlatten | dotnet/Pyrolite.Tests/Pickle/PicklerTests.cs:350 | SETITEMS pairs up exactly the key/value pairs the encoder wrote one after another |
| RoundTrip.StepTupleItems | dotnet/Pyrolite.Tests/Pickle/PicklerTests.cs:108-109 | TUPLE builds a tuple of exactly the items above the mark and pops them with the mark |
| RoundTrip.StepPopTuple | dotnet/Pyrolite.Tests/Pickle/PicklerTests.cs:102-107 | TUPLE1-3 build a tuple of exactly the top items |
| RoundTrip.StepAppendsItems | dotnet/Pyrolite.Tests/Pickle/PicklerTests.cs:285 | APPENDS extends the list below the mark by the items above it, in order |
| RoundTrip.StepSetItemsPairs | dotnet/Pyrolite.Tests/Pickle/PicklerTests.cs:350 | SETITEMS assigns the pairs above the mark into the dict below it, in order, and fails with NullKey at a None key; when the keys are distinct it adds them at the end, in order |
| RoundTrip.KeyTextCorr | dotnet/Pyrolite.Tests/Pickle/PicklerTests.cs:386-393 | a decoded key is a string exactly when its input key reads back as text (a char, an enum member's name, a string's or char[]'s contents), and then it holds that text |
| RoundTrip.KeysApartCorr | dotnet/Pyrolite.Tests/Pickle/PicklerTests.cs:201-229 | two input keys that do not collide read back as two keys the Hashtable keeps apart |
| RoundTrip.EntriesKeysDistinct | dotnet/Pyrolite.Tests/Pickle/PicklerTests.cs:201-229 | a dictionary whose keys do not collide and are not null reads back with distinct keys, none of them None |
| RoundTrip.TextKeysDistinct | dotnet/Pyrolite.Tests/Pickle/PicklerTests.cs:386-393 | string keys with pairwise different texts are distinct keys |
| Simulation.InstanceKeysDistinct | dotnet/Pyrolite.Tests/Pickle/PicklerTests.cs:386-393 | a generic object's entry keys, its property names and `__class__` unless the type is anonymous, are distinct keys, so each property keeps its own entry |
| RoundTrip.ExecIntArray | dotnet/Pyrolite.Tests/Pickle/PicklerTests.cs:120-121 | the `array.array('i', [...])` call the encoder writes for an int[] rebuilds the same int[] |
| RoundTrip.Ints32DInts | dotnet/Pyrolite.Tests/Pickle/PicklerTests.cs:393 | a list of 32-bit integer values reads back as its integers |
| RoundTrip.ExecByteArray | dotnet/Pyrolite.Tests/Pickle/PicklerTests.cs:117-118 | the `bytearray(text, 'latin-1')` call the encoder writes for a byte[] rebuilds the same bytes |
| RoundTrip.Register | dotnet/Pyrolite.Tests/Pickle/PicklerTests.cs:268-285 | a freshly built cell followed by the encoder's PUT: the slot holds a reference to the cell, and the encoder's and decoder's memo tables still agree |
| RoundTrip.SlotsFit | dotnet/Pyrolite.Tests/Pickle/PicklerTests.cs:268-285 | the slots handed out number fewer than 2^31, so every PUT and GET has a four-byte form |
| Simulation.SimValue | dotnet/Pyrolite.Tests/Pickle/PicklerTests.cs:284-302 | whenever a value encodes, the decoder runs its instructions, pushes one value standing for it and keeps the correspondence between input instances and decoded cells |
| Simulation.RanMemoGet | dotnet/Pyrolite.Tests/Pickle/PicklerTests.cs:299-302 | a GET pushes the very reference the instance's first occurrence built |
| Simulation.SimObject | dotnet/Pyrolite.Tests/Pickle/PicklerTests.cs:95-125 | the same for an instance without a slot, whatever its type |
| Simulation.SimText | dotnet/Pyrolite.Tests/Pickle/PicklerTests.cs:63-66 | a string or char[] reads back as a string cell holding the same text |
| Simulation.SimIntArray | dotnet/Pyrolite.Tests/Pickle/PicklerTests.cs:120-121 | an int[] reads back as the same int[] |
| Simulation.SimByteArray | dotnet/Pyrolite.Tests/Pickle/PicklerTests.cs:117-118 | a byte[] reads back as the same bytes |
| Simulation.SimArray | dotnet/Pyrolite.Tests/Pickle/PicklerTests.cs:100-115 | an array reads back as a tuple whose elements stand for its elements |
| Simulation.SimCollection | dotnet/Pyrolite.Tests/Pickle/PicklerTests.cs:335-344 | a list, stack or queue reads back as a list of its items in enumeration order, even when it holds itself |
| Simulation.SimDict | dotnet/Pyrolite.Tests/Pickle/PicklerTests.cs:346-353 | a dictionary whose keys stay apart reads back as a dict with its entries in order, even when it holds itself |
| Simulation.SimInstance | dotnet/Pyrolite.Tests/Pickle/PicklerTests.cs:379-394 | a generic object reads back as a dict of its properties plus `__class__` unless anonymous |
| Simulation.OpenShell | dotnet/Pyrolite.Tests/Pickle/PicklerTests.cs:333 | an empty container, its PUT and MARK: the new cell stands for the instance and is pending until its contents arrive |
| Simulation.SimItems | dotnet/Pyrolite.Tests/Pickle/PicklerTests.cs:280-285 | a run of items pushes one value per item, each standing for its item |
| Simulation.SimEntries | dotnet/Pyrolite.Tests/Pickle/PicklerTests.cs:346-350 | a run of pairs pushes key and value of each pair, each standing for its input |
| Simulation.SimProps | dotnet/Pyrolite.Tests/Pickle/PicklerTests.cs:386-393 | a run of properties pushes a name string and a value per property |
| Theorem.FrameSerialize | dotnet/Pyrolite.Tests/Pickle/PicklerTests.cs:35-42 | a pickle's bytes are PROTO 2, the body's bytes, STOP |
| Theorem.ParseFrame | dotnet/Pyrolite.Tests/Pickle/PicklerTests.cs:35-42 | the framed bytes parse back to PROTO 2 and the body |
| Theorem.LoadsFrame | dotnet/Pyrolite.Tests/Pickle/PicklerTests.cs:287-288 | `loads` of a framed body that leaves one value returns that value and its heap |
| Theorem.SimDecoded | dotnet/Pyrolite.Tests/Pickle/PicklerTests.cs:299-302 | at the end every decoded cell stands for its instance; with memoization on, no two cells stand for one instance |
| Theorem.PickleRoundTrip | dotnet/Pyrolite.Tests/Pickle/PicklerTests.cs:284-302 | whenever `dumps` succeeds, `loads` of its bytes succeeds; the root stands for the input root and the heap for the input heap, with one cell per instance when memoization is on |
| Vectors.Expected | dotnet/Pyrolite.Tests/Pickle/PicklerTests.cs:35-42 | the tests' `B`: a fresh array three longer than the body, PROTO 2 in front, STOP at the end, the body in between |
| Vectors.PickledIs | dotnet/Pyrolite.Tests/Pickle/PicklerTests.cs:31-42 | a pickle is the `B` frame around its instruction bytes |
| Vectors.NoneVector | dotnet/Pyrolite.Tests/Pickle/PicklerTests.cs:57-58 | null is `N` |
| Vectors.CharVector | dotnet/Pyrolite.Tests/Pickle/PicklerTests.cs:59-60 | '@' is `X`, length 1, `@` |
| Vectors.TrueVector | dotnet/Pyrolite.Tests/Pickle/PicklerTests.cs:61-62 | true is 0x88 |
| Vectors.HelloVector | dotnet/Pyrolite.Tests/Pickle/PicklerTests.cs:63-64 | "hello" is `X`, length 5, the text |
| Vectors.EuroUtf8 | dotnet/Pyrolite.Tests/Pickle/PicklerTests.cs:65-66 | U+20AC is E2 82 AC in UTF-8 |
| Vectors.HelloEuroUtf8 | dotnet/Pyrolite.Tests/Pickle/PicklerTests.cs:65-66 | "hello€" is eight UTF-8 bytes |
| Vectors.HelloEuroVector | dotnet/Pyrolite.Tests/Pickle/PicklerTests.cs:65-66 | "hello€" is `X` with length 8, not 6, then its UTF-8 bytes |
| Vectors.ByteVector | dotnet/Pyrolite.Tests/Pickle/PicklerTests.cs:67-68 | (byte)'@' is `K@` |
| Vectors.SbyteVector | dotnet/Pyrolite.Tests/Pickle/PicklerTests.cs:69-70 | (sbyte)-40 is `J` D8 FF FF FF |
| Vectors.ShortVector | dotnet/Pyrolite.Tests/Pickle/PicklerTests.cs:71-72 | (short)-0x1234 is `J` CC ED FF FF |
| Vectors.UshortVector | dotnet/Pyrolite.Tests/Pickle/PicklerTests.cs:73-74 | (ushort)0xF234 is `M` 34 F2 |
| Vectors.IntVector | dotnet/Pyrolite.Tests/Pickle/PicklerTests.cs:75-76 | -0x12345678 is `J` 88 A9 CB ED |
| Vectors.UintVector | dotnet/Pyrolite.Tests/Pickle/PicklerTests.cs:77-78 | 0x12345678 is `J` 78 56 34 12 |
| Vectors.LargeUintVector | dotnet/Pyrolite.Tests/Pickle/PicklerTests.cs:79-80 | 0xF2345678 is `I4063516280\n` |
| Vectors.LongVector | dotnet/Pyrolite.Tests/Pickle/PicklerTests.cs:81-82 | 0x12345678ABCDEF is `I5124095577148911\n` |
| Vectors.EnumVector | dotnet/Pyrolite.Tests/Pickle/PicklerTests.cs:90-92 | an enum member is `X` and its symbolic name, WEDNESDAY |
| Vectors.Array0Vector | dotnet/Pyrolite.Tests/Pickle/PicklerTests.cs:100-101 | an empty string[] is `)` |
| Vectors.Array1Vector | dotnet/Pyrolite.Tests/Pickle/PicklerTests.cs:102-103 | one string then 0x85 |
| Vectors.Array2Vector | dotnet/Pyrolite.Tests/Pickle/PicklerTests.cs:104-105 | two strings then 0x86 |
| Vectors.Array3Vector | dotnet/Pyrolite.Tests/Pickle/PicklerTests.cs:106-107 | three strings then 0x87 |
| Vectors.Array4Vector | dotnet/Pyrolite.Tests/Pickle/PicklerTests.cs:108-109 | four strings between `(` and `t` |
| Vectors.CharArrayVector | dotnet/Pyrolite.Tests/Pickle/PicklerTests.cs:111-112 | a char[] is one string `ABC` |
| Vectors.BoolArrayVector | dotnet/Pyrolite.Tests/Pickle/PicklerTests.cs:114-115 | a bool[] of three is 0x88 0x89 0x88 0x87 |
| Vectors.ByteArrayVector | dotnet/Pyrolite.Tests/Pickle/PicklerTests.cs:117-118 | a byte[] is `c__builtin__\nbytearray\n`, its bytes as text, `latin-1`, 0x86, `R` |
| Vectors.IntArrayVector | dotnet/Pyrolite.Tests/Pickle/PicklerTests.cs:120-121 | an int[] is `carray\narray\n`, `U\x01i`, `](`, the ints, `e`, 0x86, `R` |
| Vectors.RecursiveArray2 | dotnet/Pyrolite.Tests/Pickle/PicklerTests.cs:127-135 | an array of two holding itself fails with "recursive array not supported, use list" |
| Vectors.RecursiveArray6 | dotnet/Pyrolite.Tests/Pickle/PicklerTests.cs:137-145 | an array of six holding itself last fails the same way |
| Vectors.ListVector | dotnet/Pyrolite.Tests/Pickle/PicklerTests.cs:238-250 | an ArrayList or List of 1, "abc", null is `](K\x01X…abcNe` |
| Vectors.StackVector | dotnet/Pyrolite.Tests/Pickle/PicklerTests.cs:252-257 | a stack after pushing 1, 2, 3 is written 3, 2, 1 |
| Vectors.QueueVector | dotnet/Pyrolite.Tests/Pickle/PicklerTests.cs:259-264 | a queue after enqueueing 1, 2, 3 is written 1, 2, 3 |
| Vectors.MemoListVector | dotnet/Pyrolite.Tests/Pickle/PicklerTests.cs:268-285 | the testMemoization bytes: `q0` after the list shell, "reused" once with `q1`, then `h1`, "another" with `q2`, the sublist with `q3` and GETs |
| Vectors.SelfListNoMemo | dotnet/Pyrolite.Tests/Pickle/PicklerTests.cs:305-318 | without memoization, the list that holds itself cannot be pickled |
| Vectors.SelfListVector | dotnet/Pyrolite.Tests/Pickle/PicklerTests.cs:320-333 | the self-holding list is `]q\x00(`, "reused" `q\x01`, `h\x01`, `h\x00`, `e` |
| Vectors.SelfDictVector | dotnet/Pyrolite.Tests/Pickle/PicklerTests.cs:346-350 | the self-holding hashtable is `}q\x00(`, "myself" `q\x01`, `h\x00`, `u` |
| Vectors.NoPropertiesFails | dotnet/Pyrolite.Tests/Pickle/PicklerTests.cs:396-407 | an object with a public field and no property fails with no public members |
| Readback.ReadBack | dotnet/Pyrolite.Tests/Pickle/PicklerTests.cs:287-288 | `loads` of a known pickle gives a value standing for the input root |
| Readback.CellOf | dotnet/Pyrolite.Tests/Pickle/PicklerTests.cs:290-296 | the cell a decoded reference points at stands for the referenced instance |
| Readback.SameCell | dotnet/Pyrolite.Tests/Pickle/PicklerTests.cs:299-302 | with one cell per instance, two decoded references to one instance are identical |
| Readback.MemoListLoads | dotnet/Pyrolite.Tests/Pickle/PicklerTests.cs:287-302 | four items; the first two are one and the same "reused"; the third is "another"; the sublist holds those same references |
| Readback.SelfListLoads | dotnet/Pyrolite.Tests/Pickle/PicklerTests.cs:335-344 | three items; the first two are the same "reused"; the third is the list itself |
| Readback.SelfDictLoads | dotnet/Pyrolite.Tests/Pickle/PicklerTests.cs:351-353 | one entry, keyed "myself", whose value is the hashtable itself |
| Readback.ClassLoads | dotnet/Pyrolite.Tests/Pickle/PicklerTests.cs:379-394 | a Relative reads back as five entries: Name "Tupac", Deceased true, Values the int[] 3, 4, 5, Relation "unspecified", and `__class__` its type name |
| Readback.AnonLoads | dotnet/Pyrolite.Tests/Pickle/PicklerTests.cs:433-445 | an anonymous object reads back as three entries, Age 34, and no `__class__` key |

## Left out

- **Floating point.** Floats, doubles and double[] (`G` and an 8-byte IEEE double, lines 83-86 and 123-124) are bit-level floating point.
- **Runtime-type encodings.** decimal, DateTime, TimeSpan and HashSet (lines 87-88, 148-199) depend on .NET runtime types and their text formatting.
- **Reconstruction of those types.** The decoder does not rebuild dates, decimals or sets. REDUCE of an unknown class fails with `BadReduce` instead of producing a tagged mapping.
- **Hash-map order.** A dictionary is modelled by its entries in enumeration order, taken as given. Hashtable and Dictionary order is not fixed, and lines 202-230 check those maps only after a round trip.
- **Custom pickler registry.** The process-wide registry (lines 409-430) is static mutable state plus a callback into user code.
- **Stack overflow.** With memoization off, a cyclic graph overflows the .NET stack (lines 305-318). The model reports `UnboundedRecursion` instead.
- **Reflection.**
  - A generic object is its class name, an anonymous flag and its public readable properties, in the order the model lists them.
  - The order .NET reflection returns them in is not modelled.
  - Lines 386-393 look entries up by key, so they do not pin the order.
- **Collection types.** `List<object>` is modelled as the same value as `ArrayList`, because both encode identically (lines 238-250).
- **Decoder scope.**
  - The decoder reads the opcodes this encoder writes. Any other opcode byte is `UnknownOpcode`.
  - Its UTF-8 decoding is strict: malformed input is a parse error rather than U+FFFD.
  - Its values are heap cells and scalars, not .NET objects.
  - Its dict keys compare as Hashtable keys do for the values it builds: integers and booleans by value, strings by text, other cells by address. It does not tell an `int` key from a `long` key of the same value; this encoder never writes two such keys, since it writes a given integer value in one form only.
- **Test helpers.** `PickleUtils.str2bytes`, `rawStringFromBytes` and the test's `S` helper are not part of this model. The expected bytes are written out as byte sequences.
- **Proxy.** `PyroProxy.cs` (network, locking, compression) is not part of this model.
- Encoder.SaveInstance, Encoder.SaveProps, Encoder.SaveObject: the slot layout of memoised generic objects, int[] and byte[] beyond the vectors of lines 268-285 is a decision of the model, not fixed by the tests. Property names, `__class__` and the class name are written with no PUT. The inner list of an int[] and the text and `latin-1` arguments of a byte[] take no slot. A generic object takes its slot at its dict shell, under its own identity.
- Bytes.Utf8, Simulation.SimText: text is modelled as a sequence of Unicode scalar values. .NET strings are UTF-16 code units, and a lone surrogate, which .NET writes as EF BF BD, is not covered.
- Simulation.SimDict, RoundTrip.StepSetItemsPairs, Theorem.PickleRoundTrip: the round trip is stated for dictionaries whose keys read back apart. Keys that read back as one Hashtable key collapse into one entry holding the later value (Decoder.LaterValueWins). Examples are `(byte)1` and `(int)1`, both written as `K\x01`, or two distinct strings with the same text. Such a dictionary does not come back entry for entry. No key may be null, as no .NET mapping holds a null key.
- Simulation.SimInstance: stated for generic objects whose readable property names are pairwise distinct and, unless the type is anonymous, differ from `__class__`. A property hidden with `new`, or one named `__class__`, would share an entry with another key.
- Theorem.PickleRoundTrip: stated for heaps within .NET's own limits. These are texts under 2^31 UTF-8 bytes, fewer than 2^31 instances and int[] elements of 32 bits, the bounds under which the four-byte length and slot fields are exact.
