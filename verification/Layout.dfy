/** The arena the native encoder writes, and the proof that decoding it gives back what was written.
    Records and arrays start at multiples of eight, runs of bytes where the arena ends; whatever a record
    points at follows it, field by field. */
module Layout {
  import opened Wrappers
  import opened Wire
  import opened Records

  /** What a record is made of.  A part fills some bytes in place, its slots, and may put more bytes at the
      end of the arena, its heap: the run of bytes it names, the record it points at, the array it counts. */
  datatype Part =
    | Bytes(bytes: seq<byte>)
    | Text(text: seq<byte>)
    | Node(block: Part)
    | Table(count: nat, block: Part)
    | Then(first: Part, rest: Part)

  function Pad(at: nat): nat { (8 - at % 8) % 8 }

  function Aligned(at: nat): nat { at + Pad(at) }

  /** The next multiple of eight, and not one further. */
  lemma NextMultiple(at: nat)
    ensures Aligned(at) % 8 == 0 && at <= Aligned(at) < at + 8
  {}

  function Zeros(n: nat): seq<byte> { seq(n, i => 0) }

  function Slot(offset: nat, n: nat): seq<byte> { ToLE(offset, 8) + ToLE(n, 8) }

  function Width(p: Part): nat {
    match p
    case Bytes(bytes) => |bytes|
    case Text(_) => 16
    case Node(_) => 8
    case Table(_, _) => 16
    case Then(first, rest) => Width(first) + Width(rest)
  }

  /** The slots of p when its heap starts at `at`. */
  function Slots(p: Part, at: nat): seq<byte> {
    match p
    case Bytes(bytes) => bytes
    case Text(text) => Slot(at, |text|)
    case Node(_) => ToLE(Aligned(at), 8)
    case Table(count, _) => Slot(Aligned(at), count)
    case Then(first, rest) => Slots(first, at) + Slots(rest, at + |Heap(first, at)|)
  }

  function Heap(p: Part, at: nat): seq<byte> {
    match p
    case Bytes(_) => []
    case Text(text) => text
    case Node(block) =>
      Zeros(Pad(at)) + (Slots(block, Aligned(at) + Width(block)) + Heap(block, Aligned(at) + Width(block)))
    case Table(_, block) =>
      Zeros(Pad(at)) + (Slots(block, Aligned(at) + Width(block)) + Heap(block, Aligned(at) + Width(block)))
    case Then(first, rest) => Heap(first, at) + Heap(rest, at + |Heap(first, at)|)
  }

  function Join<T>(xs: seq<T>, part: T -> Part): Part {
    if xs == [] then Bytes([]) else Then(part(xs[0]), Join(xs[1..], part))
  }

  // ----- bytes in place -----

  predicate Holds(b: seq<byte>, at: nat, x: seq<byte>) { at + |x| <= |b| && b[at..at + |x|] == x }

  /** b holds p: its slots at s and its heap at `at`, whatever stands around them. */
  predicate Held(b: seq<byte>, s: nat, at: nat, p: Part) { Holds(b, s, Slots(p, at)) && Holds(b, at, Heap(p, at)) }

  lemma HoldsBoth(b: seq<byte>, at: nat, x: seq<byte>, y: seq<byte>)
    requires Holds(b, at, x + y)
    ensures Holds(b, at, x) && Holds(b, at + |x|, y)
  {
    assert b[at..at + |x + y|][..|x|] == x && b[at..at + |x + y|][|x|..] == y;
  }

  lemma WordHeld(b: seq<byte>, at: nat, v: nat, width: nat)
    requires Holds(b, at, ToLE(v, width)) && v < Pow256(width)
    ensures Word(b, at, width) == v
  {
    WordRoundTrip(v, width);
  }

  lemma SlotHeld(b: seq<byte>, at: nat, offset: nat, n: nat)
    requires Holds(b, at, Slot(offset, n)) && offset <= MAX_INT && n <= MAX_INT
    ensures at + 16 <= |b| && Word(b, at, 8) == offset && Word(b, at + 8, 8) == n
  {
    Widths();
    HoldsBoth(b, at, ToLE(offset, 8), ToLE(n, 8));
    WordHeld(b, at, offset, 8);
    WordHeld(b, at + 8, n, 8);
  }

  lemma {:induction false} ZerosAreZero(n: nat)
    ensures FromLE(Zeros(n)) == 0
  {
    if n > 0 {
      assert Zeros(n)[1..] == Zeros(n - 1);
      ZerosAreZero(n - 1);
    }
  }

  lemma OffsetHeld(b: Buffer, at: nat, offset: nat)
    requires Holds(b, at, ToLE(offset, 8)) && offset <= |b|
    ensures at + 8 <= |b| && Word(b, at, 8) == offset
  {
    Widths();
    WordHeld(b, at, offset, 8);
  }

  lemma CountHeld(b: Buffer, at: nat, offset: nat, n: nat)
    requires Holds(b, at, Slot(offset, n)) && offset <= |b|
    ensures at + 16 <= |b| && Word(b, at, 8) == offset && (Word(b, at + 8, 8) == n || n > MAX_INT)
  {
    HoldsBoth(b, at, ToLE(offset, 8), ToLE(n, 8));
    OffsetHeld(b, at, offset);
    if n <= MAX_INT { SlotHeld(b, at, offset, n); }
  }

  lemma ZeroHeld(b: seq<byte>, at: nat, width: nat, more: nat)
    requires Holds(b, at, Zeros(width + more))
    ensures Word(b, at, width) == 0
  {
    assert Zeros(width + more) == Zeros(width) + Zeros(more);
    HoldsBoth(b, at, Zeros(width), Zeros(more));
    ZerosAreZero(width);
  }

  // ----- parts in place -----

  lemma {:induction false} SlotsWidth(p: Part, at: nat)
    ensures |Slots(p, at)| == Width(p)
  {
    if p.Then? {
      SlotsWidth(p.first, at);
      SlotsWidth(p.rest, at + |Heap(p.first, at)|);
    }
  }

  lemma ThenHeld(b: seq<byte>, s: nat, at: nat, p: Part, q: Part)
    requires Held(b, s, at, Then(p, q))
    ensures Held(b, s, at, p) && Held(b, s + Width(p), at + |Heap(p, at)|, q)
  {
    SlotsWidth(p, at);
    HoldsBoth(b, s, Slots(p, at), Slots(q, at + |Heap(p, at)|));
    HoldsBoth(b, at, Heap(p, at), Heap(q, at + |Heap(p, at)|));
  }

  /** The heap of a node or of a table is its block, at the next multiple of eight. */
  lemma BlockHeld(b: seq<byte>, at: nat, p: Part)
    requires (p.Node? || p.Table?) && Holds(b, at, Heap(p, at))
    ensures Held(b, Aligned(at), Aligned(at) + Width(p.block), p.block) && Aligned(at) + Width(p.block) <= |b|
  {
    var behind := Aligned(at) + Width(p.block);
    SlotsWidth(p.block, behind);
    HoldsBoth(b, at, Zeros(Pad(at)), Slots(p.block, behind) + Heap(p.block, behind));
    HoldsBoth(b, Aligned(at), Slots(p.block, behind), Heap(p.block, behind));
  }

  /** What a reader finds at s: the bytes in place, and behind each offset, which is never 0, what the
      offset was written for. */
  predicate Found(b: seq<byte>, s: nat, p: Part)
    decreases p
  {
    match p
    case Bytes(bytes) => Holds(b, s, bytes)
    case Text(text) => s + 16 <= |b| && Word(b, s, 8) > 0 && TextAt(b, s) == Some(text)
    case Node(block) => s + 8 <= |b| && Word(b, s, 8) > 0 && Found(b, Word(b, s, 8), block)
    case Table(count, block) =>
      && s + 16 <= |b| && (Word(b, s + 8, 8) == count || count > MAX_INT)
      && Word(b, s, 8) + Width(block) <= |b| && Found(b, Word(b, s, 8), block)
    case Then(first, rest) => Found(b, s, first) && Found(b, s + Width(first), rest)
  }

  lemma ThenFound(b: seq<byte>, s: nat, p: Part, width: nat, q: Part)
    requires Found(b, s, Then(p, q)) && Width(p) == width
    ensures Found(b, s, p) && Found(b, s + width, q)
  {}

  lemma NodeFound(b: seq<byte>, s: nat, block: Part)
    requires Found(b, s, Node(block))
    ensures s + 8 <= |b| && Word(b, s, 8) > 0 && Found(b, Word(b, s, 8), block)
  {}

  lemma TextIsFound(b: Buffer, s: nat, at: nat, text: seq<byte>)
    requires 0 < at && Held(b, s, at, Text(text))
    ensures Found(b, s, Text(text))
  {
    SlotHeld(b, s, at, |text|);
  }

  /** A node or a table leads to its block. */
  lemma OffsetLeads(b: Buffer, s: nat, at: nat, p: Part)
    requires (p.Node? || p.Table?) && Held(b, s, at, p)
    ensures s + Width(p) <= |b| && Word(b, s, 8) == Aligned(at)
    ensures p.Table? ==> Word(b, s + 8, 8) == p.count || p.count > MAX_INT
    ensures Held(b, Aligned(at), Aligned(at) + Width(p.block), p.block) && Aligned(at) + Width(p.block) <= |b|
  {
    BlockHeld(b, at, p);
    if p.Node? { OffsetHeld(b, s, Aligned(at)); } else { CountHeld(b, s, Aligned(at), p.count); }
  }

  /** What is written is found, wherever in an arena it stands and whatever stands around it. */
  lemma {:induction false} HeldIsFound(b: Buffer, s: nat, at: nat, p: Part)
    requires 0 < at && Held(b, s, at, p)
    ensures Found(b, s, p)
    decreases p, 1
  {
    match p {
      case Bytes(_) =>
      case Text(text) => TextIsFound(b, s, at, text);
      case Node(block) => BlockIsFound(b, s, at, p);
      case Table(count, block) => BlockIsFound(b, s, at, p);
      case Then(first, rest) =>
        ThenHeld(b, s, at, first, rest);
        HeldIsFound(b, s, at, first);
        HeldIsFound(b, s + Width(first), at + |Heap(first, at)|, rest);
    }
  }

  lemma {:induction false} BlockIsFound(b: Buffer, s: nat, at: nat, p: Part)
    requires 0 < at && (p.Node? || p.Table?) && Held(b, s, at, p)
    ensures Found(b, s, p)
    decreases p, 0
  {
    OffsetLeads(b, s, at, p);
    HeldIsFound(b, Aligned(at), Aligned(at) + Width(p.block), p.block);
  }

  // ----- arrays -----

  lemma {:induction false} JoinWidth<T(!new)>(xs: seq<T>, part: T -> Part, width: nat)
    requires forall x :: Width(part(x)) == width
    ensures Width(Join(xs, part)) == |xs| * width
  {
    if xs != [] {
      JoinWidth(xs[1..], part, width);
      assert |xs| * width == width + (|xs| - 1) * width;
    }
  }

  /** Every item written decodes to itself. */
  ghost predicate Inverts<T(!new)>(b: seq<byte>, part: T -> Part, width: nat, dec: nat -> Option<T>) {
    && (forall x :: Width(part(x)) == width)
    && (forall r: nat, x :: Found(b, r, part(x)) ==> dec(r) == Some(x))
  }

  lemma {:induction false} JoinFound<T(!new)>(b: seq<byte>, s: nat, xs: seq<T>, part: T -> Part,
                                        width: nat, dec: nat -> Option<T>, i: nat)
    requires Found(b, s, Join(xs, part)) && Inverts(b, part, width, dec) && i < |xs|
    ensures dec(s + i * width) == Some(xs[i])
    decreases i
  {
    if i > 0 {
      JoinFound(b, s + width, xs[1..], part, width, dec, i - 1);
      assert s + width + (i - 1) * width == s + i * width;
    }
  }

  lemma CountFits(n: nat, width: nat)
    requires 0 < width
    ensures n <= n * width
  {}

  lemma JoinGathers<T(!new)>(b: seq<byte>, s: nat, xs: seq<T>, part: T -> Part, width: nat, dec: nat -> Option<T>)
    requires Found(b, s, Join(xs, part)) && Inverts(b, part, width, dec)
    ensures Gather(|xs|, ItemOf(dec, s, width)) == Some(xs)
  {
    forall i: nat | i < |xs| ensures ItemOf(dec, s, width)(i) == Some(xs[i]) {
      ItemFound(b, s, xs, part, width, dec, i);
    }
    GatherIs(|xs|, ItemOf(dec, s, width), xs);
  }

  lemma ItemFound<T(!new)>(b: seq<byte>, s: nat, xs: seq<T>, part: T -> Part, width: nat, dec: nat -> Option<T>, i: nat)
    requires Found(b, s, Join(xs, part)) && Inverts(b, part, width, dec) && i < |xs|
    ensures ItemOf(dec, s, width)(i) == Some(xs[i])
  {
    JoinFound(b, s, xs, part, width, dec, i);
  }

  /** Decoding the array that counts the items written gives the items back. */
  lemma TableDecodes<T(!new)>(b: Buffer, s: nat, xs: seq<T>, part: T -> Part, width: nat, dec: nat -> Option<T>)
    requires 0 < width && Found(b, s, Table(|xs|, Join(xs, part))) && Inverts(b, part, width, dec)
    ensures s + 16 <= |b| && ArrayAt(b, s, width, dec) == Some(xs)
  {
    JoinWidth(xs, part, width);
    CountFits(|xs|, width);
    JoinGathers(b, Word(b, s, 8), xs, part, width, dec);
  }

  // ----- fields -----

  function BoolByte(v: bool): seq<byte> { [if v then 1 else 0] }
  function Uint64Bytes(v: uint64): seq<byte> { ToLE(v as nat, 8) }
  function Int16Bytes(v: int16): seq<byte> { ToLE(FromInt16(v), 2) }
  function Int32Bytes(v: int32): seq<byte> { ToLE(FromInt32(v), 4) }

  function SampleItem(v: uint64): Part { Bytes(Uint64Bytes(v)) }
  function CodeItem(v: int16): Part { Bytes(Int16Bytes(v)) }
  function CellItem(v: int32): Part { Bytes(Int32Bytes(v)) }
  function FlagItem(v: bool): Part { Bytes(BoolByte(v)) }
  function TagItem(v: seq<byte>): Part { Text(v) }
  function RowItem(v: seq<int32>): Part { Table(|v|, Join(v, CellItem)) }
  function LeafItem(v: Leaf): Part { Node(LeafPart(v)) }
  function ProbeItem(v: Probe): Part { Node(ProbePart(v)) }

  function OptText(text: Option<seq<byte>>): Part { if text.Some? then Text(text.value) else Bytes(Zeros(16)) }
  function OptLeaf(leaf: Option<Leaf>): Part { if leaf.Some? then LeafItem(leaf.value) else Bytes(Zeros(8)) }

  function LeafPart(v: Leaf): Part {
    Then(Bytes(Int32Bytes(v.value) + (BoolByte(v.enabled) + Zeros(3))),
         Then(Text(v.text), Then(Table(|v.samples|, Join(v.samples, SampleItem)), OptText(v.alias))))
  }

  function ListsPart(v: Probe): Part {
    Then(Text(v.name), Then(Table(|v.codes|, Join(v.codes, CodeItem)), Table(|v.tags|, Join(v.tags, TagItem))))
  }

  function LeavesPart(v: Probe): Part {
    Then(LeafItem(v.embedded),
         Then(LeafItem(v.child), Then(OptLeaf(v.maybe), Table(|v.children|, Join(v.children, LeafItem)))))
  }

  function OthersPart(v: Probe): Part {
    Then(Table(|v.matrix|, Join(v.matrix, RowItem)),
         Then(Text(v.raw), Then(Table(|v.flags|, Join(v.flags, FlagItem)), OptLeaf(v.spare))))
  }

  function HeadBytes(v: Probe): seq<byte> { Uint64Bytes(v.id) + (BoolByte(v.active) + ([v.status] + Zeros(6))) }

  function WeightBytes(weight: Option<uint64>): seq<byte> {
    if weight.Some? then BoolByte(true) + (Zeros(7) + Uint64Bytes(weight.value)) else Zeros(16)
  }

  function OriginBytes(v: Probe): seq<byte> { Int32Bytes(v.originX) + Int32Bytes(v.originY) }

  function ProbePart(v: Probe): Part {
    Then(Bytes(HeadBytes(v)),
         Then(ListsPart(v),
              Then(LeavesPart(v),
                   Then(Bytes(WeightBytes(v.weight)), Then(OptText(v.note), Then(Bytes(OriginBytes(v)), OthersPart(v)))))))
  }

  lemma Int16Held(b: seq<byte>, at: nat, v: int16)
    requires Holds(b, at, Int16Bytes(v))
    ensures Int16At(b, at) == Some(v)
  {
    Widths();
    WordHeld(b, at, FromInt16(v), 2);
  }

  lemma Int32Held(b: seq<byte>, at: nat, v: int32)
    requires Holds(b, at, Int32Bytes(v))
    ensures at + 4 <= |b| && Signed(b, at) == v && Int32At(b, at) == Some(v)
  {
    Widths();
    WordHeld(b, at, FromInt32(v), 4);
  }

  lemma Uint64Held(b: seq<byte>, at: nat, v: uint64)
    requires Holds(b, at, Uint64Bytes(v))
    ensures Uint64At(b, at) == Some(v) && Word(b, at, 8) == v as nat
  {
    Widths();
    WordHeld(b, at, v as nat, 8);
  }

  lemma ByteHeld(b: seq<byte>, at: nat, v: byte)
    requires Holds(b, at, [v])
    ensures at + 1 <= |b| && Word(b, at, 1) == v as nat
  {
    assert b[at..at + 1] == [v] && [v][1..] == [];
  }

  lemma BoolHeld(b: seq<byte>, at: nat, v: bool)
    requires Holds(b, at, BoolByte(v))
    ensures BoolAt(b, at) == Some(v) && Word(b, at, 1) == if v then 1 else 0
  {
    ByteHeld(b, at, BoolByte(v)[0]);
  }

  lemma TextDecodes(b: Buffer, s: nat, text: seq<byte>)
    requires Found(b, s, Text(text))
    ensures s + 16 <= |b| && Word(b, s, 8) > 0 && TextAt(b, s) == Some(text)
  {}

  /** Present and empty is told from absent: an offset behind the header is never 0. */
  lemma OptTextDecodes(b: Buffer, s: nat, text: Option<seq<byte>>)
    requires Found(b, s, OptText(text))
    ensures s + 16 <= |b| && OptTextAt(b, s) == Some(text)
  {
    if text.None? { ZeroHeld(b, s, 8, 8); }
  }

  lemma SamplesDecode(b: Buffer, s: nat, v: seq<uint64>)
    requires Found(b, s, Table(|v|, Join(v, SampleItem)))
    ensures s + 16 <= |b| && ArrayAt(b, s, 8, Uint64s(b)) == Some(v)
  {
    forall r: nat, x | Found(b, r, SampleItem(x)) ensures Uint64s(b)(r) == Some(x) { Uint64Held(b, r, x); }
    TableDecodes(b, s, v, SampleItem, 8, Uint64s(b));
  }

  lemma CodesDecode(b: Buffer, s: nat, v: seq<int16>)
    requires Found(b, s, Table(|v|, Join(v, CodeItem)))
    ensures s + 16 <= |b| && ArrayAt(b, s, 2, Int16s(b)) == Some(v)
  {
    forall r: nat, x | Found(b, r, CodeItem(x)) ensures Int16s(b)(r) == Some(x) { Int16Held(b, r, x); }
    TableDecodes(b, s, v, CodeItem, 2, Int16s(b));
  }

  lemma RowDecodes(b: Buffer, s: nat, v: seq<int32>)
    requires Found(b, s, RowItem(v))
    ensures RowAt(b, s) == Some(v)
  {
    forall r: nat, x | Found(b, r, CellItem(x)) ensures Int32s(b)(r) == Some(x) { Int32Held(b, r, x); }
    TableDecodes(b, s, v, CellItem, 4, Int32s(b));
  }

  lemma FlagsDecode(b: Buffer, s: nat, v: seq<bool>)
    requires Found(b, s, Table(|v|, Join(v, FlagItem)))
    ensures s + 16 <= |b| && ArrayAt(b, s, 1, Bools(b)) == Some(v)
  {
    forall r: nat, x | Found(b, r, FlagItem(x)) ensures Bools(b)(r) == Some(x) { BoolHeld(b, r, x); }
    TableDecodes(b, s, v, FlagItem, 1, Bools(b));
  }

  lemma TagsDecode(b: Buffer, s: nat, v: seq<seq<byte>>)
    requires Found(b, s, Table(|v|, Join(v, TagItem)))
    ensures s + 16 <= |b| && ArrayAt(b, s, 16, Tags(b)) == Some(v)
  {
    TableDecodes(b, s, v, TagItem, 16, Tags(b));
  }

  lemma MatrixDecodes(b: Buffer, s: nat, v: seq<seq<int32>>)
    requires Found(b, s, Table(|v|, Join(v, RowItem)))
    ensures s + 16 <= |b| && ArrayAt(b, s, 16, Rows(b)) == Some(v)
  {
    forall r: nat, x | Found(b, r, RowItem(x)) ensures Rows(b)(r) == Some(x) { RowDecodes(b, r, x); }
    TableDecodes(b, s, v, RowItem, 16, Rows(b));
  }

  // ----- leaves -----

  lemma LeafWordsHeld(b: seq<byte>, s: nat, v: Leaf)
    requires Holds(b, s, Int32Bytes(v.value) + (BoolByte(v.enabled) + Zeros(3)))
    ensures s + 8 <= |b| && Signed(b, s) == v.value && (Word(b, s + 4, 1) != 0) == v.enabled
  {
    HoldsBoth(b, s, Int32Bytes(v.value), BoolByte(v.enabled) + Zeros(3));
    HoldsBoth(b, s + 4, BoolByte(v.enabled), Zeros(3));
    Int32Held(b, s, v.value);
    BoolHeld(b, s + 4, v.enabled);
  }

  lemma LeafFound(b: seq<byte>, s: nat, v: Leaf)
    requires Found(b, s, LeafPart(v))
    ensures Holds(b, s, Int32Bytes(v.value) + (BoolByte(v.enabled) + Zeros(3)))
    ensures Found(b, s + 8, Text(v.text)) && Found(b, s + 24, Table(|v.samples|, Join(v.samples, SampleItem)))
    ensures Found(b, s + 40, OptText(v.alias))
  {
    var words := Bytes(Int32Bytes(v.value) + (BoolByte(v.enabled) + Zeros(3)));
    var table, alias := Table(|v.samples|, Join(v.samples, SampleItem)), OptText(v.alias);
    ThenFound(b, s, words, 8, Then(Text(v.text), Then(table, alias)));
    ThenFound(b, s + 8, Text(v.text), 16, Then(table, alias));
    ThenFound(b, s + 24, table, 16, alias);
  }

  /** A leaf decodes to itself wherever in an arena it is found. */
  lemma LeafDecodes(b: Buffer, s: nat, v: Leaf)
    requires Found(b, s, LeafPart(v))
    ensures LeafAt(b, s) == Some(v)
  {
    LeafFound(b, s, v);
    LeafWordsHeld(b, s, v);
    TextDecodes(b, s + 8, v.text);
    SamplesDecode(b, s + 24, v.samples);
    OptTextDecodes(b, s + 40, v.alias);
  }

  lemma LeafItemDecodes(b: Buffer, s: nat, v: Leaf)
    requires Found(b, s, LeafItem(v))
    ensures s + 8 <= |b| && Word(b, s, 8) > 0 && LeafAt(b, Word(b, s, 8)) == Some(v)
  {
    NodeFound(b, s, LeafPart(v));
    LeafDecodes(b, Word(b, s, 8), v);
  }

  lemma OptLeafDecodes(b: Buffer, s: nat, v: Option<Leaf>)
    requires Found(b, s, OptLeaf(v))
    ensures s + 8 <= |b| && OptLeafAt(b, s) == Some(v)
  {
    if v.Some? { LeafItemDecodes(b, s, v.value); } else { ZeroHeld(b, s, 8, 0); }
  }

  lemma ChildrenDecode(b: Buffer, s: nat, v: seq<Leaf>)
    requires Found(b, s, Table(|v|, Join(v, LeafItem)))
    ensures s + 16 <= |b| && ArrayAt(b, s, 8, LeafRefs(b)) == Some(v)
  {
    forall r: nat, x | Found(b, r, LeafItem(x)) ensures LeafRefs(b)(r) == Some(x) { LeafItemDecodes(b, r, x); }
    TableDecodes(b, s, v, LeafItem, 8, LeafRefs(b));
  }

  // ----- probes -----

  lemma ListsDecode(b: Buffer, at: nat, v: Probe)
    requires at + PROBE_SIZE <= |b| && Found(b, at + 16, ListsPart(v))
    ensures ListsAt(b, at) == Some(Lists(v.name, v.codes, v.tags))
  {
    var codes, tags := Table(|v.codes|, Join(v.codes, CodeItem)), Table(|v.tags|, Join(v.tags, TagItem));
    ThenFound(b, at + 16, Text(v.name), 16, Then(codes, tags));
    ThenFound(b, at + 32, codes, 16, tags);
    TextDecodes(b, at + 16, v.name);
    CodesDecode(b, at + 32, v.codes);
    TagsDecode(b, at + 48, v.tags);
  }

  lemma LeavesDecode(b: Buffer, at: nat, v: Probe)
    requires at + PROBE_SIZE <= |b| && Found(b, at + 64, LeavesPart(v))
    ensures LeavesAt(b, at) == Some(Leaves(v.embedded, v.child, v.maybe, v.children))
  {
    var children := Table(|v.children|, Join(v.children, LeafItem));
    ThenFound(b, at + 64, LeafItem(v.embedded), 8, Then(LeafItem(v.child), Then(OptLeaf(v.maybe), children)));
    ThenFound(b, at + 72, LeafItem(v.child), 8, Then(OptLeaf(v.maybe), children));
    ThenFound(b, at + 80, OptLeaf(v.maybe), 8, children);
    LeafItemDecodes(b, at + 64, v.embedded);
    LeafItemDecodes(b, at + 72, v.child);
    OptLeafDecodes(b, at + 80, v.maybe);
    ChildrenDecode(b, at + 88, v.children);
  }

  lemma OthersFound(b: seq<byte>, s: nat, v: Probe)
    requires Found(b, s, OthersPart(v))
    ensures Found(b, s, Table(|v.matrix|, Join(v.matrix, RowItem))) && Found(b, s + 16, Text(v.raw))
    ensures Found(b, s + 32, Table(|v.flags|, Join(v.flags, FlagItem))) && Found(b, s + 48, OptLeaf(v.spare))
  {
    var matrix, flags := Table(|v.matrix|, Join(v.matrix, RowItem)), Table(|v.flags|, Join(v.flags, FlagItem));
    ThenFound(b, s, matrix, 16, Then(Text(v.raw), Then(flags, OptLeaf(v.spare))));
    ThenFound(b, s + 16, Text(v.raw), 16, Then(flags, OptLeaf(v.spare)));
    ThenFound(b, s + 32, flags, 16, OptLeaf(v.spare));
  }

  lemma OthersDecode(b: Buffer, at: nat, v: Probe)
    requires at + PROBE_SIZE <= |b| && Found(b, at + 144, OthersPart(v))
    ensures OthersAt(b, at) == Some(Others(v.matrix, v.raw, v.flags, v.spare))
  {
    OthersFound(b, at + 144, v);
    MatrixDecodes(b, at + 144, v.matrix);
    TextDecodes(b, at + 160, v.raw);
    FlagsDecode(b, at + 176, v.flags);
    OptLeafDecodes(b, at + 192, v.spare);
  }

  lemma HeadHeld(b: seq<byte>, at: nat, v: Probe)
    requires Holds(b, at, HeadBytes(v))
    ensures at + 16 <= |b| && Word(b, at, 8) == v.id as nat
    ensures (Word(b, at + 8, 1) != 0) == v.active && Word(b, at + 9, 1) == v.status as nat
  {
    HoldsBoth(b, at, Uint64Bytes(v.id), BoolByte(v.active) + ([v.status] + Zeros(6)));
    HoldsBoth(b, at + 8, BoolByte(v.active), [v.status] + Zeros(6));
    HoldsBoth(b, at + 9, [v.status], Zeros(6));
    Uint64Held(b, at, v.id);
    BoolHeld(b, at + 8, v.active);
    ByteHeld(b, at + 9, v.status);
  }

  lemma WeightHeld(b: seq<byte>, at: nat, weight: Option<uint64>)
    requires Holds(b, at, WeightBytes(weight))
    ensures at + 16 <= |b| && WeightAt(b, at) == weight
  {
    if weight.Some? {
      HoldsBoth(b, at, BoolByte(true), Zeros(7) + Uint64Bytes(weight.value));
      HoldsBoth(b, at + 1, Zeros(7), Uint64Bytes(weight.value));
      BoolHeld(b, at, true);
      Uint64Held(b, at + 8, weight.value);
    } else {
      ZeroHeld(b, at, 1, 15);
    }
  }

  lemma OriginHeld(b: seq<byte>, at: nat, v: Probe)
    requires Holds(b, at, OriginBytes(v))
    ensures at + 8 <= |b| && Signed(b, at) == v.originX && Signed(b, at + 4) == v.originY
  {
    HoldsBoth(b, at, Int32Bytes(v.originX), Int32Bytes(v.originY));
    Int32Held(b, at, v.originX);
    Int32Held(b, at + 4, v.originY);
  }

  lemma PartWidths(v: Probe)
    ensures |HeadBytes(v)| == 16 && |WeightBytes(v.weight)| == 16 && |OriginBytes(v)| == 8
    ensures Width(ListsPart(v)) == 48 && Width(LeavesPart(v)) == 40 && Width(OptText(v.note)) == 16
  {
    var codes, tags := Table(|v.codes|, Join(v.codes, CodeItem)), Table(|v.tags|, Join(v.tags, TagItem));
    assert Width(Then(codes, tags)) == 32;
    var children := Table(|v.children|, Join(v.children, LeafItem));
    assert Width(Then(OptLeaf(v.maybe), children)) == 24;
    assert Width(Then(LeafItem(v.child), Then(OptLeaf(v.maybe), children))) == 32;
  }

  lemma PartsFound(b: seq<byte>, at: nat, v: Probe)
    requires Found(b, at, ProbePart(v))
    ensures Found(b, at + 16, ListsPart(v)) && Found(b, at + 64, LeavesPart(v)) && Found(b, at + 144, OthersPart(v))
    ensures Found(b, at, Bytes(HeadBytes(v))) && Found(b, at + 104, Bytes(WeightBytes(v.weight)))
    ensures Found(b, at + 120, OptText(v.note)) && Found(b, at + 136, Bytes(OriginBytes(v)))
  {
    PartWidths(v);
    var origin, others := Bytes(OriginBytes(v)), OthersPart(v);
    var weight, note := Bytes(WeightBytes(v.weight)), OptText(v.note);
    var lists, leaves := ListsPart(v), LeavesPart(v);
    ThenFound(b, at, Bytes(HeadBytes(v)), 16, Then(lists, Then(leaves, Then(weight, Then(note, Then(origin, others))))));
    ThenFound(b, at + 16, lists, 48, Then(leaves, Then(weight, Then(note, Then(origin, others)))));
    ThenFound(b, at + 64, leaves, 40, Then(weight, Then(note, Then(origin, others))));
    ThenFound(b, at + 104, weight, 16, Then(note, Then(origin, others)));
    ThenFound(b, at + 120, note, 16, Then(origin, others));
    ThenFound(b, at + 136, origin, 8, others);
  }

  lemma RecordFits(b: Buffer, at: nat, v: Probe)
    requires Found(b, at + 144, OthersPart(v))
    ensures at + PROBE_SIZE <= |b|
  {
    OthersFound(b, at + 144, v);
    OptLeafDecodes(b, at + 192, v.spare);
  }

  lemma ProbeDecodes(b: Buffer, at: nat, v: Probe)
    requires Found(b, at, ProbePart(v))
    ensures ProbeAt(b, at) == Some(v)
  {
    PartsFound(b, at, v);
    RecordFits(b, at, v);
    HeadHeld(b, at, v);
    ListsDecode(b, at, v);
    LeavesDecode(b, at, v);
    WeightHeld(b, at + 104, v.weight);
    OptTextDecodes(b, at + 120, v.note);
    OriginHeld(b, at + 136, v);
    OthersDecode(b, at, v);
  }
}
