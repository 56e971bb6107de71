/** The decoded records and what reading them off an arena yields.
    A float64 is its bit pattern, a Go pointer to an owned value an optional value; the pointer `child`,
    which every decoding sets, is the leaf it points to. */
module Records {
  import opened Wrappers
  import opened Wire

  const MAGIC: nat := 0x0002_4f47_495a
  const LAYOUT: nat := 1
  const HEADER_SIZE: nat := 40
  const LEAF_SIZE: nat := 56
  const PROBE_SIZE: nat := 200

  datatype Leaf = Leaf(value: int32, enabled: bool, text: seq<byte>, samples: seq<uint64>, alias: Option<seq<byte>>)

  datatype Probe = Probe(
    id: uint64, active: bool, status: byte, name: seq<byte>, codes: seq<int16>, tags: seq<seq<byte>>,
    embedded: Leaf, child: Leaf, maybe: Option<Leaf>, children: seq<Leaf>, weight: Option<uint64>,
    note: Option<seq<byte>>, originX: int32, originY: int32, matrix: seq<seq<int32>>, raw: seq<byte>,
    flags: seq<bool>, spare: Option<Leaf>)

  const ZERO_LEAF := Leaf(0, false, [], [], None)
  const ZERO_PROBE := Probe(0, false, 0, [], [], [], ZERO_LEAF, ZERO_LEAF, None, [], None, None, 0, 0, [], [], [], None)

  // ----- items of arrays -----

  function Uint64At(b: seq<byte>, at: nat): Option<uint64> {
    if at + 8 <= |b| then Widths(); Some(Word(b, at, 8) as uint64) else None
  }

  function Int16At(b: seq<byte>, at: nat): Option<int16> {
    if at + 2 <= |b| then Widths(); Some(ToInt16(Word(b, at, 2))) else None
  }

  function Int32At(b: seq<byte>, at: nat): Option<int32> {
    if at + 4 <= |b| then Some(Signed(b, at)) else None
  }

  function BoolAt(b: seq<byte>, at: nat): Option<bool> {
    if at + 1 <= |b| then Some(Word(b, at, 1) != 0) else None
  }

  function TagAt(b: seq<byte>, slot: nat): Option<seq<byte>> {
    if slot + 16 <= |b| then TextAt(b, slot) else None
  }

  function RowAt(b: seq<byte>, slot: nat): Option<seq<int32>> {
    if slot + 16 <= |b| then ArrayAt(b, slot, 4, Int32s(b)) else None
  }

  function LeafRefAt(b: seq<byte>, slot: nat): Option<Leaf> {
    if slot + 8 <= |b| then LeafAt(b, Word(b, slot, 8)) else None
  }

  function ProbeRefAt(b: seq<byte>, slot: nat): Option<Probe> {
    if slot + 8 <= |b| then ProbeAt(b, Word(b, slot, 8)) else None
  }

  function Uint64s(b: seq<byte>): nat -> Option<uint64> { (at: nat) => Uint64At(b, at) }
  function Int16s(b: seq<byte>): nat -> Option<int16> { (at: nat) => Int16At(b, at) }
  function Int32s(b: seq<byte>): nat -> Option<int32> { (at: nat) => Int32At(b, at) }
  function Bools(b: seq<byte>): nat -> Option<bool> { (at: nat) => BoolAt(b, at) }
  function Tags(b: seq<byte>): nat -> Option<seq<byte>> { (at: nat) => TagAt(b, at) }
  function Rows(b: seq<byte>): nat -> Option<seq<int32>> { (at: nat) => RowAt(b, at) }
  function LeafRefs(b: seq<byte>): nat -> Option<Leaf> { (at: nat) => LeafRefAt(b, at) }
  function ProbeRefs(b: seq<byte>): nat -> Option<Probe> { (at: nat) => ProbeRefAt(b, at) }

  // ----- records -----

  function Signed(b: seq<byte>, at: nat): int32
    requires at + 4 <= |b|
  {
    Widths();
    ToInt32(Word(b, at, 4))
  }

  function LeafAt(b: seq<byte>, at: nat): Option<Leaf> {
    if at + LEAF_SIZE > |b| then None
    else
      var text :- TextAt(b, at + 8);
      var samples :- ArrayAt(b, at + 24, 8, Uint64s(b));
      var alias :- OptTextAt(b, at + 40);
      Some(Leaf(Signed(b, at), Word(b, at + 4, 1) != 0, text, samples, alias))
  }

  function OptLeafAt(b: seq<byte>, slot: nat): Option<Option<Leaf>>
    requires slot + 8 <= |b|
  {
    if Word(b, slot, 8) == 0 then Some(None)
    else
      var leaf :- LeafAt(b, Word(b, slot, 8));
      Some(Some(leaf))
  }

  /** A flag byte, then the value eight bytes further when the flag is set. */
  function WeightAt(b: seq<byte>, slot: nat): Option<uint64>
    requires slot + 16 <= |b|
  {
    Widths();
    if Word(b, slot, 1) != 0 then Some(Word(b, slot + 8, 8) as uint64) else None
  }

  /** The fields of a probe that lie elsewhere in the arena, in three groups. */
  datatype Lists = Lists(name: seq<byte>, codes: seq<int16>, tags: seq<seq<byte>>)
  datatype Leaves = Leaves(embedded: Leaf, child: Leaf, maybe: Option<Leaf>, children: seq<Leaf>)
  datatype Others = Others(matrix: seq<seq<int32>>, raw: seq<byte>, flags: seq<bool>, spare: Option<Leaf>)

  function ListsAt(b: seq<byte>, at: nat): Option<Lists>
    requires at + PROBE_SIZE <= |b|
  {
    var name :- TextAt(b, at + 16);
    var codes :- ArrayAt(b, at + 32, 2, Int16s(b));
    var tags :- ArrayAt(b, at + 48, 16, Tags(b));
    Some(Lists(name, codes, tags))
  }

  function LeavesAt(b: seq<byte>, at: nat): Option<Leaves>
    requires at + PROBE_SIZE <= |b|
  {
    var embedded :- LeafAt(b, Word(b, at + 64, 8));
    var child :- LeafAt(b, Word(b, at + 72, 8));
    var maybe :- OptLeafAt(b, at + 80);
    var children :- ArrayAt(b, at + 88, 8, LeafRefs(b));
    Some(Leaves(embedded, child, maybe, children))
  }

  function OthersAt(b: seq<byte>, at: nat): Option<Others>
    requires at + PROBE_SIZE <= |b|
  {
    var matrix :- ArrayAt(b, at + 144, 16, Rows(b));
    var raw :- TextAt(b, at + 160);
    var flags :- ArrayAt(b, at + 176, 1, Bools(b));
    var spare :- OptLeafAt(b, at + 192);
    Some(Others(matrix, raw, flags, spare))
  }

  function ProbeAt(b: seq<byte>, at: nat): Option<Probe> {
    if at + PROBE_SIZE > |b| then None
    else
      Widths();
      var l :- ListsAt(b, at);
      var e :- LeavesAt(b, at);
      var note :- OptTextAt(b, at + 120);
      var o :- OthersAt(b, at);
      Some(Probe(Word(b, at, 8) as uint64, Word(b, at + 8, 1) != 0, Word(b, at + 9, 1) as byte,
                 l.name, l.codes, l.tags, e.embedded, e.child, e.maybe, e.children, WeightAt(b, at + 104),
                 note, Signed(b, at + 136), Signed(b, at + 140), o.matrix, o.raw, o.flags, o.spare))
  }

  /** The root offset and the count of a buffer whose header is right. */
  function HeaderAt(b: seq<byte>, layout: nat): Option<(nat, nat)> {
    if |b| >= HEADER_SIZE && Word(b, 0, 8) == MAGIC && Word(b, 8, 8) == layout && Word(b, 32, 8) == |b|
    then Some((Word(b, 24, 8), Word(b, 16, 8)))
    else None
  }

  function OneProbe(b: seq<byte>): Option<Probe> {
    var h :- HeaderAt(b, LAYOUT);
    if h.1 == 1 then ProbeAt(b, h.0) else None
  }

  function Probes(b: seq<byte>): Option<seq<Probe>> {
    var h :- HeaderAt(b, LAYOUT);
    if h.0 + h.1 * 8 <= |b| then Gather(h.1, ItemOf(ProbeRefs(b), h.0, 8)) else None
  }

  // ----- decoding over what a variable already holds -----

  function Kept<T>(prior: Option<T>, decoded: Option<T>): Option<T> {
    if decoded.Some? then decoded else prior
  }

  function LeafOver(prior: Leaf, decoded: Leaf): Leaf { decoded.(alias := Kept(prior.alias, decoded.alias)) }

  /** An absent optional leaves the variable's value; everything else is replaced. */
  function ProbeOver(prior: Probe, decoded: Probe): Probe {
    decoded.(embedded := LeafOver(prior.embedded, decoded.embedded),
             maybe := Kept(prior.maybe, decoded.maybe), weight := Kept(prior.weight, decoded.weight),
             note := Kept(prior.note, decoded.note), spare := Kept(prior.spare, decoded.spare))
  }
}
