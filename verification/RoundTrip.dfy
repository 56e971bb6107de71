/** Decoding inverts the layout, for every probe and every list of probes that fits a buffer. */
module RoundTrip {
  import opened Wrappers
  import opened Wire
  import opened Records
  import opened Layout

  function HeaderBytes(count: nat, length: nat): seq<byte> {
    ToLE(MAGIC, 8) + (ToLE(LAYOUT, 8) + (ToLE(count, 8) + (ToLE(HEADER_SIZE, 8) + ToLE(length, 8))))
  }

  /** The header and, behind it, the block its root offset leads to. */
  function File(count: nat, p: Part): seq<byte> {
    HeaderBytes(count, HEADER_SIZE + |Heap(p, HEADER_SIZE)|) + Heap(p, HEADER_SIZE)
  }

  /** How many bytes the heap of p takes when it starts at `at`. */
  function HeapSize(p: Part, at: nat): nat {
    match p
    case Bytes(_) => 0
    case Text(text) => |text|
    case Node(block) => Pad(at) + Width(block) + HeapSize(block, Aligned(at) + Width(block))
    case Table(_, block) => Pad(at) + Width(block) + HeapSize(block, Aligned(at) + Width(block))
    case Then(first, rest) => HeapSize(first, at) + HeapSize(rest, at + HeapSize(first, at))
  }

  lemma BlockSize(p: Part, at: nat)
    requires p.Node? || p.Table?
    ensures var behind := Aligned(at) + Width(p.block);
            && |Heap(p, at)| == Pad(at) + Width(p.block) + |Heap(p.block, behind)|
            && HeapSize(p, at) == Pad(at) + Width(p.block) + HeapSize(p.block, behind)
  {
    SlotsWidth(p.block, Aligned(at) + Width(p.block));
  }

  lemma ThenHeap(p: Part, at: nat)
    requires p.Then?
    ensures |Heap(p, at)| == |Heap(p.first, at)| + |Heap(p.rest, at + |Heap(p.first, at)|)|
  {
    assert Heap(p, at) == Heap(p.first, at) + Heap(p.rest, at + |Heap(p.first, at)|);
  }

  lemma ThenSize(p: Part, at: nat)
    requires p.Then?
    ensures HeapSize(p, at) == HeapSize(p.first, at) + HeapSize(p.rest, at + HeapSize(p.first, at))
  {}

  lemma {:induction false} HeapSizeIs(p: Part, at: nat)
    ensures |Heap(p, at)| == HeapSize(p, at)
  {
    if p.Node? || p.Table? {
      var behind := Aligned(at) + Width(p.block);
      HeapSizeIs(p.block, behind);
      BlockSize(p, at);
    } else if p.Then? {
      HeapSizeIs(p.first, at);
      HeapSizeIs(p.rest, at + |Heap(p.first, at)|);
      ThenHeap(p, at);
      ThenSize(p, at);
    }
  }

  /** The length of the buffer, which Go must be able to hold in a slice. */
  function Encoded(p: Part): nat { HEADER_SIZE + HeapSize(p, HEADER_SIZE) }

  lemma EncodedIs(count: nat, p: Part)
    ensures |File(count, p)| == Encoded(p)
  {
    HeapSizeIs(p, HEADER_SIZE);
  }

  function EncodeProbe(v: Probe): seq<byte> { File(1, ProbeItem(v)) }

  function ProbesTable(vs: seq<Probe>): Part { Table(|vs|, Join(vs, ProbeItem)) }

  function EncodeProbes(vs: seq<Probe>): seq<byte> { File(|vs|, ProbesTable(vs)) }

  lemma HeaderHeld(b: seq<byte>, count: nat, length: nat)
    requires count <= MAX_INT && length <= MAX_INT && Holds(b, 0, HeaderBytes(count, length))
    ensures |b| >= HEADER_SIZE && Word(b, 0, 8) == MAGIC && Word(b, 8, 8) == LAYOUT && Word(b, 16, 8) == count
    ensures Word(b, 24, 8) == HEADER_SIZE && Word(b, 32, 8) == length
  {
    Widths();
    var m, l, c, r, n := ToLE(MAGIC, 8), ToLE(LAYOUT, 8), ToLE(count, 8), ToLE(HEADER_SIZE, 8), ToLE(length, 8);
    HoldsBoth(b, 0, m, l + (c + (r + n)));
    HoldsBoth(b, 8, l, c + (r + n));
    HoldsBoth(b, 16, c, r + n);
    HoldsBoth(b, 24, r, n);
    WordHeld(b, 0, MAGIC, 8);
    WordHeld(b, 8, LAYOUT, 8);
    WordHeld(b, 16, count, 8);
    WordHeld(b, 24, HEADER_SIZE, 8);
    WordHeld(b, 32, length, 8);
  }

  lemma BehindHeader(header: seq<byte>, heap: seq<byte>)
    ensures Holds(header + heap, 0, header) && Holds(header + heap, |header|, heap)
  {
    HoldsBoth(header + heap, 0, header, heap);
  }

  lemma BlockOpens(b: Buffer, at: nat, p: Part)
    requires 0 < at && at % 8 == 0 && (p.Node? || p.Table?) && Holds(b, at, Heap(p, at))
    ensures Found(b, at, p.block) && at + Width(p.block) <= |b|
  {
    assert Aligned(at) == at;
    BlockHeld(b, at, p);
    HeldIsFound(b, at, at + Width(p.block), p.block);
  }

  lemma FileHeader(b: Buffer, count: nat, heap: seq<byte>)
    requires count <= MAX_INT && b == HeaderBytes(count, |b|) + heap
    ensures HeaderAt(b, LAYOUT) == Some((HEADER_SIZE, count)) && Holds(b, HEADER_SIZE, heap)
  {
    BehindHeader(HeaderBytes(count, |b|), heap);
    HeaderHeld(b, count, |b|);
  }

  /** The header says where the block is, and the block is found there. */
  lemma FileOpens(b: Buffer, count: nat, p: Part)
    requires (p.Node? || p.Table?) && count <= MAX_INT && b == File(count, p)
    ensures HeaderAt(b, LAYOUT) == Some((HEADER_SIZE, count))
    ensures Found(b, HEADER_SIZE, p.block) && HEADER_SIZE + Width(p.block) <= |b|
  {
    FileHeader(b, count, Heap(p, HEADER_SIZE));
    BlockOpens(b, HEADER_SIZE, p);
  }

  lemma ProbeRoundTrip(v: Probe)
    requires Encoded(ProbeItem(v)) <= MAX_INT
    ensures OneProbe(EncodeProbe(v)) == Some(v)
  {
    EncodedIs(1, ProbeItem(v));
    var b := EncodeProbe(v);
    FileOpens(b, 1, ProbeItem(v));
    ProbeDecodes(b, HEADER_SIZE, v);
  }

  lemma ProbeItemDecodes(b: Buffer, r: nat, v: Probe)
    requires Found(b, r, ProbeItem(v))
    ensures ProbeRefs(b)(r) == Some(v)
  {
    NodeFound(b, r, ProbePart(v));
    ProbeDecodes(b, Word(b, r, 8), v);
  }

  lemma RootsGather(b: Buffer, s: nat, vs: seq<Probe>)
    requires Found(b, s, Join(vs, ProbeItem))
    ensures Gather(|vs|, ItemOf(ProbeRefs(b), s, 8)) == Some(vs)
  {
    forall r: nat, x | Found(b, r, ProbeItem(x)) ensures ProbeRefs(b)(r) == Some(x) { ProbeItemDecodes(b, r, x); }
    JoinGathers(b, s, vs, ProbeItem, 8, ProbeRefs(b));
  }

  lemma ProbesRoundTrip(vs: seq<Probe>)
    requires Encoded(ProbesTable(vs)) <= MAX_INT
    ensures Probes(EncodeProbes(vs)) == Some(vs)
  {
    var p := ProbesTable(vs);
    EncodedIs(|vs|, p);
    var b := EncodeProbes(vs);
    JoinWidth(vs, ProbeItem, 8);
    BlockSize(p, HEADER_SIZE);
    FileOpens(b, |vs|, p);
    RootsGather(b, HEADER_SIZE, vs);
  }

  /** No two probes share an encoding: in particular an absent text and an empty one are told apart. */
  lemma EncodingIsInjective(v: Probe, w: Probe)
    requires Encoded(ProbeItem(v)) <= MAX_INT && EncodeProbe(v) == EncodeProbe(w)
    ensures v == w
  {
    EncodedIs(1, ProbeItem(v));
    EncodedIs(1, ProbeItem(w));
    ProbeRoundTrip(v);
    ProbeRoundTrip(w);
  }
}
