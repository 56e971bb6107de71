/** What a caller of the decoders may rely on: when filling a used slice gives what a fresh decoding gives,
    and how much a hostile buffer can make them allocate. */
module Snapshots {
  import opened Wrappers
  import opened Wire
  import opened Records
  import opened Decoder
  import opened Layout
  import opened RoundTrip

  // ----- filling over earlier values -----

  /** An optional field that the buffer leaves out and the caller's entry already had. */
  predicate Stale(prior: Probe, decoded: Probe) {
    || (prior.maybe.Some? && decoded.maybe.None?)
    || (prior.weight.Some? && decoded.weight.None?)
    || (prior.note.Some? && decoded.note.None?)
    || (prior.spare.Some? && decoded.spare.None?)
    || (prior.embedded.alias.Some? && decoded.embedded.alias.None?)
  }

  predicate AllNil(prior: Probe) {
    && prior.maybe.None? && prior.weight.None? && prior.note.None? && prior.spare.None?
    && prior.embedded.alias.None?
  }

  /** Filling a slice agrees with decoding a fresh one on the entries it reaches exactly when no optional is
      stale, and never touches an entry behind them. */
  lemma FillAgreesExactly(prior: seq<Probe>, decoded: seq<Probe>)
    requires |decoded| <= |prior|
    ensures Overlaid(prior, decoded)[..|decoded|] == decoded <==> forall i | 0 <= i < |decoded| :: !Stale(prior[i], decoded[i])
    ensures Overlaid(prior, decoded)[|decoded|..] == prior[|decoded|..]
  {
    var filled := Overlaid(prior, decoded);
    if filled[..|decoded|] == decoded {
      forall i | 0 <= i < |decoded| ensures !Stale(prior[i], decoded[i]) {
        assert filled[..|decoded|][i] == ProbeOver(prior[i], decoded[i]);
      }
    }
  }

  /** Whatever is decoded: an entry is safe to fill over exactly when its optionals are nil. */
  lemma NilEntriesExactly(prior: Probe)
    ensures (forall decoded :: ProbeOver(prior, decoded) == decoded) <==> AllNil(prior)
  {
    assert Stale(prior, ZERO_PROBE) <==> !AllNil(prior);
    assert ProbeOver(prior, ZERO_PROBE) == ZERO_PROBE <==> AllNil(prior);
  }

  /** The failing family, on real buffers: a probe written without a weight comes back with the weight that
      the caller's entry held before. */
  lemma StaleWeightReturned(written: Probe, prior: Probe)
    requires written.weight.None? && prior.weight.Some? && Encoded(ProbeItem(written)) <= MAX_INT
    ensures OneProbe(EncodeProbe(written)) == Some(written) && ProbeOver(prior, written).weight == prior.weight
  {
    ProbeRoundTrip(written);
  }

  /** Filling a slice from what the encoder wrote gives the first entries written, exactly when none is stale. */
  lemma FillReturnsWritten(prior: seq<Probe>, written: seq<Probe>)
    requires Encoded(ProbesTable(written)) <= MAX_INT
    ensures Probes(EncodeProbes(written)) == Some(written)
    ensures FillsFirst(prior, written) <==> forall i | 0 <= i < |written| && i < |prior| :: !Stale(prior[i], written[i])
  {
    ProbesRoundTrip(written);
    FillFirst(prior, written);
  }

  /** The entries that filling reaches become the first ones written. */
  predicate FillsFirst(prior: seq<Probe>, written: seq<Probe>) {
    var n := Least(|written|, |prior|);
    Overlaid(prior, written[..n])[..n] == written[..n]
  }

  lemma FillFirst(prior: seq<Probe>, written: seq<Probe>)
    ensures FillsFirst(prior, written) <==> forall i | 0 <= i < |written| && i < |prior| :: !Stale(prior[i], written[i])
  {
    var n := Least(|written|, |prior|);
    FillAgreesExactly(prior, written[..n]);
    assert forall i | 0 <= i < n :: written[..n][i] == written[i];
  }

  // ----- sizes -----

  function Total(lengths: seq<nat>): nat { if lengths == [] then 0 else lengths[0] + Total(lengths[1..]) }

  lemma {:induction false} TotalBound(lengths: seq<nat>, rows: nat, width: nat)
    requires |lengths| <= rows && forall i | 0 <= i < |lengths| :: lengths[i] <= width
    ensures Total(lengths) <= rows * width
    decreases |lengths|
  {
    if lengths == [] {
      assert 0 <= rows * width;
    } else {
      TotalBound(lengths[1..], rows - 1, width);
      assert rows * width == width + (rows - 1) * width;
    }
  }

  function CellCounts(matrix: seq<seq<int32>>): seq<nat> { seq(|matrix|, i requires 0 <= i < |matrix| => |matrix[i]|) }
  function SampleCounts(leaves: seq<Leaf>): seq<nat> {
    seq(|leaves|, i requires 0 <= i < |leaves| => |leaves[i].samples|)
  }

  lemma ArrayFits<T>(b: seq<byte>, slot: nat, stride: nat, item: nat -> Option<T>)
    requires 0 < stride && slot + 16 <= |b| && ArrayAt(b, slot, stride, item).Some?
    ensures |ArrayAt(b, slot, stride, item).value| <= |b| / stride
    ensures forall i: nat | i < |ArrayAt(b, slot, stride, item).value| ::
              item(Word(b, slot, 8) + i * stride) == Some(ArrayAt(b, slot, stride, item).value[i])
  {
    var p, n := Word(b, slot, 8), Word(b, slot + 8, 8);
    QuotientGuard(n, |b|, stride);
    GatherItems(n, ItemOf(item, p, stride));
    forall i: nat | i < n ensures item(p + i * stride) == Some(ArrayAt(b, slot, stride, item).value[i]) {
      assert ItemOf(item, p, stride)(i) == item(p + i * stride);
    }
  }

  function Product(m: nat, n: nat): nat { m * n }

  /** How much arrays of `outer` and `inner` bytes an item, one inside the other, can hold in n bytes. */
  function Nested(n: nat, outer: nat, inner: nat): nat
    requires 0 < outer && 0 < inner
  {
    Product(n / outer, n / inner)
  }

  function Cells(p: Probe): nat { Total(CellCounts(p.matrix)) }
  function Samples(p: Probe): nat { Total(SampleCounts(p.children)) }

  lemma LeafSampleBound(b: seq<byte>, at: nat)
    requires LeafAt(b, at).Some?
    ensures |LeafAt(b, at).value.samples| <= |b| / 8
  {
    ArrayFits(b, at + 24, 8, Uint64s(b));
  }

  lemma RowBound(b: seq<byte>, slot: nat)
    requires RowAt(b, slot).Some?
    ensures |RowAt(b, slot).value| <= |b| / 4
  {
    ArrayFits(b, slot, 4, Int32s(b));
  }

  lemma MatrixBound(b: seq<byte>, slot: nat)
    requires slot + 16 <= |b| && ArrayAt(b, slot, 16, Rows(b)).Some?
    ensures Total(CellCounts(ArrayAt(b, slot, 16, Rows(b)).value)) <= Nested(|b|, 16, 4)
  {
    var matrix := ArrayAt(b, slot, 16, Rows(b)).value;
    ArrayFits(b, slot, 16, Rows(b));
    forall i: nat | i < |matrix| ensures |matrix[i]| <= |b| / 4 {
      assert Rows(b)(Word(b, slot, 8) + i * 16) == Some(matrix[i]);
      RowBound(b, Word(b, slot, 8) + i * 16);
    }
    TotalBound(CellCounts(matrix), |b| / 16, |b| / 4);
  }

  lemma LeafRefBound(b: seq<byte>, at: nat, leaf: Leaf)
    requires LeafRefs(b)(at) == Some(leaf)
    ensures |leaf.samples| <= |b| / 8
  {
    LeafSampleBound(b, Word(b, at, 8));
  }

  lemma EachChildBound(b: seq<byte>, slot: nat)
    requires slot + 16 <= |b| && ArrayAt(b, slot, 8, LeafRefs(b)).Some?
    ensures var leaves := ArrayAt(b, slot, 8, LeafRefs(b)).value;
            |leaves| <= |b| / 8 && forall i: nat | i < |leaves| :: |leaves[i].samples| <= |b| / 8
  {
    var leaves := ArrayAt(b, slot, 8, LeafRefs(b)).value;
    ArrayFits(b, slot, 8, LeafRefs(b));
    forall i: nat | i < |leaves| ensures |leaves[i].samples| <= |b| / 8 {
      LeafRefBound(b, Word(b, slot, 8) + i * 8, leaves[i]);
    }
  }

  lemma ChildrenBound(b: seq<byte>, slot: nat)
    requires slot + 16 <= |b| && ArrayAt(b, slot, 8, LeafRefs(b)).Some?
    ensures Total(SampleCounts(ArrayAt(b, slot, 8, LeafRefs(b)).value)) <= Nested(|b|, 8, 8)
  {
    EachChildBound(b, slot);
    TotalBound(SampleCounts(ArrayAt(b, slot, 8, LeafRefs(b)).value), |b| / 8, |b| / 8);
  }

  lemma GroupsOf(b: seq<byte>, at: nat)
    requires ProbeAt(b, at).Some?
    ensures at + PROBE_SIZE <= |b| && LeavesAt(b, at).Some? && OthersAt(b, at).Some?
    ensures ProbeAt(b, at).value.children == LeavesAt(b, at).value.children
    ensures ProbeAt(b, at).value.matrix == OthersAt(b, at).value.matrix
  {}

  lemma OthersBound(b: seq<byte>, at: nat)
    requires at + PROBE_SIZE <= |b| && OthersAt(b, at).Some?
    ensures Total(CellCounts(OthersAt(b, at).value.matrix)) <= Nested(|b|, 16, 4)
  {
    MatrixBound(b, at + 144);
  }

  lemma LeavesBound(b: seq<byte>, at: nat)
    requires at + PROBE_SIZE <= |b| && LeavesAt(b, at).Some?
    ensures Total(SampleCounts(LeavesAt(b, at).value.children)) <= Nested(|b|, 8, 8)
  {
    ChildrenBound(b, at + 88);
  }

  /** However the offsets of a buffer overlap, what one probe of it decodes to is bounded by its length. */
  lemma ProbeBound(b: seq<byte>, at: nat)
    requires ProbeAt(b, at).Some?
    ensures Cells(ProbeAt(b, at).value) <= Nested(|b|, 16, 4)
    ensures Samples(ProbeAt(b, at).value) <= Nested(|b|, 8, 8)
  {
    GroupsOf(b, at);
    OthersBound(b, at);
    LeavesBound(b, at);
  }

  function CellTotals(ps: seq<Probe>): seq<nat> { seq(|ps|, i requires 0 <= i < |ps| => Cells(ps[i])) }
  function SampleTotals(ps: seq<Probe>): seq<nat> { seq(|ps|, i requires 0 <= i < |ps| => Samples(ps[i])) }

  lemma RootBound(b: seq<byte>, slot: nat)
    requires ProbeRefAt(b, slot).Some?
    ensures Cells(ProbeRefAt(b, slot).value) <= Nested(|b|, 16, 4)
    ensures Samples(ProbeRefAt(b, slot).value) <= Nested(|b|, 8, 8)
  {
    ProbeBound(b, Word(b, slot, 8));
  }

  lemma RootsBound(b: seq<byte>, p: nat, n: nat)
    requires Gather(n, ItemOf(ProbeRefs(b), p, 8)).Some?
    ensures forall i: nat | i < n :: var root := Gather(n, ItemOf(ProbeRefs(b), p, 8)).value[i];
                                     Cells(root) <= Nested(|b|, 16, 4) && Samples(root) <= Nested(|b|, 8, 8)
  {
    var item := ItemOf(ProbeRefs(b), p, 8);
    GatherItems(n, item);
    forall i: nat | i < n
      ensures var root := Gather(n, item).value[i];
              Cells(root) <= Nested(|b|, 16, 4) && Samples(root) <= Nested(|b|, 8, 8)
    {
      assert item(i) == ProbeRefAt(b, p + i * 8);
      RootBound(b, p + i * 8);
    }
  }

  /** A batch repeats the bound once for each of its at most |b| / 8 roots. */
  lemma BatchBound(b: seq<byte>)
    requires Probes(b).Some?
    ensures Total(CellTotals(Probes(b).value)) <= Product(|b| / 8, Nested(|b|, 16, 4))
    ensures Total(SampleTotals(Probes(b).value)) <= Product(|b| / 8, Nested(|b|, 8, 8))
  {
    var h, ps := HeaderAt(b, LAYOUT).value, Probes(b).value;
    QuotientGuard(h.1, |b|, 8);
    RootsBound(b, h.0, h.1);
    TotalBound(CellTotals(ps), |b| / 8, Nested(|b|, 16, 4));
    TotalBound(SampleTotals(ps), |b| / 8, Nested(|b|, 8, 8));
  }
}
