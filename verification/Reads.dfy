/** What the decoders make of any bytes, whoever wrote them: which buffers they refuse, and which bytes each
    field is read from. */
module Reads {
  import opened Wrappers
  import opened Wire
  import opened Records

  // ----- the header -----

  /** The magic and its version as they stand in a buffer: "ZIGO" and a 2. */
  const ZIGO: seq<byte> := [0x5a, 0x49, 0x47, 0x4f, 0x02, 0x00, 0x00, 0x00]

  lemma {:induction false} FromLEInjective(a: seq<byte>, b: seq<byte>)
    requires |a| == |b| && FromLE(a) == FromLE(b)
    ensures a == b
  {
    if a != [] {
      FromLEInjective(a[1..], b[1..]);
      assert a == [a[0]] + a[1..] && b == [b[0]] + b[1..];
    }
  }

  lemma MagicBytes()
    ensures FromLE(ZIGO) == 0x0002_4f47_495a
  {
    var z3, z2, z1: seq<byte> := [0x00, 0x00, 0x00], [0x00, 0x00], [0x00];
    assert z1[1..] == [] && z2[1..] == z1 && z3[1..] == z2;
    assert FromLE(z3) == 0;
    var v, o, g, i: seq<byte> := [0x02] + z3, [0x4f, 0x02] + z3, [0x47, 0x4f, 0x02] + z3, [0x49, 0x47, 0x4f, 0x02] + z3;
    assert v[1..] == z3 && o[1..] == v && g[1..] == o && i[1..] == g && ZIGO[1..] == i;
    assert FromLE(v) == 0x02 && FromLE(o) == 0x024f && FromLE(g) == 0x02_4f47 && FromLE(i) == 0x024f_4749;
  }

  /** A header is accepted exactly when the buffer holds forty bytes, begins with the magic, names this layout and
      its own length. */
  lemma HeaderExactly(b: seq<byte>, layout: nat)
    ensures HeaderAt(b, layout).Some? <==>
            |b| >= 40 && b[..8] == ZIGO && FromLE(b[8..16]) == layout && FromLE(b[32..40]) == |b|
    ensures HeaderAt(b, layout).Some? ==> HeaderAt(b, layout) == Some((FromLE(b[24..32]), FromLE(b[16..24])))
  {
    MagicBytes();
    if |b| >= 40 && FromLE(b[..8]) == FromLE(ZIGO) { FromLEInjective(b[..8], ZIGO); }
  }

  /** A buffer whose magic, layout or length word is wrong decodes to nothing. */
  lemma ForeignRefused(b: seq<byte>)
    requires |b| < 40 || b[..8] != ZIGO || FromLE(b[8..16]) != 1 || FromLE(b[32..40]) != |b|
    ensures OneProbe(b).None? && Probes(b).None?
  {
    HeaderExactly(b, 1);
  }

  // ----- the fields -----

  /** The run of bytes that the word at `slot` leads to, as long as the next word says, lies in the buffer. */
  predicate RunInside(b: seq<byte>, slot: nat, stride: nat)
    requires slot + 16 <= |b|
  {
    FromLE(b[slot..slot + 8]) + FromLE(b[slot + 8..slot + 16]) * stride <= |b|
  }

  function RunOf(b: seq<byte>, slot: nat): seq<byte>
    requires slot + 16 <= |b| && RunInside(b, slot, 1)
  {
    var p := FromLE(b[slot..slot + 8]);
    b[p..p + FromLE(b[slot + 8..slot + 16])]
  }

  lemma TextReads(b: seq<byte>, slot: nat)
    requires slot + 16 <= |b|
    ensures TextAt(b, slot) == if RunInside(b, slot, 1) then Some(RunOf(b, slot)) else None
    ensures OptTextAt(b, slot) == if FromLE(b[slot..slot + 8]) == 0 then Some(None)
                                  else if RunInside(b, slot, 1) then Some(Some(RunOf(b, slot))) else None
  {}

  lemma {:induction false} GatherAll<T>(n: nat, item: nat -> Option<T>)
    ensures Gather(n, item).Some? <==> forall i | 0 <= i < n :: item(i).Some?
    ensures Gather(n, item).Some? ==> forall i | 0 <= i < n :: item(i) == Some(Gather(n, item).value[i])
  {
    if n > 0 { GatherAll(n - 1, item); }
  }

  /** An array is read exactly when its run lies in the buffer and each of its items can be read. */
  lemma ArrayReads<T>(b: seq<byte>, slot: nat, stride: nat, item: nat -> Option<T>, p: nat, n: nat)
    requires slot + 16 <= |b| && p == FromLE(b[slot..slot + 8]) && n == FromLE(b[slot + 8..slot + 16])
    ensures ArrayAt(b, slot, stride, item).Some? <==>
            p + n * stride <= |b| && forall i | 0 <= i < n :: ItemOf(item, p, stride)(i).Some?
    ensures ArrayAt(b, slot, stride, item).Some? ==>
              var xs := ArrayAt(b, slot, stride, item).value;
              |xs| == n && forall i | 0 <= i < n :: ItemOf(item, p, stride)(i) == Some(xs[i])
  {
    GatherAll(n, ItemOf(item, p, stride));
  }

  lemma OneByte(b: seq<byte>, at: nat)
    requires at < |b|
    ensures Word(b, at, 1) == b[at] as nat
  {
    assert b[at..at + 1] == [b[at]] && [b[at]][1..] == [];
  }

  lemma FlagReads(b: seq<byte>, at: nat)
    ensures BoolAt(b, at) == if at < |b| then Some(b[at] != 0) else None
  {
    if at < |b| { OneByte(b, at); }
  }

  /** The 32-bit word in two's complement. */
  lemma SignedReads(b: seq<byte>, at: nat)
    requires at + 4 <= |b|
    ensures var w := FromLE(b[at..at + 4]);
            Signed(b, at) as int == if w < 0x8000_0000 then w else w - 0x1_0000_0000
  {
    Widths();
  }

  /** A leaf is read exactly when its 56 bytes, its text, its samples and, when it has one, its alias lie in the
      buffer; any flag byte but zero enables it. */
  lemma LeafReads(b: seq<byte>, at: nat)
    ensures LeafAt(b, at).Some? <==>
            && at + 56 <= |b| && RunInside(b, at + 8, 1) && ArrayAt(b, at + 24, 8, Uint64s(b)).Some?
            && (FromLE(b[at + 40..at + 48]) != 0 ==> RunInside(b, at + 40, 1))
    ensures LeafAt(b, at).Some? ==>
              var leaf := LeafAt(b, at).value;
              && leaf.value == Signed(b, at) && (leaf.enabled <==> b[at + 4] != 0)
              && leaf.text == RunOf(b, at + 8) && Some(leaf.samples) == ArrayAt(b, at + 24, 8, Uint64s(b))
              && leaf.alias == if FromLE(b[at + 40..at + 48]) == 0 then None else Some(RunOf(b, at + 40))
  {
    if at + 56 <= |b| {
      TextReads(b, at + 8);
      TextReads(b, at + 40);
      OneByte(b, at + 4);
    }
  }

  /** The words and bytes in the probe itself: any flag byte but zero counts as set. */
  lemma ProbeReads(b: seq<byte>, at: nat)
    requires ProbeAt(b, at).Some?
    ensures at + 200 <= |b|
    ensures var p := ProbeAt(b, at).value;
            && p.id as nat == FromLE(b[at..at + 8]) && (p.active <==> b[at + 8] != 0) && p.status == b[at + 9]
            && (p.weight.Some? <==> b[at + 104] != 0)
            && (p.weight.Some? ==> p.weight.value as nat == FromLE(b[at + 112..at + 120]))
            && p.originX == Signed(b, at + 136) && p.originY == Signed(b, at + 140)
  {
    OneByte(b, at + 8);
    OneByte(b, at + 9);
    OneByte(b, at + 104);
  }

  /** A probe is refused only when something it leads to is. */
  lemma ProbeReadsExactly(b: seq<byte>, at: nat)
    ensures ProbeAt(b, at).Some? <==>
            && at + 200 <= |b|
            && TextAt(b, at + 16).Some? && ArrayAt(b, at + 32, 2, Int16s(b)).Some?
            && ArrayAt(b, at + 48, 16, Tags(b)).Some? && LeafAt(b, FromLE(b[at + 64..at + 72])).Some?
            && LeafAt(b, FromLE(b[at + 72..at + 80])).Some? && OptLeafAt(b, at + 80).Some?
            && ArrayAt(b, at + 88, 8, LeafRefs(b)).Some? && OptTextAt(b, at + 120).Some?
            && ArrayAt(b, at + 144, 16, Rows(b)).Some? && TextAt(b, at + 160).Some?
            && ArrayAt(b, at + 176, 1, Bools(b)).Some? && OptLeafAt(b, at + 192).Some?
  {}
}
