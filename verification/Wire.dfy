/** Little-endian words and the records they are read from. */
module Wire {
  import opened Wrappers

  newtype uint64 = x: int | 0 <= x < 0x1_0000_0000_0000_0000
  newtype byte = x: int | 0 <= x < 0x100

  /** A Go byte slice: its length fits an int. */
  const MAX_INT: nat := 0x7fff_ffff_ffff_ffff
  type Buffer = b: seq<byte> | |b| <= MAX_INT

  function Pow256(n: nat): nat { if n == 0 then 1 else 256 * Pow256(n - 1) }

  function FromLE(bs: seq<byte>): (v: nat)
    ensures v < Pow256(|bs|)
  {
    if bs == [] then 0 else bs[0] as nat + 256 * FromLE(bs[1..])
  }

  function ToLE(v: nat, width: nat): (bs: seq<byte>)
    ensures |bs| == width
  {
    if width == 0 then [] else [(v % 256) as byte] + ToLE(v / 256, width - 1)
  }

  lemma {:induction false} WordRoundTrip(v: nat, width: nat)
    requires v < Pow256(width)
    ensures FromLE(ToLE(v, width)) == v
  {
    if width > 0 {
      assert ToLE(v, width)[1..] == ToLE(v / 256, width - 1);
      WordRoundTrip(v / 256, width - 1);
    }
  }

  lemma {:induction false} FromLEAppend(bs: seq<byte>, b: byte)
    ensures FromLE(bs + [b]) == FromLE(bs) + b as nat * Pow256(|bs|)
  {
    if bs == [] {
      assert [b][1..] == [];
    } else {
      assert (bs + [b])[1..] == bs[1..] + [b];
      FromLEAppend(bs[1..], b);
      var p := Pow256(|bs| - 1);
      assert b as nat * (256 * p) == 256 * (b as nat * p);
    }
  }

  lemma Widths()
    ensures Pow256(1) == 0x100 && Pow256(2) == 0x1_0000 && Pow256(4) == 0x1_0000_0000
    ensures Pow256(8) == 0x1_0000_0000_0000_0000
  {
    assert Pow256(2) == 256 * Pow256(1);
    assert Pow256(4) == 256 * (256 * Pow256(2));
    assert Pow256(6) == 256 * (256 * Pow256(4));
    assert Pow256(8) == 256 * (256 * Pow256(6));
  }

  // ----- signed words -----

  newtype int16 = x: int | -0x8000 <= x < 0x8000
  newtype int32 = x: int | -0x8000_0000 <= x < 0x8000_0000

  function ToInt16(w: nat): int16
    requires w < 0x1_0000
  {
    (if w < 0x8000 then w else w - 0x1_0000) as int16
  }

  function FromInt16(v: int16): nat { if v >= 0 then v as nat else (v as int + 0x1_0000) as nat }

  function ToInt32(w: nat): int32
    requires w < 0x1_0000_0000
  {
    (if w < 0x8000_0000 then w else w - 0x1_0000_0000) as int32
  }

  function FromInt32(v: int32): nat { if v >= 0 then v as nat else (v as int + 0x1_0000_0000) as nat }

  // ----- reading -----

  function Word(b: seq<byte>, at: nat, width: nat): (w: nat)
    requires at + width <= |b|
    ensures w < Pow256(width)
  {
    FromLE(b[at..at + width])
  }

  /** `length` bytes at `offset`, or nothing when they do not all lie inside the buffer. */
  function BytesAt(b: seq<byte>, offset: nat, length: nat): Option<seq<byte>> {
    if offset + length <= |b| then Some(b[offset..offset + length]) else None
  }

  /** A slot of sixteen bytes holds the offset and the length of a run of bytes. */
  function TextAt(b: seq<byte>, slot: nat): Option<seq<byte>>
    requires slot + 16 <= |b|
  {
    BytesAt(b, Word(b, slot, 8), Word(b, slot + 8, 8))
  }

  /** Offset 0 says that there is nothing; the length is then not looked at. */
  function OptTextAt(b: seq<byte>, slot: nat): Option<Option<seq<byte>>>
    requires slot + 16 <= |b|
  {
    if Word(b, slot, 8) == 0 then Some(None)
    else
      var t :- TextAt(b, slot);
      Some(Some(t))
  }

  /** The first n items, or nothing when one of them cannot be read. */
  function Gather<T>(n: nat, item: nat -> Option<T>): (r: Option<seq<T>>)
    ensures r.Some? ==> |r.value| == n
  {
    if n == 0 then Some([])
    else
      var xs :- Gather(n - 1, item);
      var x :- item(n - 1);
      Some(xs + [x])
  }

  /** Item i of an array of items `stride` bytes apart. */
  function ItemOf<T>(item: nat -> Option<T>, p: nat, stride: nat): nat -> Option<T> {
    (i: nat) => item(p + i * stride)
  }

  /** A slot holds the offset and the count of an array whose items are `stride` bytes apart. */
  function ArrayAt<T>(b: seq<byte>, slot: nat, stride: nat, item: nat -> Option<T>): Option<seq<T>>
    requires slot + 16 <= |b|
  {
    var p, n := Word(b, slot, 8), Word(b, slot + 8, 8);
    if p + n * stride <= |b| then Gather(n, ItemOf(item, p, stride)) else None
  }

  lemma GatherNext<T>(n: nat, item: nat -> Option<T>, xs: seq<T>, x: T)
    requires Gather(n, item) == Some(xs) && item(n) == Some(x)
    ensures Gather(n + 1, item) == Some(xs + [x])
  {}

  lemma {:induction false} GatherIs<T>(n: nat, item: nat -> Option<T>, xs: seq<T>)
    requires |xs| == n && forall i: nat | i < n :: item(i) == Some(xs[i])
    ensures Gather(n, item) == Some(xs)
  {
    if n > 0 {
      GatherIs(n - 1, item, xs[..n - 1]);
      assert xs[..n - 1] + [xs[n - 1]] == xs;
    }
  }

  lemma {:induction false} GatherItems<T>(n: nat, item: nat -> Option<T>)
    requires Gather(n, item).Some?
    ensures forall i: nat | i < n :: item(i) == Some(Gather(n, item).value[i])
  {
    if n > 0 { GatherItems(n - 1, item); }
  }

  lemma {:induction false} GatherFails<T>(n: nat, item: nat -> Option<T>, i: nat)
    requires i < n && item(i).None?
    ensures Gather(n, item).None?
  {
    if i < n - 1 { GatherFails(n - 1, item, i); }
  }
}
