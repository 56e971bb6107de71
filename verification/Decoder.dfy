/** The decoder as the generated package runs it, in 64-bit arithmetic that never wraps, proved against
    the reading of records.  None and false stand for the invalid-buffer panic. */
module Decoder {
  import opened Wrappers
  import opened Wire
  import opened Records

  /** A Go pointer to a variable. */
  class Ref<T> {
    var it: T

    constructor (it: T)
      ensures this.it == it
    {
      this.it := it;
    }
  }

  // ----- guarded reads -----

  function MaterializedU64(buffer: Buffer, offset: uint64): (r: Option<uint64>)
    ensures r.Some? <==> offset as nat + 8 <= |buffer|
    ensures r.Some? ==> r.value as nat == Word(buffer, offset as nat, 8)
  {
    if offset > |buffer| as uint64 || |buffer| as uint64 - offset < 8 then None
    else
      Widths();
      Some(FromLE(buffer[offset as int..offset as int + 8]) as uint64)
  }

  function MaterializedBytes(buffer: Buffer, offset: uint64, length: uint64): (r: Option<seq<byte>>)
    ensures r == BytesAt(buffer, offset as nat, length as nat)
  {
    if offset > |buffer| as uint64 || length > |buffer| as uint64 - offset then None
    else Some(buffer[offset as int..(offset + length) as int])
  }

  lemma {:induction false} Pow256Grows(m: nat, n: nat)
    requires m <= n
    ensures Pow256(m) <= Pow256(n)
  {
    if m < n { Pow256Grows(m, n - 1); }
  }

  /** Shifting a byte past the bytes already read and or-ing it in adds it at its weight. */
  method MaterializedWord(buffer: Buffer, offset: uint64, width: uint64) returns (r: Option<uint64>)
    requires width <= 8
    ensures r.Some? <==> offset as nat + width as nat <= |buffer|
    ensures r.Some? ==> r.value as nat == Word(buffer, offset as nat, width as nat)
  {
    var bytes := MaterializedBytes(buffer, offset, width);
    if bytes.None? { return None; }
    Widths();
    var value: uint64 := 0;
    for i := 0 to |bytes.value|
      invariant value as nat == FromLE(bytes.value[..i])
    {
      var taken := bytes.value[..i + 1];
      assert taken == bytes.value[..i] + [bytes.value[i]];
      FromLEAppend(bytes.value[..i], bytes.value[i]);
      Pow256Grows(|taken|, 8);
      value := value + (bytes.value[i] as nat * Pow256(i)) as uint64;
    }
    assert bytes.value[..|bytes.value|] == bytes.value;
    return Some(value);
  }

  lemma QuotientGuard(count: nat, room: nat, stride: nat)
    requires stride > 0
    ensures count <= room / stride <==> count * stride <= room
  {
    if count <= room / stride {
      assert count * stride <= (room / stride) * stride <= room;
    } else {
      assert (room / stride + 1) * stride > room;
      assert count * stride >= (room / stride + 1) * stride;
    }
  }

  function MaterializedArray(buffer: Buffer, offset: uint64, count: uint64, stride: uint64): (r: Option<seq<byte>>)
    requires stride > 0
    ensures r == BytesAt(buffer, offset as nat, count as nat * stride as nat)
  {
    if offset > |buffer| as uint64 then None
    else
      var room := |buffer| as uint64 - offset;
      QuotientGuard(count as nat, room as nat, stride as nat);
      if count > room / stride then None else MaterializedBytes(buffer, offset, count * stride)
  }

  function MaterializedHeader(buffer: Buffer, layout: uint64): (r: Option<(uint64, uint64)>)
    ensures r.Some? <==> HeaderAt(buffer, layout as nat).Some?
    ensures r.Some? ==> HeaderAt(buffer, layout as nat) == Some((r.value.0 as nat, r.value.1 as nat))
  {
    if |buffer| < 40 || MaterializedU64(buffer, 0).value != MAGIC as uint64
       || MaterializedU64(buffer, 8).value != layout
       || MaterializedU64(buffer, 32).value != |buffer| as uint64 then None
    else Some((MaterializedU64(buffer, 24).value, MaterializedU64(buffer, 16).value))
  }

  // ----- arrays -----

  lemma ItemInside(size: nat, p: nat, i: nat, count: nat, stride: nat)
    requires p + count * stride <= size && i < count
    ensures p + i * stride + stride <= size
  {
    assert (i + 1) * stride <= count * stride;
  }

  /** Item i of an array that passed the guard lies inside the buffer, and its address does not wrap. */
  function ItemOffset(off: uint64, i: nat, stride: uint64, ghost count: nat, ghost size: nat): (at: uint64)
    requires 0 < stride && i < count && off as nat + count * stride as nat <= size <= MAX_INT
    ensures at as nat == off as nat + i * stride as nat && at as nat + stride as nat <= size
  {
    ItemInside(size, off as nat, i, count, stride as nat);
    assert i <= i * stride as nat;
    off + i as uint64 * stride
  }

  method FillSample(buffer: Buffer, off: uint64, i: nat, samples: array<uint64>)
    requires i < samples.Length && off as nat + samples.Length * 8 <= |buffer|
    modifies samples
    ensures ItemOf(Uint64s(buffer), off as nat, 8)(i) == Some(samples[i])
    ensures samples[..] == old(samples[..])[i := samples[i]]
  {
    Widths();
    var at := ItemOffset(off, i, 8, samples.Length, |buffer|);
    samples[i] := MaterializedU64(buffer, at).value;
  }

  method DecodeSamples(buffer: Buffer, slot: uint64) returns (r: Option<seq<uint64>>)
    requires slot as nat + 16 <= |buffer|
    ensures r == ArrayAt(buffer, slot as nat, 8, Uint64s(buffer))
  {
    var off, count := MaterializedU64(buffer, slot).value, MaterializedU64(buffer, slot + 8).value;
    if MaterializedArray(buffer, off, count, 8).None? { return None; }
    var samples := new uint64[count as int](_ => 0);
    ghost var item := ItemOf(Uint64s(buffer), off as nat, 8);
    ghost var done: seq<uint64> := [];
    for i := 0 to samples.Length
      invariant Gather(i, item) == Some(done) && samples[..i] == done
    {
      FillSample(buffer, off, i, samples);
      GatherNext(i, item, done, samples[i]);
      assert samples[..i + 1] == samples[..][..i + 1];
      done := done + [samples[i]];
    }
    assert samples[..samples.Length] == samples[..];
    return Some(samples[..]);
  }

  method FillCode(buffer: Buffer, off: uint64, i: nat, codes: array<int16>)
    requires i < codes.Length && off as nat + codes.Length * 2 <= |buffer|
    modifies codes
    ensures ItemOf(Int16s(buffer), off as nat, 2)(i) == Some(codes[i])
    ensures codes[..] == old(codes[..])[i := codes[i]]
  {
    Widths();
    var at := ItemOffset(off, i, 2, codes.Length, |buffer|);
    var word := MaterializedWord(buffer, at, 2);
    codes[i] := ToInt16(word.value as nat);
  }

  method DecodeCodes(buffer: Buffer, slot: uint64) returns (r: Option<seq<int16>>)
    requires slot as nat + 16 <= |buffer|
    ensures r == ArrayAt(buffer, slot as nat, 2, Int16s(buffer))
  {
    var off, count := MaterializedU64(buffer, slot).value, MaterializedU64(buffer, slot + 8).value;
    if MaterializedArray(buffer, off, count, 2).None? { return None; }
    var codes := new int16[count as int](_ => 0);
    ghost var item := ItemOf(Int16s(buffer), off as nat, 2);
    ghost var done: seq<int16> := [];
    for i := 0 to codes.Length
      invariant Gather(i, item) == Some(done) && codes[..i] == done
    {
      FillCode(buffer, off, i, codes);
      GatherNext(i, item, done, codes[i]);
      assert codes[..i + 1] == codes[..][..i + 1];
      done := done + [codes[i]];
    }
    assert codes[..codes.Length] == codes[..];
    return Some(codes[..]);
  }

  method FillCell(buffer: Buffer, off: uint64, i: nat, row: array<int32>)
    requires i < row.Length && off as nat + row.Length * 4 <= |buffer|
    modifies row
    ensures ItemOf(Int32s(buffer), off as nat, 4)(i) == Some(row[i])
    ensures row[..] == old(row[..])[i := row[i]]
  {
    Widths();
    var at := ItemOffset(off, i, 4, row.Length, |buffer|);
    var word := MaterializedWord(buffer, at, 4);
    row[i] := ToInt32(word.value as nat);
  }

  method DecodeRow(buffer: Buffer, slot: uint64) returns (r: Option<seq<int32>>)
    requires slot as nat + 16 <= |buffer|
    ensures r == ArrayAt(buffer, slot as nat, 4, Int32s(buffer))
  {
    var off, count := MaterializedU64(buffer, slot).value, MaterializedU64(buffer, slot + 8).value;
    if MaterializedArray(buffer, off, count, 4).None? { return None; }
    var row := new int32[count as int](_ => 0);
    ghost var item := ItemOf(Int32s(buffer), off as nat, 4);
    ghost var done: seq<int32> := [];
    for i := 0 to row.Length
      invariant Gather(i, item) == Some(done) && row[..i] == done
    {
      FillCell(buffer, off, i, row);
      GatherNext(i, item, done, row[i]);
      assert row[..i + 1] == row[..][..i + 1];
      done := done + [row[i]];
    }
    assert row[..row.Length] == row[..];
    return Some(row[..]);
  }

  method FillFlag(buffer: Buffer, off: uint64, i: nat, flags: array<bool>)
    requires i < flags.Length && off as nat + flags.Length * 1 <= |buffer|
    modifies flags
    ensures ItemOf(Bools(buffer), off as nat, 1)(i) == Some(flags[i])
    ensures flags[..] == old(flags[..])[i := flags[i]]
  {
    Widths();
    var at := ItemOffset(off, i, 1, flags.Length, |buffer|);
    var word := MaterializedWord(buffer, at, 1);
    flags[i] := word.value != 0;
  }

  method DecodeFlags(buffer: Buffer, slot: uint64) returns (r: Option<seq<bool>>)
    requires slot as nat + 16 <= |buffer|
    ensures r == ArrayAt(buffer, slot as nat, 1, Bools(buffer))
  {
    var off, count := MaterializedU64(buffer, slot).value, MaterializedU64(buffer, slot + 8).value;
    if MaterializedArray(buffer, off, count, 1).None? { return None; }
    var flags := new bool[count as int](_ => false);
    ghost var item := ItemOf(Bools(buffer), off as nat, 1);
    ghost var done: seq<bool> := [];
    for i := 0 to flags.Length
      invariant Gather(i, item) == Some(done) && flags[..i] == done
    {
      FillFlag(buffer, off, i, flags);
      GatherNext(i, item, done, flags[i]);
      assert flags[..i + 1] == flags[..][..i + 1];
      done := done + [flags[i]];
    }
    assert flags[..flags.Length] == flags[..];
    return Some(flags[..]);
  }

  method DecodeText(buffer: Buffer, slot: uint64) returns (r: Option<seq<byte>>)
    requires slot as nat + 16 <= |buffer|
    ensures r == TextAt(buffer, slot as nat)
  {
    r := MaterializedBytes(buffer, MaterializedU64(buffer, slot).value, MaterializedU64(buffer, slot + 8).value);
  }

  method FillTag(buffer: Buffer, off: uint64, i: nat, tags: array<seq<byte>>) returns (ok: bool)
    requires i < tags.Length && off as nat + tags.Length * 16 <= |buffer|
    modifies tags
    ensures var r := ItemOf(Tags(buffer), off as nat, 16)(i);
            && (ok <==> r.Some?)
            && (ok ==> tags[..] == old(tags[..])[i := r.value])
  {
    var slot := ItemOffset(off, i, 16, tags.Length, |buffer|);
    var item := DecodeText(buffer, slot);
    if item.None? { return false; }
    tags[i] := item.value;
    return true;
  }

  method FillTags(buffer: Buffer, off: uint64, tags: array<seq<byte>>) returns (ok: bool)
    requires off as nat + tags.Length * 16 <= |buffer|
    modifies tags
    ensures ok <==> Gather(tags.Length, ItemOf(Tags(buffer), off as nat, 16)).Some?
    ensures ok ==> Gather(tags.Length, ItemOf(Tags(buffer), off as nat, 16)) == Some(tags[..])
  {
    ghost var item := ItemOf(Tags(buffer), off as nat, 16);
    ghost var done: seq<seq<byte>> := [];
    for i := 0 to tags.Length
      invariant Gather(i, item) == Some(done) && tags[..i] == done
    {
      ok := FillTag(buffer, off, i, tags);
      if !ok {
        GatherFails(tags.Length, item, i);
        return false;
      }
      GatherNext(i, item, done, item(i).value);
      assert tags[..i + 1] == tags[..][..i + 1];
      done := done + [item(i).value];
    }
    assert tags[..tags.Length] == tags[..];
    return true;
  }

  method DecodeTags(buffer: Buffer, slot: uint64) returns (r: Option<seq<seq<byte>>>)
    requires slot as nat + 16 <= |buffer|
    ensures r == ArrayAt(buffer, slot as nat, 16, Tags(buffer))
  {
    var off, count := MaterializedU64(buffer, slot).value, MaterializedU64(buffer, slot + 8).value;
    if MaterializedArray(buffer, off, count, 16).None? { return None; }
    var tags := new seq<byte>[count as int](_ => []);
    var ok := FillTags(buffer, off, tags);
    return if ok then Some(tags[..]) else None;
  }

  method FillRow(buffer: Buffer, off: uint64, i: nat, matrix: array<seq<int32>>) returns (ok: bool)
    requires i < matrix.Length && off as nat + matrix.Length * 16 <= |buffer|
    modifies matrix
    ensures var r := ItemOf(Rows(buffer), off as nat, 16)(i);
            && (ok <==> r.Some?)
            && (ok ==> matrix[..] == old(matrix[..])[i := r.value])
  {
    var slot := ItemOffset(off, i, 16, matrix.Length, |buffer|);
    var item := DecodeRow(buffer, slot);
    if item.None? { return false; }
    matrix[i] := item.value;
    return true;
  }

  method FillMatrix(buffer: Buffer, off: uint64, matrix: array<seq<int32>>) returns (ok: bool)
    requires off as nat + matrix.Length * 16 <= |buffer|
    modifies matrix
    ensures ok <==> Gather(matrix.Length, ItemOf(Rows(buffer), off as nat, 16)).Some?
    ensures ok ==> Gather(matrix.Length, ItemOf(Rows(buffer), off as nat, 16)) == Some(matrix[..])
  {
    ghost var item := ItemOf(Rows(buffer), off as nat, 16);
    ghost var done: seq<seq<int32>> := [];
    for i := 0 to matrix.Length
      invariant Gather(i, item) == Some(done) && matrix[..i] == done
    {
      ok := FillRow(buffer, off, i, matrix);
      if !ok {
        GatherFails(matrix.Length, item, i);
        return false;
      }
      GatherNext(i, item, done, item(i).value);
      assert matrix[..i + 1] == matrix[..][..i + 1];
      done := done + [item(i).value];
    }
    assert matrix[..matrix.Length] == matrix[..];
    return true;
  }

  method DecodeMatrix(buffer: Buffer, slot: uint64) returns (r: Option<seq<seq<int32>>>)
    requires slot as nat + 16 <= |buffer|
    ensures r == ArrayAt(buffer, slot as nat, 16, Rows(buffer))
  {
    var off, count := MaterializedU64(buffer, slot).value, MaterializedU64(buffer, slot + 8).value;
    if MaterializedArray(buffer, off, count, 16).None? { return None; }
    var matrix := new seq<int32>[count as int](_ => []);
    var ok := FillMatrix(buffer, off, matrix);
    return if ok then Some(matrix[..]) else None;
  }

  // ----- records -----

  /** Decodes over what the variable holds: an absent alias keeps the variable's alias. */
  method DecodeLeafInto(buffer: Buffer, offset: uint64, result: Ref<Leaf>) returns (ok: bool)
    modifies result
    ensures ok <==> LeafAt(buffer, offset as nat).Some?
    ensures ok ==> result.it == LeafOver(old(result.it), LeafAt(buffer, offset as nat).value)
  {
    if MaterializedBytes(buffer, offset, 56).None? { return false; }
    Widths();
    var value := MaterializedWord(buffer, offset + 0, 4);
    result.it := result.it.(value := ToInt32(value.value as nat));
    var enabled := MaterializedWord(buffer, offset + 4, 1);
    result.it := result.it.(enabled := enabled.value != 0);
    var text := DecodeText(buffer, offset + 8);
    if text.None? { return false; }
    result.it := result.it.(text := text.value);
    var samples := DecodeSamples(buffer, offset + 24);
    if samples.None? { return false; }
    result.it := result.it.(samples := samples.value);
    var off := MaterializedU64(buffer, offset + 40).value;
    if off != 0 {
      var alias := MaterializedBytes(buffer, off, MaterializedU64(buffer, offset + 40 + 8).value);
      if alias.None? { return false; }
      result.it := result.it.(alias := Some(alias.value));
    }
    return true;
  }

  /** A fresh leaf, decoded behind a pointer. */
  method DecodeNewLeaf(buffer: Buffer, offset: uint64) returns (r: Option<Leaf>)
    ensures r == LeafAt(buffer, offset as nat)
  {
    var leaf := new Ref(ZERO_LEAF);
    var ok := DecodeLeafInto(buffer, offset, leaf);
    if !ok { return None; }
    return Some(leaf.it);
  }

  method DecodeLeafRef(buffer: Buffer, slot: uint64) returns (r: Option<Leaf>)
    requires slot as nat + 8 <= |buffer|
    ensures r == LeafRefAt(buffer, slot as nat)
  {
    r := DecodeNewLeaf(buffer, MaterializedU64(buffer, slot).value);
  }

  method FillChild(buffer: Buffer, off: uint64, i: nat, children: array<Leaf>) returns (ok: bool)
    requires i < children.Length && off as nat + children.Length * 8 <= |buffer|
    modifies children
    ensures var r := ItemOf(LeafRefs(buffer), off as nat, 8)(i);
            && (ok <==> r.Some?)
            && (ok ==> children[..] == old(children[..])[i := r.value])
  {
    var slot := ItemOffset(off, i, 8, children.Length, |buffer|);
    var item := DecodeLeafRef(buffer, slot);
    if item.None? { return false; }
    children[i] := item.value;
    return true;
  }

  method FillChildren(buffer: Buffer, off: uint64, children: array<Leaf>) returns (ok: bool)
    requires off as nat + children.Length * 8 <= |buffer|
    modifies children
    ensures ok <==> Gather(children.Length, ItemOf(LeafRefs(buffer), off as nat, 8)).Some?
    ensures ok ==> Gather(children.Length, ItemOf(LeafRefs(buffer), off as nat, 8)) == Some(children[..])
  {
    ghost var item := ItemOf(LeafRefs(buffer), off as nat, 8);
    ghost var done: seq<Leaf> := [];
    for i := 0 to children.Length
      invariant Gather(i, item) == Some(done) && children[..i] == done
    {
      ok := FillChild(buffer, off, i, children);
      if !ok {
        GatherFails(children.Length, item, i);
        return false;
      }
      GatherNext(i, item, done, item(i).value);
      assert children[..i + 1] == children[..][..i + 1];
      done := done + [item(i).value];
    }
    assert children[..children.Length] == children[..];
    return true;
  }

  method DecodeChildren(buffer: Buffer, slot: uint64) returns (r: Option<seq<Leaf>>)
    requires slot as nat + 16 <= |buffer|
    ensures r == ArrayAt(buffer, slot as nat, 8, LeafRefs(buffer))
  {
    var off, count := MaterializedU64(buffer, slot).value, MaterializedU64(buffer, slot + 8).value;
    if MaterializedArray(buffer, off, count, 8).None? { return None; }
    var children := new Leaf[count as int](_ => ZERO_LEAF);
    var ok := FillChildren(buffer, off, children);
    return if ok then Some(children[..]) else None;
  }

  // ----- probes -----

  method DecodeOptText(buffer: Buffer, slot: uint64) returns (r: Option<Option<seq<byte>>>)
    requires slot as nat + 16 <= |buffer|
    ensures r == OptTextAt(buffer, slot as nat)
  {
    var off := MaterializedU64(buffer, slot).value;
    if off == 0 { return Some(None); }
    var text := MaterializedBytes(buffer, off, MaterializedU64(buffer, slot + 8).value);
    if text.None? { return None; }
    return Some(Some(text.value));
  }

  method DecodeOptLeaf(buffer: Buffer, slot: uint64) returns (r: Option<Option<Leaf>>)
    requires slot as nat + 8 <= |buffer|
    ensures r == OptLeafAt(buffer, slot as nat)
  {
    var off := MaterializedU64(buffer, slot).value;
    if off == 0 { return Some(None); }
    var leaf := DecodeNewLeaf(buffer, off);
    if leaf.None? { return None; }
    return Some(Some(leaf.value));
  }

  method DecodeInt32(buffer: Buffer, offset: uint64) returns (v: int32)
    requires offset as nat + 4 <= |buffer|
    ensures v == Signed(buffer, offset as nat)
  {
    Widths();
    var word := MaterializedWord(buffer, offset, 4);
    return ToInt32(word.value as nat);
  }

  method DecodeLists(buffer: Buffer, offset: uint64, result: Ref<Probe>) returns (ok: bool)
    requires offset as nat + 200 <= |buffer|
    modifies result
    ensures ok <==> ListsAt(buffer, offset as nat).Some?
    ensures ok ==> var l := ListsAt(buffer, offset as nat).value;
                   result.it == old(result.it).(name := l.name, codes := l.codes, tags := l.tags)
  {
    var name := DecodeText(buffer, offset + 16);
    if name.None? { return false; }
    result.it := result.it.(name := name.value);
    var codes := DecodeCodes(buffer, offset + 32);
    if codes.None? { return false; }
    result.it := result.it.(codes := codes.value);
    var tags := DecodeTags(buffer, offset + 48);
    if tags.None? { return false; }
    result.it := result.it.(tags := tags.value);
    return true;
  }

  method DecodeLeaves(buffer: Buffer, offset: uint64, result: Ref<Probe>) returns (ok: bool)
    requires offset as nat + 200 <= |buffer|
    modifies result
    ensures ok <==> LeavesAt(buffer, offset as nat).Some?
    ensures ok ==> var e := LeavesAt(buffer, offset as nat).value;
                   result.it == old(result.it).(embedded := LeafOver(old(result.it).embedded, e.embedded),
                                                child := e.child, maybe := Kept(old(result.it).maybe, e.maybe),
                                                children := e.children)
  {
    var embedded := new Ref(result.it.embedded);
    ok := DecodeLeafInto(buffer, MaterializedU64(buffer, offset + 64).value, embedded);
    result.it := result.it.(embedded := embedded.it);
    if !ok { return false; }
    var child := DecodeLeafRef(buffer, offset + 72);
    if child.None? { return false; }
    result.it := result.it.(child := child.value);
    var maybe := DecodeOptLeaf(buffer, offset + 80);
    if maybe.None? { return false; }
    if maybe.value.Some? { result.it := result.it.(maybe := maybe.value); }
    var children := DecodeChildren(buffer, offset + 88);
    if children.None? { return false; }
    result.it := result.it.(children := children.value);
    return true;
  }

  /** The optional weight, the optional note and the point. */
  method DecodeInline(buffer: Buffer, offset: uint64, result: Ref<Probe>) returns (ok: bool)
    requires offset as nat + 200 <= |buffer|
    modifies result
    ensures ok <==> OptTextAt(buffer, offset as nat + 120).Some?
    ensures ok ==> result.it == old(result.it).(
                     weight := Kept(old(result.it).weight, WeightAt(buffer, offset as nat + 104)),
                     note := Kept(old(result.it).note, OptTextAt(buffer, offset as nat + 120).value),
                     originX := Signed(buffer, offset as nat + 136), originY := Signed(buffer, offset as nat + 140))
  {
    var weighted := MaterializedWord(buffer, offset + 104, 1);
    if weighted.value != 0 {
      result.it := result.it.(weight := Some(MaterializedU64(buffer, offset + 104 + 8).value));
    }
    var note := DecodeOptText(buffer, offset + 120);
    if note.None? { return false; }
    if note.value.Some? { result.it := result.it.(note := note.value); }
    DecodePoint(buffer, offset + 136, result);
    return true;
  }

  method DecodePoint(buffer: Buffer, offset: uint64, result: Ref<Probe>)
    requires offset as nat + 8 <= |buffer|
    modifies result
    ensures result.it == old(result.it).(originX := Signed(buffer, offset as nat),
                                         originY := Signed(buffer, offset as nat + 4))
  {
    var x := DecodeInt32(buffer, offset + 0);
    var y := DecodeInt32(buffer, offset + 4);
    result.it := result.it.(originX := x, originY := y);
  }

  method DecodeOthers(buffer: Buffer, offset: uint64, result: Ref<Probe>) returns (ok: bool)
    requires offset as nat + 200 <= |buffer|
    modifies result
    ensures ok <==> OthersAt(buffer, offset as nat).Some?
    ensures ok ==> var o := OthersAt(buffer, offset as nat).value;
                   result.it == old(result.it).(matrix := o.matrix, raw := o.raw, flags := o.flags,
                                                spare := Kept(old(result.it).spare, o.spare))
  {
    var matrix := DecodeMatrix(buffer, offset + 144);
    if matrix.None? { return false; }
    result.it := result.it.(matrix := matrix.value);
    var raw := DecodeText(buffer, offset + 160);
    if raw.None? { return false; }
    result.it := result.it.(raw := raw.value);
    ok := DecodeMarks(buffer, offset, result);
  }

  /** The flags and the spare leaf. */
  method DecodeMarks(buffer: Buffer, offset: uint64, result: Ref<Probe>) returns (ok: bool)
    requires offset as nat + 200 <= |buffer|
    modifies result
    ensures ok <==> ArrayAt(buffer, offset as nat + 176, 1, Bools(buffer)).Some?
                    && OptLeafAt(buffer, offset as nat + 192).Some?
    ensures ok ==> result.it == old(result.it).(
                     flags := ArrayAt(buffer, offset as nat + 176, 1, Bools(buffer)).value,
                     spare := Kept(old(result.it).spare, OptLeafAt(buffer, offset as nat + 192).value))
  {
    var flags := DecodeFlags(buffer, offset + 176);
    if flags.None? { return false; }
    result.it := result.it.(flags := flags.value);
    var spare := DecodeOptLeaf(buffer, offset + 192);
    if spare.None? { return false; }
    if spare.value.Some? { result.it := result.it.(spare := spare.value); }
    return true;
  }

  /** Decodes over what the variable holds: absent optionals keep the variable's values. */
  method DecodeProbeInto(buffer: Buffer, offset: uint64, result: Ref<Probe>) returns (ok: bool)
    modifies result
    ensures ok <==> ProbeAt(buffer, offset as nat).Some?
    ensures ok ==> result.it == ProbeOver(old(result.it), ProbeAt(buffer, offset as nat).value)
  {
    if MaterializedBytes(buffer, offset, 200).None? { return false; }
    Widths();
    result.it := result.it.(id := MaterializedU64(buffer, offset + 0).value);
    var active := MaterializedWord(buffer, offset + 8, 1);
    var status := MaterializedWord(buffer, offset + 9, 1);
    result.it := result.it.(active := active.value != 0, status := status.value as byte);
    ok := DecodeLists(buffer, offset, result);
    if !ok { return false; }
    ok := DecodeLeaves(buffer, offset, result);
    if !ok { return false; }
    ok := DecodeInline(buffer, offset, result);
    if !ok { return false; }
    ok := DecodeOthers(buffer, offset, result);
  }

  // ----- buffers -----

  method DecodeProbeBuffer(buffer: Buffer) returns (r: Option<Probe>)
    ensures r == OneProbe(buffer)
  {
    var header := MaterializedHeader(buffer, 1);
    if header.None? || header.value.1 != 1 { return None; }
    var result := new Ref(ZERO_PROBE);
    var ok := DecodeProbeInto(buffer, header.value.0, result);
    if !ok { return None; }
    return Some(result.it);
  }

  /** The first n roots decoded over the first n entries of `prior`; the rest of `prior` as it was. */
  function Overlaid(prior: seq<Probe>, decoded: seq<Probe>): (r: seq<Probe>)
    requires |decoded| <= |prior|
  {
    seq(|prior|, i requires 0 <= i < |prior| => if i < |decoded| then ProbeOver(prior[i], decoded[i]) else prior[i])
  }

  method DecodeRoot(buffer: Buffer, offset: uint64, i: nat, count: nat, output: array<Probe>) returns (ok: bool)
    requires i < count <= output.Length && offset as nat + count * 8 <= |buffer|
    modifies output
    ensures var r := ItemOf(ProbeRefs(buffer), offset as nat, 8)(i);
            && (ok <==> r.Some?)
            && (ok ==> output[..] == old(output[..])[i := ProbeOver(old(output[i]), r.value)])
  {
    var slot := ItemOffset(offset, i, 8, count, |buffer|);
    var result := new Ref(output[i]);
    ok := DecodeProbeInto(buffer, MaterializedU64(buffer, slot).value, result);
    output[i] := result.it;
    assert ItemOf(ProbeRefs(buffer), offset as nat, 8)(i) == ProbeRefAt(buffer, slot as nat);
  }

  /** One turn of the loop below: the entry after those decoded is decoded over what it holds. */
  lemma OverlaidNext(prior: seq<Probe>, before: seq<Probe>, after: seq<Probe>, done: seq<Probe>, next: Probe)
    requires |done| < |prior| && before == Overlaid(prior, done)
    requires after == before[|done| := ProbeOver(before[|done|], next)]
    ensures after == Overlaid(prior, done + [next])
  {}

  /** The loop both batch decoders run over their roots. */
  method DecodeRoots(buffer: Buffer, offset: uint64, count: nat, output: array<Probe>) returns (ok: bool)
    requires count <= output.Length && offset as nat + count * 8 <= |buffer|
    modifies output
    ensures ok <==> Gather(count, ItemOf(ProbeRefs(buffer), offset as nat, 8)).Some?
    ensures ok ==> output[..] == Overlaid(old(output[..]), Gather(count, ItemOf(ProbeRefs(buffer), offset as nat, 8)).value)
  {
    ghost var item, prior := ItemOf(ProbeRefs(buffer), offset as nat, 8), output[..];
    ghost var done: seq<Probe> := [];
    assert Overlaid(prior, []) == prior;
    for i := 0 to count
      invariant Gather(i, item) == Some(done) && output[..] == Overlaid(prior, done)
    {
      ghost var before := output[..];
      ok := DecodeRoot(buffer, offset, i, count, output);
      if !ok {
        GatherFails(count, item, i);
        return false;
      }
      OverlaidNext(prior, before, output[..], done, item(i).value);
      GatherNext(i, item, done, item(i).value);
      done := done + [item(i).value];
    }
    return true;
  }

  method DecodeProbeSliceBuffer(buffer: Buffer) returns (r: Option<seq<Probe>>)
    ensures r == Probes(buffer)
  {
    var header := MaterializedHeader(buffer, 1);
    if header.None? { return None; }
    var (offset, count) := header.value;
    if MaterializedArray(buffer, offset, count, 8).None? { return None; }
    var result := new Probe[count as int](_ => ZERO_PROBE);
    assert forall j | 0 <= j < result.Length :: result[..][j] == ZERO_PROBE;
    ghost var zeros := result[..];
    var ok := DecodeRoots(buffer, offset, count as nat, result);
    if !ok { return None; }
    assert result[..] == Probes(buffer).value by { OverZero(zeros, Probes(buffer).value); }
    return Some(result[..]);
  }

  lemma OverZero(zeros: seq<Probe>, decoded: seq<Probe>)
    requires |zeros| == |decoded| && forall j | 0 <= j < |zeros| :: zeros[j] == ZERO_PROBE
    ensures Overlaid(zeros, decoded) == decoded
  {
    forall j | 0 <= j < |decoded| ensures ProbeOver(zeros[j], decoded[j]) == decoded[j] {}
  }

  /** What Fill hands to the caller's slice: an empty buffer decodes to nothing. */
  method DecodeProbeSliceInto(buffer: Buffer, output: array<Probe>) returns (ok: bool)
    modifies output
    ensures buffer == [] ==> ok && output[..] == old(output[..])
    ensures buffer != [] && Probes(buffer).Some? ==>
              var decoded := Probes(buffer).value;
              ok && output[..] == Overlaid(old(output[..]), decoded[..Least(|decoded|, output.Length)])
    ensures buffer != [] && HeaderAt(buffer, LAYOUT).None? ==> !ok && output[..] == old(output[..])
  {
    if |buffer| == 0 { return true; }
    var header := MaterializedHeader(buffer, 1);
    if header.None? { return false; }
    var (offset, count) := header.value;
    if MaterializedArray(buffer, offset, count, 8).None? { return false; }
    var n: nat := count as nat;
    if n > output.Length { n := output.Length; }
    ok := DecodeRoots(buffer, offset, n, output);
    if Probes(buffer).Some? { GatherPrefix(count as nat, ItemOf(ProbeRefs(buffer), offset as nat, 8), n); }
  }

  lemma {:induction false} GatherPrefix<T>(n: nat, item: nat -> Option<T>, m: nat)
    requires m <= n && Gather(n, item).Some?
    ensures Gather(m, item) == Some(Gather(n, item).value[..m])
  {
    if m < n {
      GatherPrefix(n - 1, item, m);
      assert Gather(n, item).value[..m] == Gather(n - 1, item).value[..m];
    } else {
      assert Gather(n, item).value[..n] == Gather(n, item).value;
    }
  }
}
