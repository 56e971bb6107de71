/** The conversion buffer a handle lends its own calls, through one atomic pointer. */
module Scratch {
  import opened Wrappers

  type Buffer = nat

  /** Buffer numbers stand for the slices the pointer leads to; `made` counts those allocated.  A call that
      is running holds one buffer, its number is the place in `held`. */
  datatype State = State(stored: Option<Buffer>, held: seq<Option<Buffer>>, made: nat)

  datatype Event = Start | Take(call: nat) | Give(call: nat) | Release

  predicate Enabled(s: State, e: Event) {
    match e
    case Start => true
    case Take(call) => call < |s.held| && s.held[call].None?
    case Give(call) => call < |s.held| && s.held[call].Some?
    case Release => true
  }

  /** Take swaps the pointer with nil, Give puts the buffer back unless another is there, Release drops it. */
  function Next(s: State, e: Event): State
    requires Enabled(s, e)
  {
    match e
    case Start => s.(held := s.held + [None])
    case Take(call) =>
      if s.stored.Some? then s.(stored := None, held := s.held[call := s.stored])
      else s.(held := s.held[call := Some(s.made)], made := s.made + 1)
    case Give(call) => State(if s.stored.None? then s.held[call] else s.stored, s.held[call := None], s.made)
    case Release => s.(stored := None)
  }

  predicate Path(s: State, es: seq<Event>, z: State)
    decreases |es|
  {
    if es == [] then s == z else Enabled(s, es[0]) && Path(Next(s, es[0]), es[1..], z)
  }

  /** No buffer is held twice, or held and stored. */
  predicate Exclusive(s: State) {
    && (forall i, j | 0 <= i < j < |s.held| && s.held[i].Some? :: s.held[i] != s.held[j])
    && (forall i | 0 <= i < |s.held| && s.held[i].Some? :: s.held[i] != s.stored && s.held[i].value < s.made)
    && (s.stored.Some? ==> s.stored.value < s.made)
  }

  lemma {:induction false} AlwaysExclusive(s: State, es: seq<Event>, z: State)
    requires Exclusive(s) && Path(s, es, z)
    ensures Exclusive(z)
    decreases |es|
  {
    if es != [] { AlwaysExclusive(Next(s, es[0]), es[1..], z); }
  }

  /** No step of the run takes or drops the stored buffer. */
  predicate LeavesStored(es: seq<Event>) { forall e | e in es :: !e.Take? && !e.Release? }

  /** The first buffer handed back is kept, whoever hands back another, and the next call gets that one; only a
      call that finds none allocates. */
  lemma {:induction false} FirstGivenIsKept(s: State, es: seq<Event>, z: State, call: nat)
    requires s.stored.Some? && LeavesStored(es) && Path(s, es, z)
    ensures z.stored == s.stored && z.made == s.made
    ensures Enabled(z, Take(call)) ==>
              Next(z, Take(call)).held[call] == s.stored && Next(z, Take(call)).made == s.made
              && Next(z, Take(call)).stored.None?
    decreases |es|
  {
    if es != [] {
      assert es[0] in es;
      FirstGivenIsKept(Next(s, es[0]), es[1..], z, call);
    }
  }

  /** With nothing stored a call gets a buffer of its own, and the buffer it hands back is the one kept. */
  lemma GivenIsStored(s: State, call: nat)
    requires s.stored.None? && Enabled(s, Take(call))
    ensures var t := Next(s, Take(call));
            && t.held[call] == Some(s.made) && t.made == s.made + 1
            && Next(t, Give(call)).stored == Some(s.made) && Next(t, Give(call)).held[call].None?
            && Next(Next(t, Give(call)), Release).stored.None?
  {}

  // ----- Estimate -----

  /** The native call writes the entries of `written` at the front of the buffer it was lent. */
  function Filled<T>(before: seq<T>, written: seq<T>): seq<T>
    requires |written| <= |before|
  {
    written + before[|written|..]
  }

  /** An entry is copied when it is below the count and there is one. */
  function Copied<T, U>(dst: seq<U>, values: seq<T>, count: int, convert: T -> U): seq<U> {
    seq(|dst|, i requires 0 <= i < |dst| => if i < count && i < |values| then convert(values[i]) else dst[i])
  }

  method CopyFromRaw<T, U>(dst: array<U>, values: seq<T>, count: int, convert: T -> U)
    modifies dst
    ensures forall k | 0 <= k < dst.Length ::
              dst[k] == if k < count && k < |values| then convert(values[k]) else old(dst[k])
    ensures dst[..] == Copied(old(dst[..]), values, count, convert)
  {
    var n := count;
    if n > dst.Length { n := dst.Length; }
    if n > |values| { n := |values|; }
    var i := 0;
    while i < n
      invariant 0 <= i && (i <= n || i == 0)
      invariant forall k | 0 <= k < i :: dst[k] == convert(values[k])
      invariant forall k | i <= k < dst.Length :: dst[k] == old(dst[k])
    {
      dst[i] := convert(values[i]);
      i := i + 1;
    }
    ghost var copied := Copied(old(dst[..]), values, count, convert);
    assert forall k | 0 <= k < dst.Length :: dst[k] == copied[k];
  }

  lemma CopiedAt<T, U>(dst: seq<U>, written: seq<T>, x: seq<T>, count: int, convert: T -> U, k: nat)
    requires |written| <= |x| == |dst| && k < |dst|
    ensures Copied(dst, Filled(x, written), count, convert)[k]
            == if k >= count then dst[k] else convert(if k < |written| then written[k] else x[k])
  {
    assert Filled(x, written)[k] == if k < |written| then written[k] else x[k];
  }

  /** Native code that reports as many entries as it wrote, or fewer, has them all in the caller's slice, in
      order and converted; behind them the slice is as it was. */
  lemma EstimateGives<T, U>(dst: seq<U>, written: seq<T>, x: seq<T>, count: int, convert: T -> U)
    requires 0 <= count <= |written| <= |x| == |dst|
    ensures var out := Copied(dst, Filled(x, written), count, convert);
            && (forall k | 0 <= k < count :: out[k] == convert(written[k]))
            && out[count..] == dst[count..]
  {
    forall k: nat | k < |dst|
      ensures Copied(dst, Filled(x, written), count, convert)[k] == if k < count then convert(written[k]) else dst[k]
    {
      CopiedAt(dst, written, x, count, convert, k);
    }
  }

  /** Whatever earlier calls left in the buffer, the output is the same, exactly when native code reports no
      more entries than it wrote, or has filled the buffer. */
  lemma StaleNeverShows<T(!new), U>(dst: seq<U>, written: seq<T>, count: int, convert: T -> U, a: T, b: T)
    requires |written| <= |dst| && convert(a) != convert(b)
    ensures (forall x: seq<T>, y: seq<T> | |x| == |y| == |dst| ::
               Copied(dst, Filled(x, written), count, convert) == Copied(dst, Filled(y, written), count, convert))
            <==> count <= |written| || |written| == |dst|
  {
    if count <= |written| || |written| == |dst| {
      forall x: seq<T>, y: seq<T> | |x| == |y| == |dst|
        ensures Copied(dst, Filled(x, written), count, convert) == Copied(dst, Filled(y, written), count, convert)
      {
        forall k: nat | k < |dst|
          ensures Copied(dst, Filled(x, written), count, convert)[k]
                  == Copied(dst, Filled(y, written), count, convert)[k]
        {
          CopiedAt(dst, written, x, count, convert, k);
          CopiedAt(dst, written, y, count, convert, k);
        }
      }
    } else {
      var x, y := seq(|dst|, i => a), seq(|dst|, i => b);
      CopiedAt(dst, written, x, count, convert, |written|);
      CopiedAt(dst, written, y, count, convert, |written|);
    }
  }
}
