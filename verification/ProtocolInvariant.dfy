/** What every interleaving of sections keeps. */
module ProtocolInvariant {
  import opened Wrappers
  import opened Sections
  import opened Protocol
  import opened Tokens

  // ----- the shape of a thread -----

  /** The frame that a successful acquire of h returns to. */
  predicate Continues(h: nat, reserve: bool, rest: Thread) {
    && rest != []
    && match rest[0]
       case Pin(_, parent, r, _) => parent == Some(h) && r == reserve
       case Want(w, shape) => w == h && (reserve <==> shape.NewChild?)
       case _ => false
  }

  predicate Settled(rest: Thread) { rest == [] || !(rest[0].ReadLink? || rest[0].Pin? || rest[0].Want?) }

  predicate ShapeOk(topo: Topology, h: nat, shape: Shape, rest: Thread) {
    && h < |topo|
    && (shape.Merge? ==> shape.source < |topo|)
    && (shape.Merged? ==> shape.receiver < |topo| && rest != [] && rest[0] == Unpin(shape.receiver))
    && (TakesCallback(shape) ==> topo[h].kind.Queue?)
  }

  predicate FrameOk(topo: Topology, f: Frame, rest: Thread, top: bool) {
    match f
    case ReadLink(h, reserve) =>
      top && h < |topo| && Linked(topo[h].kind) && (reserve ==> topo[h].kind.View?) && Continues(h, reserve, rest)
    case Pin(h, parent, reserve, res) =>
      && h < |topo| && (reserve ==> CanReserve(topo[h].kind)) && Continues(h, reserve, rest)
      && (parent.Some? ==> parent == topo[h].born)
      && (top || parent.Some?)
      && (res.Some? <==> top && reserve && parent.Some?)
      && (res.Some? ==> res.value == Root(topo, h) && res.value < |topo| && Reserves(topo[res.value].kind))
    case Want(h, shape) => !top && ShapeOk(topo, h, shape, rest) && Settled(rest)
    case Native(h, shape, res, cb) =>
      && ShapeOk(topo, h, shape, rest) && Settled(rest) && !shape.Merge?
      && (res.Some? <==> shape.NewChild?)
      && (res.Some? ==> res.value == Root(topo, h) && res.value < |topo| && Reserves(topo[res.value].kind))
      && (cb != 0 <==> TakesCallback(shape))
    case Build(cb) => cb != 0 && Settled(rest)
    case Swap(h, cb) => h < |topo| && topo[h].kind.Queue? && rest != [] && rest[0] == Unpin(h) && cb != 0
    case Poison(h, _) => h < |topo| && Deferred(topo, rest, PinTok(h)) > 0 && Settled(rest)
    case Unpin(h) => h < |topo| && Settled(rest)
    case Close(h) => h < |topo| && Settled(rest)
    case Free(h) =>
      && h < |topo| && Settled(rest)
      && (topo[h].kind.Child? && topo[h].born.Some? ==> rest != [] && rest[0] == Drop(topo[h].born.value))
    case Drop(h) => h < |topo| && Reserves(topo[h].kind) && Settled(rest)
    case Delete(cb) => cb != 0 && Settled(rest)
  }

  predicate Tail(topo: Topology, fs: Thread) {
    fs == [] || (FrameOk(topo, fs[0], fs[1..], false) && Tail(topo, fs[1..]))
  }

  predicate ThreadOk(topo: Topology, fs: Thread) {
    fs == [] || (FrameOk(topo, fs[0], fs[1..], true) && Tail(topo, fs[1..]))
  }

  /** A parent read as nil from a handle that was created with one was read after the handle was
      taken. */
  predicate CapturedDead(topo: Topology, hs: seq<Handle>, fs: Thread) {
    (fs != [] && fs[0].Pin? && fs[0].parent.None? && fs[0].h < |topo| == |hs| && topo[fs[0].h].born.Some?) ==>
      !hs[fs[0].h].ptr
  }

  // ----- one handle -----

  predicate HandleOk(node: Node, x: Handle) {
    && (x.link == node.born || x.link.None?)
    && (x.ptr ==> x.link == node.born)
    && (x.active > 0 ==> x.ptr)
    && (x.children > 0 ==> !x.closed && x.ptr)
    && (!Reserves(node.kind) ==> x.children == 0)
    && (x.closed && x.active == 0 ==> !x.ptr)
    && (node.kind.View? && x.closed ==> !x.ptr)
    && (x.armed <==> Owned(node.kind) && x.ptr && !x.closed && x.poison.None?)
    && (!node.kind.Queue? ==> x.slots == [])
    && (node.kind.Queue? && x.ptr ==> |x.slots| == 3)
  }

  // ----- the books -----

  /** The tokens that the fields of the handles and the records of frees and deletions call for. */
  function Due(s: State, k: Token): int
    requires |s.topo| == |s.hs|
  {
    match k
    case PinTok(h) => if h < |s.hs| then s.hs[h].active else 0
    case ResTok(h) => if h < |s.hs| then s.hs[h].children else 0
    case FreeTok(h) =>
      One(h < |s.hs| && Owned(s.topo[h].kind) && !s.hs[h].ptr && s.hs[h].poison.None?) - s.freed[h]
    case CbTok(cb) => One(0 < cb <= s.made) - s.deleted[cb] - s.abandoned[cb]
    case PoisonTok(_) => 0
  }

  /** A poisoned handle has a poisoned parent, or its poisoning is on the way. */
  predicate PoisonClimbs(s: State, i: nat)
    requires i < |s.topo| == |s.hs|
  {
    s.hs[i].poison.Some? && s.topo[i].born.Some? ==>
      var p := s.topo[i].born.value;
      (p < |s.hs| && s.hs[p].poison.Some?) || Threads(s.topo, s.ts, PoisonTok(p)) > 0
  }

  predicate Shaped(s: State) {
    && |s.topo| == |s.hs|
    && TopoOk(s.topo)
    && (forall i | 0 <= i < |s.hs| :: HandleOk(s.topo[i], s.hs[i]))
    && (forall t | 0 <= t < |s.ts| :: ThreadOk(s.topo, s.ts[t]) && CapturedDead(s.topo, s.hs, s.ts[t]))
    && (forall i | 0 <= i < |s.hs| :: PoisonClimbs(s, i))
    && !s.crashed
  }

  /** Threads, handles and poisonings are in shape, and the books balance. */
  ghost predicate Inv(s: State) {
    Shaped(s) && forall k: Token | !k.PoisonTok? :: Total(s, k) == Due(s, k)
  }

  // ----- lists of frames -----

  lemma TailIsOk(topo: Topology, fs: Thread)
    requires Tail(topo, fs) && Settled(fs)
    ensures ThreadOk(topo, fs)
    ensures forall k :: Held(topo, fs, k) == Deferred(topo, fs, k)
  {}

  /** Aborting drops only frames that hold nothing yet. */
  lemma {:induction false} AbortKeeps(topo: Topology, h: nat, reserve: bool, rest: Thread)
    requires Continues(h, reserve, rest) && Tail(topo, rest)
    ensures Tail(topo, Abort(rest)) && Settled(Abort(rest))
    ensures forall k :: Deferred(topo, Abort(rest), k) == Deferred(topo, rest, k)
    decreases |rest|
  {
    if rest[0].Pin? { AbortKeeps(topo, rest[0].h, reserve, rest[1..]); }
  }

  lemma DeferredCons(topo: Topology, f: Frame, rest: Thread)
    ensures forall k :: Deferred(topo, [f] + rest, k) == FrameTokens(topo, f, k) + Deferred(topo, rest, k)
  {
    assert ([f] + rest)[1..] == rest;
  }

  lemma TailCons(topo: Topology, f: Frame, rest: Thread)
    requires FrameOk(topo, f, rest, false) && Tail(topo, rest)
    ensures Tail(topo, [f] + rest)
  {
    assert ([f] + rest)[1..] == rest;
  }

  lemma {:induction false} TailDeletes(topo: Topology, slots: seq<nat>, rest: Thread)
    requires Tail(topo, rest) && Settled(rest)
    ensures Tail(topo, DeleteFrames(slots) + rest) && Settled(DeleteFrames(slots) + rest)
    ensures forall k :: Deferred(topo, DeleteFrames(slots) + rest, k) == SlotTokens(slots, k) + Deferred(topo, rest, k)
  {
    forall k ensures Deferred(topo, DeleteFrames(slots) + rest, k) == SlotTokens(slots, k) + Deferred(topo, rest, k) {
      DeferredAppend(topo, DeleteFrames(slots), rest, k);
      DeferredDeletes(topo, slots, k);
    }
    if slots == [] {
      assert DeleteFrames(slots) + rest == rest;
    } else {
      TailDeletes(topo, slots[1..], rest);
      if slots[0] == 0 {
        assert DeleteFrames(slots) + rest == DeleteFrames(slots[1..]) + rest;
      } else {
        assert DeleteFrames(slots) + rest == [Delete(slots[0])] + (DeleteFrames(slots[1..]) + rest);
        TailCons(topo, Delete(slots[0]), DeleteFrames(slots[1..]) + rest);
      }
    }
  }

  /** Handing a pin to the waiting frame turns the pins of the parent into the chain of h. */
  lemma HandoffKeeps(topo: Topology, h: nat, reserve: bool, rest: Thread, res: Option<nat>, next: nat)
    requires TopoOk(topo) && h < |topo| && Continues(h, reserve, rest) && Tail(topo, rest) && next != 0
    requires res.Some? <==> reserve
    requires res.Some? ==> res.value == Root(topo, h) && res.value < |topo| && Reserves(topo[res.value].kind)
    ensures ThreadOk(topo, Handoff(topo, rest, res, next))
    ensures forall k :: Held(topo, Handoff(topo, rest, res, next), k)
                        == Chain(topo, h, k) + ResTokens(res, k) + Deferred(topo, rest, k)
                           + CbTokens(if HandoffMakes(rest) then next else 0, k)
    ensures forall hs {:trigger CapturedDead(topo, hs, Handoff(topo, rest, res, next))} ::
              CapturedDead(topo, hs, Handoff(topo, rest, res, next))
  {
    var fs := Handoff(topo, rest, res, next);
    match rest[0]
    case Want(w, Merge(source)) =>
      assert fs == [Enter(topo, source, false)] + ([Want(source, Merged(h))] + ([Unpin(h)] + rest[1..]));
      TailCons(topo, Unpin(h), rest[1..]);
      TailCons(topo, Want(source, Merged(h)), [Unpin(h)] + rest[1..]);
      DeferredCons(topo, Unpin(h), rest[1..]);
      DeferredCons(topo, Want(source, Merged(h)), [Unpin(h)] + rest[1..]);
      DeferredCons(topo, fs[0], [Want(source, Merged(h))] + ([Unpin(h)] + rest[1..]));
    case Want(_, _) => assert fs[1..] == rest[1..];
    case Pin(_, _, _, _) => assert fs[1..] == rest[1..];
    case _ =>
  }
}
