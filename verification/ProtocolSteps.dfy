/** Every step of the handle protocol keeps the invariant. */
module ProtocolSteps {
  import opened Wrappers
  import opened Sections
  import opened Protocol
  import opened Tokens
  import opened ProtocolInvariant

  function KeptAt(s: State, h: nat, k: Token): nat
    requires |s.topo| == |s.hs|
  {
    if h < |s.hs| then Kept(s.topo[h], s.hs[h], k) else 0
  }

  /** z differs from s in thread t, in handle h when there is such a handle, and in the records. */
  predicate Local(s: State, z: State, t: nat, h: nat) {
    && |s.topo| == |s.hs| && z.topo == s.topo && |z.hs| == |s.hs|
    && t < |s.ts| == |z.ts| && z.ts == s.ts[t := z.ts[t]]
    && z.hs == (if h < |s.hs| then s.hs[h := z.hs[h]] else s.hs)
  }

  /** What thread t and handle h hold, in z less in s. */
  function Gain(s: State, z: State, t: nat, h: nat, k: Token): int
    requires Local(s, z, t, h)
  {
    Held(s.topo, z.ts[t], k) - Held(s.topo, s.ts[t], k) + KeptAt(z, h, k) - KeptAt(s, h, k)
  }

  lemma TotalAfter(s: State, z: State, t: nat, h: nat, k: Token)
    requires Local(s, z, t, h)
    ensures Total(z, k) == Total(s, k) + Gain(s, z, t, h, k)
    ensures Threads(z.topo, z.ts, k) == Threads(s.topo, s.ts, k) - Held(s.topo, s.ts[t], k) + Held(s.topo, z.ts[t], k)
  {
    ThreadsUpdate(s.topo, s.ts, t, z.ts[t], k);
    if h < |s.hs| { HandlesUpdate(s.topo, s.hs, h, z.hs[h], k); }
  }

  /** The thread and the handle stay in shape; a destroyed object stays destroyed. */
  predicate ShapeKept(s: State, z: State, t: nat, h: nat)
    requires Local(s, z, t, h)
  {
    && ThreadOk(s.topo, z.ts[t]) && CapturedDead(s.topo, z.hs, z.ts[t])
    && (h < |s.hs| ==> HandleOk(s.topo[h], z.hs[h]) && (z.hs[h].ptr ==> s.hs[h].ptr))
    && !z.crashed
  }

  /** Poison stays, a pending poisoning stays or is done, and a new poison sends one to the parent. */
  ghost predicate PoisonKept(s: State, z: State, t: nat, h: nat)
    requires Local(s, z, t, h)
  {
    && (h < |s.hs| && s.hs[h].poison.Some? ==> z.hs[h].poison.Some?)
    && (forall p: nat :: Held(s.topo, z.ts[t], PoisonTok(p)) >= Held(s.topo, s.ts[t], PoisonTok(p))
                         || (p == h < |s.hs| && z.hs[p].poison.Some?))
    && (h < |s.hs| && s.hs[h].poison.None? && z.hs[h].poison.Some? && s.topo[h].born.Some? ==>
          Held(s.topo, z.ts[t], PoisonTok(s.topo[h].born.value)) > 0)
  }

  ghost predicate Balanced(s: State, z: State, t: nat, h: nat)
    requires Local(s, z, t, h)
  {
    forall k: Token | !k.PoisonTok? :: Gain(s, z, t, h, k) == Due(z, k) - Due(s, k)
  }

  ghost predicate StepOk(s: State, z: State, t: nat, h: nat) {
    Local(s, z, t, h) && ShapeKept(s, z, t, h) && PoisonKept(s, z, t, h) && Balanced(s, z, t, h)
  }

  /** A poisoning on the way stays on the way until its handle is poisoned. */
  ghost predicate PoisonMoves(s: State, z: State) {
    forall p: nat :: Threads(s.topo, s.ts, PoisonTok(p)) > 0 ==>
      Threads(z.topo, z.ts, PoisonTok(p)) > 0 || (p < |z.hs| && z.hs[p].poison.Some?)
  }

  ghost predicate Safe(s: State, z: State) { Inv(z) && PoisonMoves(s, z) }

  lemma StepShaped(s: State, z: State, t: nat, h: nat)
    requires Inv(s) && Local(s, z, t, h) && ShapeKept(s, z, t, h) && PoisonKept(s, z, t, h)
    ensures Shaped(z) && PoisonMoves(s, z)
  {
    forall p: nat | Threads(s.topo, s.ts, PoisonTok(p)) > 0
      ensures Threads(z.topo, z.ts, PoisonTok(p)) > 0 || (p < |z.hs| && z.hs[p].poison.Some?)
    {
      TotalAfter(s, z, t, h, PoisonTok(p));
      ThreadBelow(s.topo, s.ts, t, PoisonTok(p));
    }
    forall i | 0 <= i < |z.hs| ensures PoisonClimbs(z, i) {
      if z.hs[i].poison.Some? && z.topo[i].born.Some? {
        var p := z.topo[i].born.value;
        TotalAfter(s, z, t, h, PoisonTok(p));
        ThreadBelow(s.topo, s.ts, t, PoisonTok(p));
        ThreadBelow(z.topo, z.ts, t, PoisonTok(p));
        assert PoisonClimbs(s, i);
      }
    }
    forall u | 0 <= u < |z.ts| ensures ThreadOk(z.topo, z.ts[u]) && CapturedDead(z.topo, z.hs, z.ts[u]) {
      assert u != t ==> z.ts[u] == s.ts[u];
    }
  }

  lemma StepKeeps(s: State, z: State, t: nat, h: nat)
    requires Inv(s) && StepOk(s, z, t, h)
    ensures Safe(s, z)
  {
    StepShaped(s, z, t, h);
    forall k: Token | !k.PoisonTok? ensures Total(z, k) == Due(z, k) {
      TotalAfter(s, z, t, h, k);
    }
  }

  /** Books that balance token by token, with no poisoning dropped, make up a step. */
  lemma StepFrom(s: State, z: State, t: nat, h: nat)
    requires Local(s, z, t, h) && ShapeKept(s, z, t, h)
    requires h < |s.hs| ==> z.hs[h].poison == s.hs[h].poison
    requires forall k: Token :: if k.PoisonTok? then Held(s.topo, z.ts[t], k) >= Held(s.topo, s.ts[t], k)
                         else Gain(s, z, t, h, k) == Due(z, k) - Due(s, k)
    ensures StepOk(s, z, t, h)
  {
    assert forall p: nat :: Held(s.topo, z.ts[t], PoisonTok(p)) >= Held(s.topo, s.ts[t], PoisonTok(p));
  }

  /** A step that changes no handle. */
  lemma AsideKeeps(s: State, z: State, t: nat)
    requires Inv(s) && Local(s, z, t, |s.hs|) && !z.crashed
    requires ThreadOk(s.topo, z.ts[t]) && CapturedDead(s.topo, s.hs, z.ts[t])
    requires forall k: Token :: if k.PoisonTok? then Held(s.topo, z.ts[t], k) >= Held(s.topo, s.ts[t], k)
                         else Held(s.topo, z.ts[t], k) - Held(s.topo, s.ts[t], k) == Due(z, k) - Due(s, k)
    ensures Safe(s, z)
  {
    forall k ensures Gain(s, z, t, |s.hs|, k) == Held(s.topo, z.ts[t], k) - Held(s.topo, s.ts[t], k) {}
    StepFrom(s, z, t, |s.hs|);
    StepKeeps(s, z, t, |s.hs|);
  }

  /** A pin held by any thread keeps the object in place, and its parent link too. */
  lemma PinnedIsPresent(s: State, t: nat, h: nat)
    requires Inv(s) && t < |s.ts| && h < |s.hs| && Held(s.topo, s.ts[t], PinTok(h)) > 0
    ensures s.hs[h].active > 0 && s.hs[h].ptr && s.hs[h].link == s.topo[h].born
  {
    ThreadBelow(s.topo, s.ts, t, PinTok(h));
    assert Total(s, PinTok(h)) == Due(s, PinTok(h));
    assert HandleOk(s.topo[h], s.hs[h]);
  }

  /** What the step lemmas below need of the state: the thread, and the handle its section works on. */
  predicate Before(s: State, t: nat, h: nat) {
    && |s.topo| == |s.hs| && TopoOk(s.topo) && Ready(s, t) && !s.crashed
    && ThreadOk(s.topo, s.ts[t]) && CapturedDead(s.topo, s.hs, s.ts[t])
    && h < |s.hs| && HandleOk(s.topo[h], s.hs[h])
    && s.hs[h].active >= 0 && s.hs[h].children >= 0
  }

  lemma BeforeHolds(s: State, t: nat, h: nat)
    requires Inv(s) && Ready(s, t) && h < |s.hs|
    ensures Before(s, t, h)
  {
    assert Total(s, PinTok(h)) == Due(s, PinTok(h)) && Total(s, ResTok(h)) == Due(s, ResTok(h));
    assert HandleOk(s.topo[h], s.hs[h]);
    assert ThreadOk(s.topo, s.ts[t]) && CapturedDead(s.topo, s.hs, s.ts[t]);
  }

  // ----- one lemma per section -----

  /** A section that only changes what its thread has left to run must leave it the same tokens. */
  lemma ThreadOnly(s: State, t: nat, h: nat, fs: Thread)
    requires Before(s, t, h) && ThreadOk(s.topo, fs) && CapturedDead(s.topo, s.hs, fs)
    requires forall k :: Held(s.topo, fs, k) == Held(s.topo, s.ts[t], k)
    ensures StepOk(s, SetThread(s, t, fs), t, h)
  {}

  lemma CaptureFrames(topo: Topology, h: nat, p: nat, reserve: bool, rest: Thread)
    requires TopoOk(topo) && h < |topo| && topo[h].born == Some(p) && p < |topo|
    requires ThreadOk(topo, [ReadLink(h, reserve)] + rest) && (reserve ==> CanReserve(topo[p].kind))
    ensures var fs := [Enter(topo, p, reserve), Pin(h, Some(p), reserve, None)] + rest;
            && ThreadOk(topo, fs) && !(fs[0].Pin? && topo[fs[0].h].born.Some?)
            && forall k :: Held(topo, fs, k) == Deferred(topo, rest, k)
  {
    assert ([ReadLink(h, reserve)] + rest)[1..] == rest;
    var e, pin := Enter(topo, p, reserve), Pin(h, Some(p), reserve, None);
    assert [e, pin] + rest == [e] + ([pin] + rest);
    TailCons(topo, pin, rest);
    DeferredCons(topo, pin, rest);
    DeferredCons(topo, e, [pin] + rest);
  }

  lemma ReadLinkLocal(s: State, t: nat, h: nat)
    requires Before(s, t, h) && s.ts[t][0].ReadLink? && s.ts[t][0].h == h
    ensures StepOk(s, RunReadLink(s, t), t, h)
  {
    var reserve, rest := s.ts[t][0].reserve, s.ts[t][1..];
    match s.hs[h].link
    case None =>
      DeferredCons(s.topo, Pin(h, None, reserve, None), rest);
      ThreadOnly(s, t, h, [Pin(h, None, reserve, None)] + rest);
    case Some(p) =>
      if reserve && !CanReserve(s.topo[p].kind) {
        AbortKeeps(s.topo, h, reserve, rest);
        TailIsOk(s.topo, Abort(rest));
        ThreadOnly(s, t, h, Abort(rest));
      } else {
        assert s.ts[t] == [ReadLink(h, reserve)] + rest;
        CaptureFrames(s.topo, h, p, reserve, rest);
        ThreadOnly(s, t, h, [Enter(s.topo, p, reserve), Pin(h, Some(p), reserve, None)] + rest);
      }
  }

  lemma ReadLinkKeeps(s: State, t: nat)
    requires Inv(s) && Ready(s, t) && s.ts[t][0].ReadLink?
    ensures s.ts[t][0].h < |s.hs| && Safe(s, RunReadLink(s, t))
  {
    var h := s.ts[t][0].h;
    assert ThreadOk(s.topo, s.ts[t]);
    BeforeHolds(s, t, h);
    ReadLinkLocal(s, t, h);
    StepKeeps(s, RunReadLink(s, t), t, h);
  }

  function UpTokens(topo: Topology, parent: Option<nat>, k: Token): nat {
    if parent.Some? then Chain(topo, parent.value, k) else 0
  }

  lemma ReleaseFrames(topo: Topology, parent: Option<nat>, rest: Thread)
    requires Tail(topo, rest) && Settled(rest) && (parent.Some? ==> parent.value < |topo|)
    ensures var fs := UnpinFrames(parent) + rest;
            && Tail(topo, fs) && Settled(fs)
            && forall k :: Deferred(topo, fs, k) == UpTokens(topo, parent, k) + Deferred(topo, rest, k)
  {
    if parent.Some? {
      TailCons(topo, Unpin(parent.value), rest);
      DeferredCons(topo, Unpin(parent.value), rest);
    } else {
      assert UnpinFrames(parent) + rest == rest;
    }
  }

  /** A refused acquire gives back what it had captured: the pins of the parent and its reservation. */
  lemma RollbackFrames(topo: Topology, h: nat, parent: Option<nat>, reserve: bool, res: Option<nat>, rest: Thread)
    requires ThreadOk(topo, [Pin(h, parent, reserve, res)] + rest) && TopoOk(topo)
    ensures var fs := UnpinFrames(parent) + DropFrames(res) + Abort(rest);
            && ThreadOk(topo, fs) && Settled(fs)
            && forall k :: Held(topo, fs, k) == Held(topo, [Pin(h, parent, reserve, res)] + rest, k)
  {
    assert ([Pin(h, parent, reserve, res)] + rest)[1..] == rest;
    var tail := Abort(rest);
    AbortKeeps(topo, h, reserve, rest);
    ReservedDropKeeps(topo, res, tail);
    ReleaseFrames(topo, parent, DropFrames(res) + tail);
    assert UnpinFrames(parent) + DropFrames(res) + tail == UnpinFrames(parent) + (DropFrames(res) + tail);
    TailIsOk(topo, UnpinFrames(parent) + (DropFrames(res) + tail));
    DeferredCons(topo, Pin(h, parent, reserve, res), rest);
  }

  lemma PinRefusedLocal(s: State, t: nat, h: nat)
    requires Before(s, t, h) && s.ts[t][0].Pin? && s.ts[t][0].h == h && Refused(s.hs[h]).Some?
    ensures StepOk(s, RunPin(s, t), t, h)
  {
    var f, rest := s.ts[t][0], s.ts[t][1..];
    assert s.ts[t] == [Pin(h, f.parent, f.reserve, f.res)] + rest;
    RollbackFrames(s.topo, h, f.parent, f.reserve, f.res, rest);
    ThreadOnly(s, t, h, UnpinFrames(f.parent) + DropFrames(f.res) + Abort(rest));
  }

  /** Pinning h gains the pin, the reservation when h takes it, and a callback handle for the call. */
  lemma PinGain(s: State, z: State, t: nat, h: nat, here: bool, res: Option<nat>, makes: bool, rest: Thread, k: Token)
    requires Local(s, z, t, h) && h < |s.hs|
    requires z.hs[h] == Pinned(s.hs[h], here) && z.made == s.made + One(makes)
    requires z.freed == s.freed && z.deleted == s.deleted && z.abandoned == s.abandoned
    requires Held(s.topo, s.ts[t], k)
             == Chain(s.topo, h, k) - One(k == PinTok(h)) + ResTokens(res, k) + Deferred(s.topo, rest, k)
    requires Held(s.topo, z.ts[t], k)
             == Chain(s.topo, h, k) + ResTokens(if here then Some(h) else res, k) + Deferred(s.topo, rest, k)
                + CbTokens(if makes then s.made + 1 else 0, k)
    requires here ==> res.None?
    ensures Gain(s, z, t, h, k) == Due(z, k) - Due(s, k)
    ensures k.PoisonTok? ==> Held(s.topo, z.ts[t], k) == Held(s.topo, s.ts[t], k)
  {
    assert KeptAt(z, h, k) == KeptAt(s, h, k);
  }

  lemma PinAdmittedShape(s: State, t: nat, h: nat)
    requires Before(s, t, h) && s.ts[t][0].Pin? && s.ts[t][0].h == h && Refused(s.hs[h]).None?
    ensures Local(s, RunPin(s, t), t, h) && ShapeKept(s, RunPin(s, t), t, h)
  {
    var f, rest := s.ts[t][0], s.ts[t][1..];
    HandoffKeeps(s.topo, h, f.reserve, rest, if f.reserve && f.parent.None? then Some(h) else f.res, s.made + 1);
  }

  /** A thread at the section that pins h holds the pins above h, and the reservation its parent took. */
  lemma PinHolds(topo: Topology, h: nat, parent: Option<nat>, reserve: bool, res: Option<nat>, rest: Thread, k: Token)
    requires TopoOk(topo) && ThreadOk(topo, [Pin(h, parent, reserve, res)] + rest)
    requires parent.None? ==> topo[h].born.None?
    ensures Held(topo, [Pin(h, parent, reserve, res)] + rest, k)
            == Chain(topo, h, k) - One(k == PinTok(h)) + ResTokens(res, k) + Deferred(topo, rest, k)
  {
    DeferredCons(topo, Pin(h, parent, reserve, res), rest);
  }

  lemma HandoffHolds(topo: Topology, h: nat, reserve: bool, rest: Thread, res: Option<nat>, next: nat, k: Token)
    requires TopoOk(topo) && h < |topo| && Continues(h, reserve, rest) && Tail(topo, rest) && next != 0
    requires res.Some? <==> reserve
    requires res.Some? ==> res.value == Root(topo, h) && res.value < |topo| && Reserves(topo[res.value].kind)
    ensures Held(topo, Handoff(topo, rest, res, next), k)
            == Chain(topo, h, k) + ResTokens(res, k) + Deferred(topo, rest, k)
               + CbTokens(if HandoffMakes(rest) then next else 0, k)
  {
    HandoffKeeps(topo, h, reserve, rest, res, next);
  }

  lemma HeldBeforePin(s: State, t: nat, h: nat, k: Token)
    requires Before(s, t, h) && s.ts[t][0].Pin? && s.ts[t][0].h == h && Refused(s.hs[h]).None?
    ensures Held(s.topo, s.ts[t], k) == Chain(s.topo, h, k) - One(k == PinTok(h)) + ResTokens(s.ts[t][0].res, k)
                                        + Deferred(s.topo, s.ts[t][1..], k)
  {
    var f, rest := s.ts[t][0], s.ts[t][1..];
    assert s.ts[t] == [Pin(h, f.parent, f.reserve, f.res)] + rest;
    PinHolds(s.topo, h, f.parent, f.reserve, f.res, rest, k);
  }

  lemma HeldAfterPin(s: State, t: nat, h: nat, k: Token)
    requires Before(s, t, h) && s.ts[t][0].Pin? && s.ts[t][0].h == h && Refused(s.hs[h]).None?
    ensures var f, rest := s.ts[t][0], s.ts[t][1..];
            Held(s.topo, RunPin(s, t).ts[t], k)
            == Chain(s.topo, h, k) + ResTokens(if f.reserve && f.parent.None? then Some(h) else f.res, k)
               + Deferred(s.topo, rest, k) + CbTokens(if HandoffMakes(rest) then s.made + 1 else 0, k)
  {
    var f, rest := s.ts[t][0], s.ts[t][1..];
    HandoffHolds(s.topo, h, f.reserve, rest, if f.reserve && f.parent.None? then Some(h) else f.res, s.made + 1, k);
  }

  lemma PinAdmittedBooks(s: State, t: nat, h: nat, k: Token)
    requires Before(s, t, h) && s.ts[t][0].Pin? && s.ts[t][0].h == h && Refused(s.hs[h]).None?
    requires Local(s, RunPin(s, t), t, h)
    ensures var z := RunPin(s, t);
            && Gain(s, z, t, h, k) == Due(z, k) - Due(s, k)
            && (k.PoisonTok? ==> Held(s.topo, z.ts[t], k) == Held(s.topo, s.ts[t], k))
  {
    var f, rest := s.ts[t][0], s.ts[t][1..];
    HeldBeforePin(s, t, h, k);
    HeldAfterPin(s, t, h, k);
    PinGain(s, RunPin(s, t), t, h, f.reserve && f.parent.None?, f.res, HandoffMakes(rest), rest, k);
  }

  lemma PinAdmittedLocal(s: State, t: nat, h: nat)
    requires Before(s, t, h) && s.ts[t][0].Pin? && s.ts[t][0].h == h && Refused(s.hs[h]).None?
    ensures StepOk(s, RunPin(s, t), t, h)
  {
    var z := RunPin(s, t);
    PinAdmittedShape(s, t, h);
    forall k ensures Gain(s, z, t, h, k) == Due(z, k) - Due(s, k)
        && (k.PoisonTok? ==> Held(s.topo, z.ts[t], k) == Held(s.topo, s.ts[t], k)) {
      PinAdmittedBooks(s, t, h, k);
    }
    StepFrom(s, z, t, h);
  }

  lemma PinKeeps(s: State, t: nat)
    requires Inv(s) && Ready(s, t) && s.ts[t][0].Pin?
    ensures s.ts[t][0].h < |s.hs| && Safe(s, RunPin(s, t))
  {
    var h := s.ts[t][0].h;
    assert ThreadOk(s.topo, s.ts[t]);
    BeforeHolds(s, t, h);
    if Refused(s.hs[h]).Some? { PinRefusedLocal(s, t, h); } else { PinAdmittedLocal(s, t, h); }
    StepKeeps(s, RunPin(s, t), t, h);
  }

  lemma ThreeSlots(slots: seq<nat>, k: Token)
    requires |slots| == 3
    ensures SlotTokens(slots, k) == CbTokens(slots[0], k) + CbTokens(slots[1], k) + CbTokens(slots[2], k)
  {
    var a := slots[1..];
    var b := a[1..];
    assert SlotTokens(a, k) == CbTokens(a[0], k) + SlotTokens(b, k);
    assert SlotTokens(b, k) == CbTokens(b[0], k) + SlotTokens(b[1..], k);
  }

  lemma SwapLocal(s: State, t: nat, h: nat)
    requires Before(s, t, h) && s.ts[t][0].Swap? && s.ts[t][0].h == h && s.hs[h].ptr
    ensures StepOk(s, RunSwap(s, t), t, h)
  {
    var Swap(_, cb) := s.ts[t][0];
    var rest := s.ts[t][1..];
    var slots := s.hs[h].slots;
    var z := RunSwap(s, t);
    TailDeletes(s.topo, [slots[2]], rest);
    TailIsOk(s.topo, z.ts[t]);
    forall k ensures KeptAt(z, h, k) + SlotTokens([slots[2]], k) == KeptAt(s, h, k) + CbTokens(cb, k) {
      ThreeSlots(slots, k);
      ThreeSlots(slots[2 := cb], k);
    }
  }

  lemma SwapKeeps(s: State, t: nat)
    requires Inv(s) && Ready(s, t) && s.ts[t][0].Swap?
    ensures s.ts[t][0].h < |s.hs| && Safe(s, RunSwap(s, t))
  {
    var h := s.ts[t][0].h;
    assert ThreadOk(s.topo, s.ts[t]);
    assert s.ts[t][1..][0] == Unpin(h);
    assert Deferred(s.topo, s.ts[t][1..], PinTok(h)) > 0;
    PinnedIsPresent(s, t, h);
    BeforeHolds(s, t, h);
    SwapLocal(s, t, h);
    StepKeeps(s, RunSwap(s, t), t, h);
  }

  /** Deferred releases hold whole chains. */
  lemma {:induction false} DeferredUpward(topo: Topology, fs: Thread, h: nat)
    requires TopoOk(topo) && Deferred(topo, fs, PinTok(h)) > 0 && h < |topo| && topo[h].born.Some?
    ensures Deferred(topo, fs, PinTok(topo[h].born.value)) > 0
  {
    if FrameTokens(topo, fs[0], PinTok(h)) > 0 {
      ChainUpward(topo, fs[0].h, h);
    } else {
      DeferredUpward(topo, fs[1..], h);
    }
  }

  lemma ClimbFrames(topo: Topology, h: nat, link: Option<nat>, cause: Cause, rest: Thread)
    requires TopoOk(topo) && h < |topo| && link == topo[h].born && Tail(topo, rest) && Settled(rest)
    requires Deferred(topo, rest, PinTok(h)) > 0
    ensures var fs := (if link.Some? then [Poison(link.value, cause)] else []) + rest;
            && ThreadOk(topo, fs) && Settled(fs)
            && forall k :: Held(topo, fs, k) == One(link.Some? && k == PoisonTok(link.value)) + Deferred(topo, rest, k)
  {
    if link.Some? {
      DeferredUpward(topo, rest, h);
      TailCons(topo, Poison(link.value, cause), rest);
      DeferredCons(topo, Poison(link.value, cause), rest);
      TailIsOk(topo, [Poison(link.value, cause)] + rest);
    } else {
      assert [] + rest == rest;
      TailIsOk(topo, rest);
    }
  }

  lemma ClimbShape(s: State, t: nat, h: nat)
    requires Before(s, t, h) && s.ts[t][0].Poison? && s.ts[t][0].h == h && s.hs[h].ptr
    ensures var z, link := RunPoison(s, t), s.hs[h].link;
            && Local(s, z, t, h) && ShapeKept(s, z, t, h)
            && forall k :: Held(s.topo, z.ts[t], k) + One(k == PoisonTok(h))
                           == Held(s.topo, s.ts[t], k) + One(link.Some? && k == PoisonTok(link.value))
  {
    var up := if s.hs[h].link.Some? then [Poison(s.hs[h].link.value, s.ts[t][0].cause)] else [];
    ClimbFrames(s.topo, h, s.hs[h].link, s.ts[t][0].cause, s.ts[t][1..]);
    assert RunPoison(s, t).ts[t] == up + s.ts[t][1..];
    DeferredCons(s.topo, s.ts[t][0], s.ts[t][1..]);
    assert s.ts[t] == [s.ts[t][0]] + s.ts[t][1..];
  }

  lemma ClimbKept(s: State, t: nat, h: nat)
    requires Before(s, t, h) && s.ts[t][0].Poison? && s.ts[t][0].h == h && s.hs[h].ptr
    requires Local(s, RunPoison(s, t), t, h)
    ensures PoisonKept(s, RunPoison(s, t), t, h)
  {
    ClimbShape(s, t, h);
  }

  lemma PoisonLocal(s: State, t: nat, h: nat)
    requires Before(s, t, h) && s.ts[t][0].Poison? && s.ts[t][0].h == h && s.hs[h].ptr
    ensures StepOk(s, RunPoison(s, t), t, h)
  {
    ClimbShape(s, t, h);
    ClimbKept(s, t, h);
  }

  lemma PoisonKeeps(s: State, t: nat)
    requires Inv(s) && Ready(s, t) && s.ts[t][0].Poison?
    ensures s.ts[t][0].h < |s.hs| && Safe(s, RunPoison(s, t))
  {
    var h := s.ts[t][0].h;
    assert ThreadOk(s.topo, s.ts[t]);
    PinnedIsPresent(s, t, h);
    BeforeHolds(s, t, h);
    PoisonLocal(s, t, h);
    StepKeeps(s, RunPoison(s, t), t, h);
  }

  // ----- taking a handle -----

  function TakenTokens(h: nat, taken: Taken, k: Token): nat {
    match taken
    case Nothing => 0
    case Taken(free, parent, slots) =>
      One(free && k == FreeTok(h)) + ResTokens(parent, k) + SlotTokens(slots, k)
  }

  lemma ReservedDropKeeps(topo: Topology, parent: Option<nat>, rest: Thread)
    requires Tail(topo, rest) && Settled(rest)
    requires parent.Some? ==> parent.value < |topo| && Reserves(topo[parent.value].kind)
    ensures Tail(topo, DropFrames(parent) + rest) && Settled(DropFrames(parent) + rest)
    ensures forall k :: Deferred(topo, DropFrames(parent) + rest, k) == ResTokens(parent, k) + Deferred(topo, rest, k)
  {
    if parent.Some? {
      TailCons(topo, Drop(parent.value), rest);
      DeferredCons(topo, Drop(parent.value), rest);
    } else {
      assert DropFrames(parent) + rest == rest;
    }
  }

  lemma FreePrefix(topo: Topology, h: nat, free: bool, rest: Thread)
    requires h < |topo| && Tail(topo, rest) && Settled(rest)
    requires topo[h].kind.Child? && topo[h].born.Some? ==> rest != [] && rest[0] == Drop(topo[h].born.value)
    ensures var fs := (if free then [Free(h)] else []) + rest;
            && Tail(topo, fs) && Settled(fs)
            && forall k :: Deferred(topo, fs, k) == One(free && k == FreeTok(h)) + Deferred(topo, rest, k)
  {
    if free {
      TailCons(topo, Free(h), rest);
      DeferredCons(topo, Free(h), rest);
    } else {
      assert [] + rest == rest;
    }
  }

  lemma Associate(f: Thread, d: Thread, x: Thread, rest: Thread)
    ensures f + d + x + rest == f + (d + (x + rest))
  {}

  /** The cleanup of a taken handle holds its destructor, its reservation and its callback handles. */
  lemma CleanupKeeps(topo: Topology, h: nat, free: bool, parent: Option<nat>, slots: seq<nat>, rest: Thread)
    requires TopoOk(topo) && h < |topo| && Tail(topo, rest) && Settled(rest)
    requires parent == topo[h].born && Owned(topo[h].kind)
    ensures var fs := Cleanup(h, Taken(free, parent, slots)) + rest;
            && Tail(topo, fs) && Settled(fs)
            && forall k :: Deferred(topo, fs, k) == TakenTokens(h, Taken(free, parent, slots), k) + Deferred(topo, rest, k)
  {
    var a := DeleteFrames(slots) + rest;
    TailDeletes(topo, slots, rest);
    var b := DropFrames(parent) + a;
    ReservedDropKeeps(topo, parent, a);
    FreePrefix(topo, h, free, b);
    Associate(if free then [Free(h)] else [], DropFrames(parent), DeleteFrames(slots), rest);
  }

  /** Taking a handle moves what it kept to the thread, and asks for a destructor unless poisoned. */
  lemma TakeMoves(node: Node, h: nat, x: Handle, k: Token)
    requires x.ptr ==> x.link == node.born
    requires (Linked(node.kind) <==> node.born.Some?) && (!node.kind.Queue? ==> x.slots == [])
    ensures var (y, taken) := TakeLocked(node.kind, x);
            TakenTokens(h, taken, k) + Kept(node, y, k)
            == Kept(node, x, k) + One(k == FreeTok(h) && x.ptr && !y.ptr && x.poison.None?)
  {}

  lemma TakenFrames(s: State, h: nat, x: Handle, rest: Thread)
    requires TopoOk(s.topo) && h < |s.topo| && Tail(s.topo, rest) && Settled(rest) && (x.ptr ==> x.link == s.topo[h].born)
    ensures var taken := TakeLocked(s.topo[h].kind, x).1;
            var fs := Cleanup(h, taken) + rest;
            && Tail(s.topo, fs) && Settled(fs)
            && forall k :: Deferred(s.topo, fs, k) == TakenTokens(h, taken, k) + Deferred(s.topo, rest, k)
  {
    var taken := TakeLocked(s.topo[h].kind, x).1;
    if taken.Taken? {
      CleanupKeeps(s.topo, h, taken.free, taken.parent, taken.slots, rest);
    } else {
      assert Cleanup(h, taken) + rest == rest;
    }
  }

  /** The books then call for one pin less, when one was given up, and for the destructor. */
  lemma TakeDue(s: State, z: State, t: nat, h: nat, x: Handle, k: Token)
    requires Local(s, z, t, h) && h < |s.hs| && HandleOk(s.topo[h], s.hs[h])
    requires x.ptr == s.hs[h].ptr && x.poison == s.hs[h].poison && x.children == s.hs[h].children
    requires z.hs[h] == TakeLocked(s.topo[h].kind, x).0
    requires z.made == s.made && z.freed == s.freed && z.deleted == s.deleted && z.abandoned == s.abandoned
    ensures Due(z, k) - Due(s, k) == One(k == FreeTok(h) && x.ptr && !z.hs[h].ptr && x.poison.None?)
                                     - if k == PinTok(h) then s.hs[h].active - x.active else 0
  {}

  lemma TakeGain(s: State, z: State, t: nat, h: nat, x: Handle, rest: Thread, k: Token)
    requires Local(s, z, t, h) && h < |s.hs| && HandleOk(s.topo[h], s.hs[h])
    requires Linked(s.topo[h].kind) <==> s.topo[h].born.Some?
    requires x.ptr == s.hs[h].ptr && x.link == s.hs[h].link && x.slots == s.hs[h].slots && x.poison == s.hs[h].poison
    requires x.children == s.hs[h].children
    requires z.hs[h] == TakeLocked(s.topo[h].kind, x).0
    requires z.made == s.made && z.freed == s.freed && z.deleted == s.deleted && z.abandoned == s.abandoned
    requires Held(s.topo, s.ts[t], k) == Deferred(s.topo, rest, k)
                                         + (if k == PinTok(h) then s.hs[h].active - x.active else 0)
    requires Held(s.topo, z.ts[t], k) == TakenTokens(h, TakeLocked(s.topo[h].kind, x).1, k) + Deferred(s.topo, rest, k)
    ensures Gain(s, z, t, h, k) == Due(z, k) - Due(s, k)
  {
    TakeMoves(s.topo[h], h, x, k);
    TakeDue(s, z, t, h, x, k);
    assert Kept(s.topo[h], x, k) == Kept(s.topo[h], s.hs[h], k);
  }

  lemma TakenNoPoison(kind: Kind, h: nat, x: Handle, k: Token)
    requires k.PoisonTok?
    ensures TakenTokens(h, TakeLocked(kind, x).1, k) == 0
  {
    NoPoisonInSlots(x.slots, k);
  }

  lemma {:induction false} NoPoisonInSlots(slots: seq<nat>, k: Token)
    ensures !k.CbTok? ==> SlotTokens(slots, k) == 0
  {
    if slots != [] { NoPoisonInSlots(slots[1..], k); }
  }

  /** A section that ends by taking the handle x, with `rest` left to run, balances its books. */
  lemma TakeBalances(s: State, z: State, t: nat, h: nat, x: Handle, rest: Thread)
    requires Before(s, t, h) && Local(s, z, t, h) && Tail(s.topo, rest) && Settled(rest)
    requires x.ptr == s.hs[h].ptr && x.link == s.hs[h].link && x.slots == s.hs[h].slots && x.poison == s.hs[h].poison
    requires x.children == s.hs[h].children
    requires z.hs[h] == TakeLocked(s.topo[h].kind, x).0
    requires z.ts[t] == Cleanup(h, TakeLocked(s.topo[h].kind, x).1) + rest
    requires z.made == s.made && z.freed == s.freed && z.deleted == s.deleted && z.abandoned == s.abandoned
    requires forall k :: Held(s.topo, s.ts[t], k) == Deferred(s.topo, rest, k)
                           + (if k == PinTok(h) then s.hs[h].active - x.active else 0)
    ensures ThreadOk(s.topo, z.ts[t]) && CapturedDead(s.topo, z.hs, z.ts[t])
    ensures PoisonKept(s, z, t, h) && Balanced(s, z, t, h)
  {
    TakenFrames(s, h, x, rest);
    TailIsOk(s.topo, z.ts[t]);
    forall k ensures Gain(s, z, t, h, k) == Due(z, k) - Due(s, k)
        && (k.PoisonTok? ==> Held(s.topo, z.ts[t], k) == Held(s.topo, s.ts[t], k)) {
      TakeGain(s, z, t, h, x, rest, k);
      if k.PoisonTok? { TakenNoPoison(s.topo[h].kind, h, x, k); }
    }
  }

  /** The release of the parent stands for the pins above h. */
  lemma UpFrames(s: State, h: nat, rest: Thread)
    requires |s.topo| == |s.hs| && TopoOk(s.topo) && h < |s.hs| && s.hs[h].link == s.topo[h].born
    requires Tail(s.topo, rest) && Settled(rest)
    ensures var up := UnpinFrames(s.hs[h].link) + rest;
            && Tail(s.topo, up) && Settled(up)
            && forall k :: Deferred(s.topo, up, k) + One(k == PinTok(h)) == Chain(s.topo, h, k) + Deferred(s.topo, rest, k)
  {
    ReleaseFrames(s.topo, s.hs[h].link, rest);
  }

  lemma HeldBeforeUnpin(s: State, t: nat, h: nat)
    requires Before(s, t, h) && s.ts[t][0].Unpin? && s.ts[t][0].h == h && s.hs[h].active > 0
    ensures var up := UnpinFrames(s.hs[h].link) + s.ts[t][1..];
            && Tail(s.topo, up) && Settled(up)
            && forall k :: Held(s.topo, s.ts[t], k) == Deferred(s.topo, up, k) + One(k == PinTok(h))
  {
    UpFrames(s, h, s.ts[t][1..]);
  }

  lemma UnpinLocal(s: State, t: nat, h: nat)
    requires Before(s, t, h) && s.ts[t][0].Unpin? && s.ts[t][0].h == h && s.hs[h].active > 0
    ensures StepOk(s, RunUnpin(s, t), t, h)
  {
    var rest := s.ts[t][1..];
    var z := RunUnpin(s, t);
    var x := s.hs[h].(active := s.hs[h].active - 1);
    var up := UnpinFrames(s.hs[h].link) + rest;
    HeldBeforeUnpin(s, t, h);
    assert z.ts[t] == Cleanup(h, TakeLocked(s.topo[h].kind, x).1) + up;
    TakeBalances(s, z, t, h, x, up);
  }

  lemma UnpinKeeps(s: State, t: nat)
    requires Inv(s) && Ready(s, t) && s.ts[t][0].Unpin?
    ensures s.ts[t][0].h < |s.hs| && Safe(s, RunUnpin(s, t))
  {
    var h := s.ts[t][0].h;
    assert ThreadOk(s.topo, s.ts[t]);
    PinnedIsPresent(s, t, h);
    BeforeHolds(s, t, h);
    UnpinLocal(s, t, h);
    StepKeeps(s, RunUnpin(s, t), t, h);
  }

  lemma CloseTakes(s: State, t: nat, h: nat)
    requires Before(s, t, h) && s.ts[t][0].Close? && s.ts[t][0].h == h
    requires !s.hs[h].closed && CloseRefused(s.topo[h].kind, s.hs[h]).None? && !s.topo[h].kind.View?
    ensures StepOk(s, RunClose(s, t), t, h)
  {
    TakeBalances(s, RunClose(s, t), t, h, s.hs[h].(closed := true, armed := false), s.ts[t][1..]);
  }

  lemma CloseRests(s: State, t: nat, h: nat)
    requires Before(s, t, h) && s.ts[t][0].Close? && s.ts[t][0].h == h
    requires s.hs[h].closed || CloseRefused(s.topo[h].kind, s.hs[h]).Some? || s.topo[h].kind.View?
    ensures StepOk(s, RunClose(s, t), t, h)
  {
    var z := RunClose(s, t);
    assert z.ts[t] == s.ts[t][1..];
    TailIsOk(s.topo, s.ts[t][1..]);
    forall k ensures KeptAt(z, h, k) == KeptAt(s, h, k) && Held(s.topo, z.ts[t], k) == Held(s.topo, s.ts[t], k) {}
    StepFrom(s, z, t, h);
  }

  lemma CloseLocal(s: State, t: nat, h: nat)
    requires Before(s, t, h) && s.ts[t][0].Close? && s.ts[t][0].h == h
    ensures StepOk(s, RunClose(s, t), t, h)
  {
    var kind, x := s.topo[h].kind, s.hs[h];
    if x.closed || CloseRefused(kind, x).Some? || kind.View? { CloseRests(s, t, h); } else { CloseTakes(s, t, h); }
  }

  lemma CloseKeeps(s: State, t: nat)
    requires Inv(s) && Ready(s, t) && s.ts[t][0].Close?
    ensures s.ts[t][0].h < |s.hs| && Safe(s, RunClose(s, t))
  {
    var h := s.ts[t][0].h;
    assert ThreadOk(s.topo, s.ts[t]);
    BeforeHolds(s, t, h);
    CloseLocal(s, t, h);
    StepKeeps(s, RunClose(s, t), t, h);
  }

  lemma CollectedFrames(topo: Topology, h: nat, x: Handle)
    requires TopoOk(topo) && h < |topo| && HandleOk(topo[h], x) && Collectable(x)
    ensures var fs := Cleanup(h, Collected(x).1);
            && ThreadOk(topo, fs) && Settled(fs)
            && forall k :: Held(topo, fs, k) == TakenTokens(h, Collected(x).1, k)
  {
    var fs := Cleanup(h, Collected(x).1);
    CleanupKeeps(topo, h, true, x.link, x.slots, []);
    assert fs + [] == fs;
    TailIsOk(topo, fs);
  }

  lemma CollectLocal(s: State, t: nat, h: nat)
    requires |s.topo| == |s.hs| && TopoOk(s.topo) && !s.crashed && t < |s.ts| && s.ts[t] == []
    requires h < |s.hs| && HandleOk(s.topo[h], s.hs[h]) && Collectable(s.hs[h])
    ensures StepOk(s, RunCollect(s, t, h), t, h)
  {
    CollectedFrames(s.topo, h, s.hs[h]);
    forall k: Token ensures k.PoisonTok? ==> SlotTokens(s.hs[h].slots, k) == 0 { NoPoisonInSlots(s.hs[h].slots, k); }
  }

  lemma CollectKeeps(s: State, t: nat, h: nat)
    requires Inv(s) && t < |s.ts| && s.ts[t] == [] && h < |s.hs| && Collectable(s.hs[h])
    ensures Safe(s, RunCollect(s, t, h))
  {
    assert HandleOk(s.topo[h], s.hs[h]);
    CollectLocal(s, t, h);
    StepKeeps(s, RunCollect(s, t, h), t, h);
  }

  // ----- the short sections -----

  lemma PopKeeps(s: State, z: State, t: nat, h: nat)
    requires Inv(s) && Ready(s, t) && h < |s.hs| && Local(s, z, t, h) && !z.crashed && z.ts[t] == s.ts[t][1..]
    requires s.ts[t][0].Free? || s.ts[t][0].Drop? || s.ts[t][0].Delete?
    requires z.hs[h] == s.hs[h] || (s.ts[t][0] == Drop(h) && z.hs[h] == Dropped(s.hs[h]))
    requires forall k :: Due(s, k) - Due(z, k) == FrameTokens(s.topo, s.ts[t][0], k)
    ensures Safe(s, z)
  {
    BeforeHolds(s, t, h);
    TailIsOk(s.topo, s.ts[t][1..]);
    StepKeeps(s, z, t, h);
  }

  lemma FreeKeeps(s: State, t: nat)
    requires Inv(s) && Ready(s, t) && s.ts[t][0].Free?
    ensures Safe(s, RunFree(s, t))
  {
    assert ThreadOk(s.topo, s.ts[t]);
    PopKeeps(s, RunFree(s, t), t, s.ts[t][0].h);
  }

  lemma DropKeeps(s: State, t: nat)
    requires Inv(s) && Ready(s, t) && s.ts[t][0].Drop?
    ensures s.ts[t][0].h < |s.hs| && Safe(s, RunDrop(s, t))
  {
    assert ThreadOk(s.topo, s.ts[t]);
    PopKeeps(s, RunDrop(s, t), t, s.ts[t][0].h);
  }

  lemma DeleteKeeps(s: State, t: nat)
    requires Inv(s) && Ready(s, t) && s.ts[t][0].Delete?
    ensures Safe(s, RunDelete(s, t))
  {
    assert ThreadOk(s.topo, s.ts[t]);
    TailIsOk(s.topo, s.ts[t][1..]);
    AsideKeeps(s, RunDelete(s, t), t);
  }

  lemma InvokeFrames(topo: Topology, h: nat, shape: Shape, rest: Thread)
    requires TopoOk(topo) && ThreadOk(topo, rest) && GoCode(rest) && OpOk(topo, Invoke(h, shape))
    ensures var fs := [Enter(topo, h, shape.NewChild?), Want(h, shape)] + rest;
            && ThreadOk(topo, fs) && !(fs[0].Pin? && topo[fs[0].h].born.Some?)
            && forall k :: Held(topo, fs, k) == Held(topo, rest, k)
  {
    var e, want := Enter(topo, h, shape.NewChild?), Want(h, shape);
    assert [e, want] + rest == [e] + ([want] + rest);
    TailCons(topo, want, rest);
    DeferredCons(topo, want, rest);
    DeferredCons(topo, e, [want] + rest);
  }

  lemma InvokeKeeps(s: State, t: nat, h: nat, shape: Shape)
    requires Inv(s) && t < |s.ts| && GoCode(s.ts[t]) && OpOk(s.topo, Invoke(h, shape))
    ensures Safe(s, StartOp(s, t, Invoke(h, shape)))
  {
    assert ThreadOk(s.topo, s.ts[t]);
    InvokeFrames(s.topo, h, shape, s.ts[t]);
    AsideKeeps(s, StartOp(s, t, Invoke(h, shape)), t);
  }

  lemma CloseStartKeeps(s: State, t: nat, h: nat)
    requires Inv(s) && t < |s.ts| && GoCode(s.ts[t]) && h < |s.topo|
    ensures Safe(s, StartOp(s, t, CloseHandle(h)))
  {
    assert ThreadOk(s.topo, s.ts[t]);
    DeferredCons(s.topo, Close(h), s.ts[t]);
    AsideKeeps(s, StartOp(s, t, CloseHandle(h)), t);
  }

  lemma BuildFrames(topo: Topology, cb: nat, rest: Thread)
    requires ThreadOk(topo, rest) && GoCode(rest) && cb != 0
    ensures ThreadOk(topo, [Build(cb)] + rest)
    ensures forall k :: Held(topo, [Build(cb)] + rest, k) == CbTokens(cb, k) + Held(topo, rest, k)
  {
    DeferredCons(topo, Build(cb), rest);
  }

  lemma BuildStartKeeps(s: State, t: nat)
    requires Inv(s) && t < |s.ts| && GoCode(s.ts[t])
    ensures Safe(s, StartOp(s, t, NewQueue))
  {
    assert ThreadOk(s.topo, s.ts[t]);
    BuildFrames(s.topo, s.made + 1, s.ts[t]);
    AsideKeeps(s, StartOp(s, t, NewQueue), t);
  }

  lemma StartKeeps(s: State, t: nat, op: Op)
    requires Inv(s) && t < |s.ts| && GoCode(s.ts[t]) && OpOk(s.topo, op)
    ensures Safe(s, StartOp(s, t, op))
  {
    match op
    case Invoke(h, shape) => InvokeKeeps(s, t, h, shape);
    case CloseHandle(h) => CloseStartKeeps(s, t, h);
    case NewQueue => BuildStartKeeps(s, t);
  }
}
