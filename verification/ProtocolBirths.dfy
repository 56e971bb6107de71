/** Steps that return from a native call, some of them with a new handle, keep the invariant. */
module ProtocolBirths {
  import opened Wrappers
  import opened Sections
  import opened Protocol
  import opened Tokens
  import opened ProtocolInvariant
  import opened ProtocolSteps

  // ----- a longer topology changes nothing for the handles that were there -----

  lemma FrameOkAppend(topo: Topology, node: Node, f: Frame, rest: Thread, top: bool)
    requires FrameOk(topo, f, rest, top)
    requires forall k :: Deferred(topo + [node], rest, k) == Deferred(topo, rest, k)
    ensures FrameOk(topo + [node], f, rest, top)
    ensures forall k :: FrameTokens(topo + [node], f, k) == FrameTokens(topo, f, k)
  {
    if f.Pin? || f.Native? { RootAppend(topo, node, f.h); }
    forall k ensures FrameTokens(topo + [node], f, k) == FrameTokens(topo, f, k) {
      if f.Native? || f.Unpin? { ChainAppend(topo, node, f.h, k); }
    }
  }

  lemma {:induction false} TailAppend(topo: Topology, node: Node, fs: Thread)
    requires Tail(topo, fs)
    ensures Tail(topo + [node], fs)
    ensures forall k :: Deferred(topo + [node], fs, k) == Deferred(topo, fs, k)
  {
    if fs != [] {
      TailAppend(topo, node, fs[1..]);
      FrameOkAppend(topo, node, fs[0], fs[1..], false);
    }
  }

  lemma ThreadAppend(topo: Topology, node: Node, fs: Thread)
    requires TopoOk(topo) && ThreadOk(topo, fs)
    ensures ThreadOk(topo + [node], fs)
    ensures forall k :: Held(topo + [node], fs, k) == Held(topo, fs, k)
  {
    if fs != [] {
      TailAppend(topo, node, fs[1..]);
      FrameOkAppend(topo, node, fs[0], fs[1..], true);
      forall k ensures Held(topo + [node], fs, k) == Held(topo, fs, k) {
        if fs[0].Pin? && fs[0].parent.Some? { ChainAppend(topo, node, fs[0].parent.value, k); }
        assert Deferred(topo + [node], fs, k) == Deferred(topo, fs, k);
      }
    }
  }

  lemma {:induction false} ThreadsAppend(topo: Topology, node: Node, ts: seq<Thread>, k: Token)
    requires TopoOk(topo) && forall t | 0 <= t < |ts| :: ThreadOk(topo, ts[t])
    ensures Threads(topo + [node], ts, k) == Threads(topo, ts, k)
  {
    if ts != [] {
      ThreadAppend(topo, node, ts[0]);
      ThreadsAppend(topo, node, ts[1..], k);
    }
  }

  // ----- a handle is born -----

  predicate NodeOk(topo: Topology, node: Node, slots: seq<nat>) {
    && (Linked(node.kind) <==> node.born.Some?)
    && (node.born.Some? ==> node.born.value < |topo|)
    && (node.kind.Child? ==> Reserves(topo[node.born.value].kind))
    && (if node.kind.Queue? then |slots| == 3 else slots == [])
  }

  lemma BornShaped(m: State, node: Node, slots: seq<nat>)
    requires Shaped(m) && NodeOk(m.topo, node, slots)
    ensures Shaped(Born(m, node, slots))
  {
    var z := Born(m, node, slots);
    forall i | 0 <= i < |z.hs| ensures PoisonClimbs(z, i) {
      if i < |m.hs| && z.hs[i].poison.Some? && z.topo[i].born.Some? {
        assert PoisonClimbs(m, i);
        ThreadsAppend(m.topo, node, m.ts, PoisonTok(z.topo[i].born.value));
      }
    }
    forall u | 0 <= u < |z.ts| ensures ThreadOk(z.topo, z.ts[u]) && CapturedDead(z.topo, z.hs, z.ts[u]) {
      assert ThreadOk(m.topo, m.ts[u]) && CapturedDead(m.topo, m.hs, m.ts[u]);
      ThreadAppend(m.topo, node, m.ts[u]);
    }
  }

  lemma BornBooks(m: State, node: Node, slots: seq<nat>, k: Token)
    requires |m.topo| == |m.hs| && TopoOk(m.topo) && (forall t | 0 <= t < |m.ts| :: ThreadOk(m.topo, m.ts[t]))
    ensures var z, x := Born(m, node, slots), Fresh(node.kind, node.born, slots);
            Total(z, k) == Total(m, k) + Kept(node, x, k) && Due(z, k) == Due(m, k)
  {
    ThreadsAppend(m.topo, node, m.ts, k);
    HandlesAppend(m.topo, m.hs, node, Fresh(node.kind, node.born, slots), k);
  }

  /** A newborn handle enters the books with what it keeps. */
  lemma BornKeeps(m: State, node: Node, slots: seq<nat>)
    requires Shaped(m) && NodeOk(m.topo, node, slots)
    requires forall k: Token | !k.PoisonTok? ::
               Total(m, k) + Kept(node, Fresh(node.kind, node.born, slots), k) == Due(m, k)
    ensures Inv(Born(m, node, slots))
  {
    var z := Born(m, node, slots);
    BornShaped(m, node, slots);
    forall k: Token | !k.PoisonTok? ensures Total(z, k) == Due(z, k) { BornBooks(m, node, slots, k); }
  }

  lemma BornMoves(s: State, m: State, node: Node, slots: seq<nat>)
    requires TopoOk(m.topo) && (forall t | 0 <= t < |m.ts| :: ThreadOk(m.topo, m.ts[t]))
    requires |s.hs| == |m.hs| && PoisonMoves(s, m)
    ensures PoisonMoves(s, Born(m, node, slots))
  {
    forall p: nat ensures Threads(m.topo + [node], m.ts, PoisonTok(p)) == Threads(m.topo, m.ts, PoisonTok(p)) {
      ThreadsAppend(m.topo, node, m.ts, PoisonTok(p));
    }
  }

  lemma CreateKeeps(s: State, kind: Kind)
    requires Inv(s) && (kind.Box? || kind.Terminal?)
    ensures Safe(s, Born(s, Node(kind, None), []))
  {
    BornMoves(s, s, Node(kind, None), []);
    BornKeeps(s, Node(kind, None), []);
  }

  // ----- returning from a native call -----

  function PoisonTokens(h: nat, shape: Shape, outcome: Outcome, k: Token): nat {
    if !outcome.Panicked? then 0
    else One(shape.Merged? && k == PoisonTok(shape.receiver)) + One(k == PoisonTok(h))
  }

  lemma PoisonOne(topo: Topology, h: nat, cause: Cause, rest: Thread)
    requires Tail(topo, rest) && Settled(rest) && h < |topo| && Deferred(topo, rest, PinTok(h)) > 0
    ensures Tail(topo, [Poison(h, cause)] + rest) && Settled([Poison(h, cause)] + rest)
    ensures forall k :: Deferred(topo, [Poison(h, cause)] + rest, k) == One(k == PoisonTok(h)) + Deferred(topo, rest, k)
  {
    TailCons(topo, Poison(h, cause), rest);
    DeferredCons(topo, Poison(h, cause), rest);
  }

  lemma PoisonPrefix(topo: Topology, h: nat, shape: Shape, outcome: Outcome, rest: Thread)
    requires Tail(topo, rest) && Settled(rest) && h < |topo| && Deferred(topo, rest, PinTok(h)) > 0
    requires shape.Merged? ==> shape.receiver < |topo| && Deferred(topo, rest, PinTok(shape.receiver)) > 0
    ensures var fs := PoisonFrames(h, shape, outcome) + rest;
            && Tail(topo, fs) && Settled(fs)
            && forall k :: Deferred(topo, fs, k) == PoisonTokens(h, shape, outcome, k) + Deferred(topo, rest, k)
  {
    if outcome.Panicked? {
      PoisonOne(topo, h, outcome.cause, rest);
      var a := [Poison(h, outcome.cause)] + rest;
      if shape.Merged? {
        PoisonOne(topo, shape.receiver, outcome.cause, a);
        assert PoisonFrames(h, shape, outcome) + rest == [Poison(shape.receiver, outcome.cause)] + a;
      } else {
        assert PoisonFrames(h, shape, outcome) + rest == a;
      }
    } else {
      assert PoisonFrames(h, shape, outcome) + rest == rest;
    }
  }

  lemma UnpinPrefix(topo: Topology, h: nat, rest: Thread)
    requires h < |topo| && Tail(topo, rest) && Settled(rest)
    ensures Tail(topo, [Unpin(h)] + rest) && Settled([Unpin(h)] + rest)
    ensures forall k :: Deferred(topo, [Unpin(h)] + rest, k) == Chain(topo, h, k) + Deferred(topo, rest, k)
    ensures Deferred(topo, [Unpin(h)] + rest, PinTok(h)) > 0
  {
    TailCons(topo, Unpin(h), rest);
    DeferredCons(topo, Unpin(h), rest);
  }

  lemma DeletePrefix(topo: Topology, cb: nat, rest: Thread)
    requires cb != 0 && Tail(topo, rest) && Settled(rest)
    ensures Tail(topo, [Delete(cb)] + rest) && Settled([Delete(cb)] + rest)
    ensures forall k :: Deferred(topo, [Delete(cb)] + rest, k) == CbTokens(cb, k) + Deferred(topo, rest, k)
  {
    TailCons(topo, Delete(cb), rest);
    DeferredCons(topo, Delete(cb), rest);
  }

  /** The reservation stays with the call unless a child was made, the callback handle unless a queue
      was made or a rethrown panic left it behind. */
  predicate KeepsRes(shape: Shape, outcome: Outcome) { shape.NewChild? && !outcome.Returned? }

  predicate KeepsCb(shape: Shape, outcome: Outcome) {
    shape.Observe? || (shape.Clone? && (outcome.Failed? || outcome.Panicked?))
  }

  ghost predicate LeftOk(topo: Topology, f: Frame, rest: Thread, outcome: Outcome)
    requires f.Native?
  {
    var fs := AfterNative(f.h, f.shape, f.res, f.cb, outcome) + rest;
    && Tail(topo, fs) && Settled(fs)
    && forall k :: Deferred(topo, fs, k) ==
         PoisonTokens(f.h, f.shape, if f.shape.Observe? && outcome.Returned? then Failed else outcome, k)
         + Chain(topo, f.h, k) + (if KeepsRes(f.shape, outcome) then ResTokens(f.res, k) else 0)
         + (if KeepsCb(f.shape, outcome) then CbTokens(f.cb, k) else 0) + Deferred(topo, rest, k)
  }

  lemma AfterChild(topo: Topology, f: Frame, rest: Thread, outcome: Outcome)
    requires f.Native? && f.shape.NewChild? && FrameOk(topo, f, rest, true) && Tail(topo, rest)
    ensures LeftOk(topo, f, rest, outcome)
  {
    var res := if outcome.Returned? then None else f.res;
    ReservedDropKeeps(topo, res, rest);
    UnpinPrefix(topo, f.h, DropFrames(res) + rest);
    PoisonPrefix(topo, f.h, f.shape, outcome, [Unpin(f.h)] + (DropFrames(res) + rest));
    assert AfterNative(f.h, f.shape, f.res, f.cb, outcome) + rest
        == PoisonFrames(f.h, f.shape, outcome) + ([Unpin(f.h)] + (DropFrames(res) + rest));
  }

  lemma AfterObserve(topo: Topology, f: Frame, rest: Thread, outcome: Outcome)
    requires f.Native? && f.shape.Observe? && FrameOk(topo, f, rest, true) && Tail(topo, rest)
    ensures LeftOk(topo, f, rest, outcome)
  {
    if outcome.Returned? { AfterObserved(topo, f, rest); } else { AfterUnobserved(topo, f, rest, outcome); }
  }

  lemma AfterObserved(topo: Topology, f: Frame, rest: Thread)
    requires f.Native? && f.shape.Observe? && FrameOk(topo, f, rest, true) && Tail(topo, rest)
    ensures LeftOk(topo, f, rest, Returned)
  {
    var a := [Unpin(f.h)] + rest;
    UnpinPrefix(topo, f.h, rest);
    TailCons(topo, Swap(f.h, f.cb), a);
    DeferredCons(topo, Swap(f.h, f.cb), a);
    assert AfterNative(f.h, f.shape, f.res, f.cb, Returned) + rest == [Swap(f.h, f.cb)] + a;
  }

  lemma AfterUnobserved(topo: Topology, f: Frame, rest: Thread, outcome: Outcome)
    requires f.Native? && f.shape.Observe? && FrameOk(topo, f, rest, true) && Tail(topo, rest) && !outcome.Returned?
    ensures LeftOk(topo, f, rest, outcome)
  {
    var a := [Unpin(f.h)] + rest;
    UnpinPrefix(topo, f.h, rest);
    DeletePrefix(topo, f.cb, a);
    PoisonPrefix(topo, f.h, f.shape, outcome, [Delete(f.cb)] + a);
    assert AfterNative(f.h, f.shape, f.res, f.cb, outcome) + rest
        == PoisonFrames(f.h, f.shape, outcome) + ([Delete(f.cb)] + a);
  }

  lemma AfterClone(topo: Topology, f: Frame, rest: Thread, outcome: Outcome)
    requires f.Native? && f.shape.Clone? && FrameOk(topo, f, rest, true) && Tail(topo, rest)
    ensures LeftOk(topo, f, rest, outcome)
  {
    var a := [Unpin(f.h)] + rest;
    UnpinPrefix(topo, f.h, rest);
    if !outcome.Returned? && !outcome.Rethrown? {
      PoisonPrefix(topo, f.h, f.shape, outcome, a);
      DeletePrefix(topo, f.cb, PoisonFrames(f.h, f.shape, outcome) + a);
      assert AfterNative(f.h, f.shape, f.res, f.cb, outcome) + rest
          == [Delete(f.cb)] + (PoisonFrames(f.h, f.shape, outcome) + a);
    }
  }

  lemma AfterCall(topo: Topology, f: Frame, rest: Thread, outcome: Outcome)
    requires f.Native? && FrameOk(topo, f, rest, true) && Tail(topo, rest)
    requires f.shape.Call? || f.shape.Merged? || f.shape.NewView?
    ensures LeftOk(topo, f, rest, outcome)
  {
    var a := [Unpin(f.h)] + rest;
    UnpinPrefix(topo, f.h, rest);
    if f.shape.Merged? {
      assert Deferred(topo, rest, PinTok(f.shape.receiver)) > 0;
    }
    PoisonPrefix(topo, f.h, f.shape, outcome, a);
    assert AfterNative(f.h, f.shape, f.res, f.cb, outcome) + rest == PoisonFrames(f.h, f.shape, outcome) + a;
  }

  lemma AfterNativeOk(topo: Topology, f: Frame, rest: Thread, outcome: Outcome)
    requires f.Native? && FrameOk(topo, f, rest, true) && Tail(topo, rest)
    ensures LeftOk(topo, f, rest, outcome)
  {
    match f.shape
    case NewChild => AfterChild(topo, f, rest, outcome);
    case Observe => AfterObserve(topo, f, rest, outcome);
    case Clone => AfterClone(topo, f, rest, outcome);
    case _ => AfterCall(topo, f, rest, outcome);
  }

  /** The state in which a call has returned and its child, view or queue is yet to be entered. */
  lemma ReturnShaped(s: State, m: State, t: nat, outcome: Outcome)
    requires Inv(s) && Ready(s, t) && s.ts[t][0].Native?
    requires Local(s, m, t, |s.hs|) && !m.crashed
    requires var Native(h, shape, res, cb) := s.ts[t][0];
             m.ts[t] == AfterNative(h, shape, res, cb, outcome) + s.ts[t][1..]
    ensures Shaped(m) && PoisonMoves(s, m)
    ensures var Native(h, shape, res, cb) := s.ts[t][0];
            forall k: Token | !k.PoisonTok? ::
              Total(m, k) == Total(s, k) - (if KeepsRes(shape, outcome) then 0 else ResTokens(res, k))
                             - (if KeepsCb(shape, outcome) then 0 else CbTokens(cb, k))
  {
    assert ThreadOk(s.topo, s.ts[t]);
    var f, rest := s.ts[t][0], s.ts[t][1..];
    AfterNativeOk(s.topo, f, rest, outcome);
    TailIsOk(s.topo, m.ts[t]);
    forall p: nat ensures Held(s.topo, m.ts[t], PoisonTok(p)) >= Held(s.topo, s.ts[t], PoisonTok(p)) {}
    StepShaped(s, m, t, |s.hs|);
    forall k: Token | !k.PoisonTok?
      ensures Total(m, k) == Total(s, k) - (if KeepsRes(f.shape, outcome) then 0 else ResTokens(f.res, k))
                             - (if KeepsCb(f.shape, outcome) then 0 else CbTokens(f.cb, k))
    {
      TotalAfter(s, m, t, |s.hs|, k);
    }
  }

  /** The frame in progress belongs to a call whose tokens the books still carry. */
  lemma BirthKeeps(s: State, m: State, node: Node, slots: seq<nat>, res: Option<nat>, cb: nat)
    requires Inv(s) && Shaped(m) && NodeOk(s.topo, node, slots)
    requires m == s.(ts := m.ts) && PoisonMoves(s, m)
    requires forall k: Token | !k.PoisonTok? :: Total(m, k) == Total(s, k) - ResTokens(res, k) - CbTokens(cb, k)
    requires if node.kind.Child? then res == node.born else res == None
    requires forall k :: SlotTokens(slots, k) == CbTokens(cb, k)
    ensures Safe(s, Born(m, node, slots))
  {
    BornMoves(s, m, node, slots);
    var x := Fresh(node.kind, node.born, slots);
    forall k: Token | !k.PoisonTok? ensures Total(m, k) + Kept(node, x, k) == Due(m, k) {
      assert Total(s, k) == Due(s, k) == Due(m, k);
    }
    BornKeeps(m, node, slots);
  }

  lemma AbandonKeeps(s: State, m: State, z: State, cb: nat)
    requires Inv(s) && Shaped(m) && m == s.(ts := m.ts) && z == m.(abandoned := s.abandoned + multiset{cb}) && cb != 0
    requires forall k: Token | !k.PoisonTok? :: Total(m, k) == Total(s, k) - CbTokens(cb, k)
    ensures Inv(z)
  {
    forall i | 0 <= i < |z.hs| ensures PoisonClimbs(z, i) { assert PoisonClimbs(m, i); }
    forall k: Token | !k.PoisonTok? ensures Total(z, k) == Due(z, k) {
      assert Total(z, k) == Total(m, k) && Total(s, k) == Due(s, k);
    }
  }

  lemma NativeKeeps(s: State, t: nat, outcome: Outcome)
    requires Inv(s) && Ready(s, t) && s.ts[t][0].Native?
    ensures Safe(s, RunNative(s, t, outcome))
  {
    assert ThreadOk(s.topo, s.ts[t]);
    var Native(h, shape, res, cb) := s.ts[t][0];
    var m := SetThread(s, t, AfterNative(h, shape, res, cb, outcome) + s.ts[t][1..]);
    ReturnShaped(s, m, t, outcome);
    if outcome.Returned? && shape.NewChild? {
      BirthKeeps(s, m, Node(Child, res), [], res, 0);
    } else if outcome.Returned? && shape.NewView? {
      BirthKeeps(s, m, Node(View, Some(h)), [], None, 0);
    } else if outcome.Returned? && shape.Clone? {
      forall k: Token ensures SlotTokens([0, cb, 0], k) == CbTokens(cb, k) { ThreeSlots([0, cb, 0], k); }
      BirthKeeps(s, m, Node(Queue, None), [0, cb, 0], None, cb);
    } else if outcome.Rethrown? && shape.Clone? {
      AbandonKeeps(s, m, RunNative(s, t, outcome), cb);
    } else {
      assert RunNative(s, t, outcome) == m;
      PlainKeeps(s, m);
    }
  }

  lemma PlainKeeps(s: State, m: State)
    requires Inv(s) && Shaped(m) && m == s.(ts := m.ts)
    requires forall k: Token | !k.PoisonTok? :: Total(m, k) == Total(s, k)
    ensures Inv(m)
  {
    forall k: Token | !k.PoisonTok? ensures Total(m, k) == Due(m, k) {
      assert Total(s, k) == Due(s, k);
    }
  }

  /** The constructor has returned or rethrown, and its callback handle is yet to be entered. */
  lemma BuildShaped(s: State, m: State, t: nat)
    requires Inv(s) && Ready(s, t) && s.ts[t][0].Build? && m == SetThread(s, t, s.ts[t][1..])
    ensures Shaped(m) && PoisonMoves(s, m)
    ensures forall k: Token | !k.PoisonTok? ::
              Total(m, k) == Total(s, k) - ResTokens(None, k) - CbTokens(s.ts[t][0].cb, k)
  {
    assert ThreadOk(s.topo, s.ts[t]);
    TailIsOk(s.topo, s.ts[t][1..]);
    StepShaped(s, m, t, |s.hs|);
    forall k: Token | !k.PoisonTok?
      ensures Total(m, k) == Total(s, k) - ResTokens(None, k) - CbTokens(s.ts[t][0].cb, k)
    {
      TotalAfter(s, m, t, |s.hs|, k);
    }
  }

  lemma BuildFails(s: State, t: nat, outcome: Outcome)
    requires Inv(s) && Ready(s, t) && s.ts[t][0].Build? && !outcome.Returned? && !outcome.Rethrown?
    ensures Safe(s, RunBuild(s, t, outcome))
  {
    assert ThreadOk(s.topo, s.ts[t]);
    DeletePrefix(s.topo, s.ts[t][0].cb, s.ts[t][1..]);
    TailIsOk(s.topo, RunBuild(s, t, outcome).ts[t]);
    AsideKeeps(s, RunBuild(s, t, outcome), t);
  }

  lemma BuildKeeps(s: State, t: nat, outcome: Outcome)
    requires Inv(s) && Ready(s, t) && s.ts[t][0].Build?
    ensures Safe(s, RunBuild(s, t, outcome))
  {
    assert ThreadOk(s.topo, s.ts[t]);
    var cb, m := s.ts[t][0].cb, SetThread(s, t, s.ts[t][1..]);
    match outcome
    case Returned =>
      BuildShaped(s, m, t);
      forall k: Token ensures SlotTokens([cb, 0, 0], k) == CbTokens(cb, k) { ThreeSlots([cb, 0, 0], k); }
      BirthKeeps(s, m, Node(Queue, None), [cb, 0, 0], None, cb);
    case Rethrown =>
      BuildShaped(s, m, t);
      AbandonKeeps(s, m, RunBuild(s, t, outcome), cb);
    case _ => BuildFails(s, t, outcome);
  }
}
