/** Accounting for the protocol.
    What a thread or a handle holds is counted in tokens: one pin for the handle and every ancestor of
    a call in progress or a deferred release, one reservation for a child in the making, alive or being
    dropped, and one token for each destructor, poisoning and callback handle on its way. */
module Tokens {
  import opened Wrappers
  import opened Sections
  import opened Protocol

  datatype Token = PinTok(h: nat) | ResTok(h: nat) | FreeTok(h: nat) | PoisonTok(h: nat) | CbTok(cb: nat)

  function One(b: bool): nat { if b then 1 else 0 }

  /** The pins on a handle, its parent, the parent of that, and so on. */
  function Chain(topo: Topology, h: nat, k: Token): nat {
    One(k == PinTok(h)) +
    if h < |topo| && topo[h].born.Some? && topo[h].born.value < h then Chain(topo, topo[h].born.value, k) else 0
  }

  /** The handle that owns the native object a chain of views looks into. */
  function Root(topo: Topology, h: nat): nat {
    if h < |topo| && topo[h].born.Some? && topo[h].born.value < h then Root(topo, topo[h].born.value) else h
  }

  function ResTokens(res: Option<nat>, k: Token): nat { One(res.Some? && k == ResTok(res.value)) }

  function CbTokens(cb: nat, k: Token): nat { One(cb != 0 && k == CbTok(cb)) }

  function SlotTokens(slots: seq<nat>, k: Token): nat {
    if slots == [] then 0 else CbTokens(slots[0], k) + SlotTokens(slots[1..], k)
  }

  function FrameTokens(topo: Topology, f: Frame, k: Token): nat {
    match f
    case Pin(_, _, _, res) => ResTokens(res, k)
    case Native(h, _, res, cb) => Chain(topo, h, k) + ResTokens(res, k) + CbTokens(cb, k)
    case Build(cb) => CbTokens(cb, k)
    case Swap(_, cb) => CbTokens(cb, k)
    case Poison(h, _) => One(k == PoisonTok(h))
    case Unpin(h) => Chain(topo, h, k)
    case Free(h) => One(k == FreeTok(h))
    case Drop(h) => One(k == ResTok(h))
    case Delete(cb) => CbTokens(cb, k)
    case _ => 0
  }

  function Deferred(topo: Topology, fs: Thread, k: Token): nat {
    if fs == [] then 0 else FrameTokens(topo, fs[0], k) + Deferred(topo, fs[1..], k)
  }

  /** A thread about to pin a handle already holds the parent it captured. */
  function TopTokens(topo: Topology, fs: Thread, k: Token): nat {
    if fs != [] && fs[0].Pin? && fs[0].parent.Some? then Chain(topo, fs[0].parent.value, k) else 0
  }

  function Held(topo: Topology, fs: Thread, k: Token): nat { TopTokens(topo, fs, k) + Deferred(topo, fs, k) }

  function Threads(topo: Topology, ts: seq<Thread>, k: Token): nat {
    if ts == [] then 0 else Held(topo, ts[0], k) + Threads(topo, ts[1..], k)
  }

  /** An undestroyed child keeps its reservation, an undestroyed queue its callback handles. */
  function Kept(node: Node, x: Handle, k: Token): nat {
    if !x.ptr then 0 else (if node.kind.Child? then ResTokens(x.link, k) else 0) + SlotTokens(x.slots, k)
  }

  function Handles(topo: Topology, hs: seq<Handle>, k: Token): nat
    requires |topo| == |hs|
  {
    if hs == [] then 0
    else Handles(topo[..|hs| - 1], hs[..|hs| - 1], k) + Kept(topo[|hs| - 1], hs[|hs| - 1], k)
  }

  function Total(s: State, k: Token): nat
    requires |s.topo| == |s.hs|
  {
    Threads(s.topo, s.ts, k) + Handles(s.topo, s.hs, k)
  }

  // ----- replacing one thread or one handle -----

  lemma {:induction false} ThreadsUpdate(topo: Topology, ts: seq<Thread>, t: nat, fs: Thread, k: Token)
    requires t < |ts|
    ensures Threads(topo, ts[t := fs], k) == Threads(topo, ts, k) - Held(topo, ts[t], k) + Held(topo, fs, k)
  {
    if t == 0 {
      assert ts[0 := fs][1..] == ts[1..];
    } else {
      assert ts[t := fs][1..] == ts[1..][t - 1 := fs];
      ThreadsUpdate(topo, ts[1..], t - 1, fs, k);
    }
  }

  lemma {:induction false} HandlesUpdate(topo: Topology, hs: seq<Handle>, h: nat, x: Handle, k: Token)
    requires h < |hs| == |topo|
    ensures Handles(topo, hs[h := x], k) == Handles(topo, hs, k) - Kept(topo[h], hs[h], k) + Kept(topo[h], x, k)
  {
    var n := |hs| - 1;
    if h == n {
      assert hs[h := x][..n] == hs[..n];
    } else {
      assert hs[h := x][..n] == hs[..n][h := x];
      HandlesUpdate(topo[..n], hs[..n], h, x, k);
    }
  }

  lemma HandlesAppend(topo: Topology, hs: seq<Handle>, node: Node, x: Handle, k: Token)
    requires |hs| == |topo|
    ensures Handles(topo + [node], hs + [x], k) == Handles(topo, hs, k) + Kept(node, x, k)
  {
    assert (topo + [node])[..|hs|] == topo && (hs + [x])[..|hs|] == hs;
  }

  lemma {:induction false} ThreadBelow(topo: Topology, ts: seq<Thread>, t: nat, k: Token)
    requires t < |ts|
    ensures Held(topo, ts[t], k) <= Threads(topo, ts, k)
  {
    if t > 0 { ThreadBelow(topo, ts[1..], t - 1, k); }
  }

  lemma {:induction false} ThreadWith(topo: Topology, ts: seq<Thread>, k: Token) returns (t: nat)
    requires Threads(topo, ts, k) > 0
    ensures t < |ts| && Held(topo, ts[t], k) > 0
  {
    if Held(topo, ts[0], k) > 0 {
      t := 0;
    } else {
      var u := ThreadWith(topo, ts[1..], k);
      t := u + 1;
    }
  }

  lemma {:induction false} DeferredAppend(topo: Topology, a: Thread, b: Thread, k: Token)
    ensures Deferred(topo, a + b, k) == Deferred(topo, a, k) + Deferred(topo, b, k)
  {
    if a == [] {
      assert a + b == b;
    } else {
      assert (a + b)[1..] == a[1..] + b;
      DeferredAppend(topo, a[1..], b, k);
    }
  }

  lemma {:induction false} DeferredDeletes(topo: Topology, slots: seq<nat>, k: Token)
    ensures Deferred(topo, DeleteFrames(slots), k) == SlotTokens(slots, k)
  {
    if slots != [] {
      var first := if slots[0] == 0 then [] else [Delete(slots[0])];
      DeferredAppend(topo, first, DeleteFrames(slots[1..]), k);
      DeferredDeletes(topo, slots[1..], k);
    }
  }

  // ----- chains -----

  predicate TopoOk(topo: Topology) {
    forall i {:trigger topo[i]} | 0 <= i < |topo| ::
      && (Linked(topo[i].kind) <==> topo[i].born.Some?)
      && (topo[i].born.Some? ==> topo[i].born.value < i)
      && (topo[i].kind.Child? ==> Reserves(topo[topo[i].born.value].kind))
  }

  lemma {:induction false} ChainUpward(topo: Topology, u: nat, h: nat)
    requires TopoOk(topo) && Chain(topo, u, PinTok(h)) > 0 && h < |topo| && topo[h].born.Some?
    ensures Chain(topo, u, PinTok(topo[h].born.value)) > 0
  {
    if h != u { ChainUpward(topo, topo[u].born.value, h); }
  }

  /** A chain holds at most one pin on each handle and no other token. */
  lemma {:induction false} ChainPins(topo: Topology, u: nat, k: Token)
    ensures Chain(topo, u, k) == 0 || (k.PinTok? && k.h <= u && Chain(topo, u, k) == 1)
  {
    if u < |topo| && topo[u].born.Some? && topo[u].born.value < u { ChainPins(topo, topo[u].born.value, k); }
  }

  lemma {:induction false} ChainAppend(topo: Topology, node: Node, h: nat, k: Token)
    requires h < |topo|
    ensures Chain(topo + [node], h, k) == Chain(topo, h, k)
  {
    if topo[h].born.Some? && topo[h].born.value < h { ChainAppend(topo, node, topo[h].born.value, k); }
  }

  lemma {:induction false} RootAppend(topo: Topology, node: Node, h: nat)
    requires h < |topo|
    ensures Root(topo + [node], h) == Root(topo, h)
  {
    if topo[h].born.Some? && topo[h].born.value < h { RootAppend(topo, node, topo[h].born.value); }
  }
}
