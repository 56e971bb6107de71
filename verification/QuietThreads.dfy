/** Threads that leave the children of one queue alone: their calls, on the queue itself and its views too,
    neither reach a child of it nor make one, and whatever section they run they stay like that. */
module QuietThreads {
  import opened Wrappers
  import opened Sections
  import opened Protocol
  import opened Tokens
  import opened ProtocolInvariant
  import opened ProtocolTheorems

  /** h is a child of q, or looks into one. */
  predicate UnderChild(topo: Topology, q: nat, h: nat) {
    && h < |topo| && topo[h].born.Some? && topo[h].born.value < h
    && (topo[h] == Node(Child, Some(q)) || UnderChild(topo, q, topo[h].born.value))
  }

  predicate Off(topo: Topology, q: nat, h: nat) { h < |topo| && !UnderChild(topo, q, h) }

  /** A call that neither reaches a child of q nor makes one. */
  predicate QuietCall(topo: Topology, q: nat, h: nat, shape: Shape) {
    && Off(topo, q, h)
    && (shape.NewChild? ==> Root(topo, h) != q)
    && (shape.Merge? ==> Off(topo, q, shape.source))
    && (shape.Merged? ==> Off(topo, q, shape.receiver))
  }

  predicate Quiet(topo: Topology, q: nat, f: Frame) {
    match f
    case ReadLink(h, reserve) => Off(topo, q, h) && (reserve ==> Root(topo, h) != q)
    case Pin(h, parent, reserve, res) =>
      && Off(topo, q, h) && (reserve ==> Root(topo, h) != q)
      && (parent.Some? ==> Off(topo, q, parent.value)) && res != Some(q)
    case Want(h, shape) => QuietCall(topo, q, h, shape)
    case Native(h, shape, res, _) => QuietCall(topo, q, h, shape) && res != Some(q)
    case Build(_) => true
    case Delete(_) => true
    case Drop(h) => h != q
    case _ => Off(topo, q, f.h)
  }

  predicate QuietThread(topo: Topology, q: nat, fs: Thread) { forall f | f in fs :: Quiet(topo, q, f) }

  predicate QuietEvent(topo: Topology, q: nat, e: Event) {
    match e
    case Start(_, Invoke(h, shape)) => QuietCall(topo, q, h, shape)
    case Start(_, CloseHandle(h)) => Off(topo, q, h)
    case Collect(_, h) => Off(topo, q, h)
    case _ => true
  }

  predicate IsQueue(topo: Topology, q: nat) { TopoOk(topo) && q < |topo| && topo[q].kind.Queue? }

  /** Calls on the queue itself, and on a view of it at any depth, are quiet when they make no child. */
  lemma {:induction false} QueueCallsAreQuiet(topo: Topology, q: nat, v: nat, shape: Shape)
    requires IsQueue(topo, q) && v < |topo| && Root(topo, v) == q && (v == q || OnlyViews(topo, v))
    requires !shape.NewChild? && !shape.Merge? && !shape.Merged?
    ensures QuietCall(topo, q, v, shape)
  {
    if v != q { QueueCallsAreQuiet(topo, q, topo[v].born.value, shape); }
  }

  /** v and everything above it, up to the root, are views. */
  predicate OnlyViews(topo: Topology, v: nat)
    requires v < |topo|
  {
    topo[v].born.Some? ==> topo[v].kind.View? && (topo[v].born.value < v ==> OnlyViews(topo, topo[v].born.value))
  }

  lemma {:induction false} ChainOff(topo: Topology, q: nat, h: nat, c: nat)
    requires TopoOk(topo) && Off(topo, q, h) && c < |topo| && topo[c] == Node(Child, Some(q))
    ensures Chain(topo, h, PinTok(c)) == 0
  {
    if topo[h].born.Some? { ChainOff(topo, q, topo[h].born.value, c); }
  }

  lemma FrameHoldsNo(topo: Topology, q: nat, f: Frame, c: nat)
    requires IsQueue(topo, q) && Quiet(topo, q, f)
    ensures FrameTokens(topo, f, ResTok(q)) == 0
    ensures c < |topo| && topo[c] == Node(Child, Some(q)) ==> FrameTokens(topo, f, PinTok(c)) == 0
  {
    if f.Native? || f.Unpin? {
      ChainPins(topo, f.h, ResTok(q));
      if c < |topo| && topo[c] == Node(Child, Some(q)) { ChainOff(topo, q, f.h, c); }
    }
  }

  lemma {:induction false} DeferredHoldsNo(topo: Topology, q: nat, fs: Thread, c: nat)
    requires IsQueue(topo, q) && QuietThread(topo, q, fs)
    ensures Deferred(topo, fs, ResTok(q)) == 0
    ensures c < |topo| && topo[c] == Node(Child, Some(q)) ==> Deferred(topo, fs, PinTok(c)) == 0
  {
    if fs != [] {
      FrameHoldsNo(topo, q, fs[0], c);
      DeferredHoldsNo(topo, q, fs[1..], c);
    }
  }

  /** A quiet thread holds no reservation on the queue and no pin on a child of it. */
  lemma ThreadHoldsNo(topo: Topology, q: nat, fs: Thread, c: nat)
    requires IsQueue(topo, q) && QuietThread(topo, q, fs)
    ensures Held(topo, fs, ResTok(q)) == 0
    ensures c < |topo| && topo[c] == Node(Child, Some(q)) ==> Held(topo, fs, PinTok(c)) == 0
  {
    DeferredHoldsNo(topo, q, fs, c);
    if fs != [] && fs[0].Pin? && fs[0].parent.Some? {
      assert Quiet(topo, q, fs[0]);
      ChainPins(topo, fs[0].parent.value, ResTok(q));
      if c < |topo| && topo[c] == Node(Child, Some(q)) { ChainOff(topo, q, fs[0].parent.value, c); }
    }
  }

  lemma {:induction false} OnlyThread(topo: Topology, ts: seq<Thread>, t: nat, k: Token)
    requires t < |ts| && forall u | 0 <= u < |ts| && u != t :: Held(topo, ts[u], k) == 0
    ensures Threads(topo, ts, k) == Held(topo, ts[t], k)
  {
    if t == 0 {
      NoThread(topo, ts[1..], k);
    } else {
      assert Held(topo, ts[0], k) == 0;
      OnlyThread(topo, ts[1..], t - 1, k);
    }
  }

  lemma {:induction false} NoThread(topo: Topology, ts: seq<Thread>, k: Token)
    requires forall u | 0 <= u < |ts| :: Held(topo, ts[u], k) == 0
    ensures Threads(topo, ts, k) == 0
  {
    if ts != [] { NoThread(topo, ts[1..], k); }
  }

  // ----- quiet steps -----

  lemma {:induction false} UnderAppend(topo: Topology, node: Node, q: nat, h: nat)
    requires h < |topo|
    ensures UnderChild(topo + [node], q, h) == UnderChild(topo, q, h)
  {
    if topo[h].born.Some? && topo[h].born.value < h { UnderAppend(topo, node, q, topo[h].born.value); }
  }

  lemma QuietAppend(topo: Topology, node: Node, q: nat, f: Frame)
    requires Quiet(topo, q, f)
    ensures Quiet(topo + [node], q, f)
  {
    if !f.Build? && !f.Delete? && !f.Drop? {
      UnderAppend(topo, node, q, f.h);
      RootAppend(topo, node, f.h);
    }
    if f.Pin? && f.parent.Some? { UnderAppend(topo, node, q, f.parent.value); }
    if (f.Want? || f.Native?) && f.shape.Merge? { UnderAppend(topo, node, q, f.shape.source); }
    if (f.Want? || f.Native?) && f.shape.Merged? { UnderAppend(topo, node, q, f.shape.receiver); }
  }

  lemma QuietThreadAppend(topo: Topology, node: Node, q: nat, fs: Thread)
    requires QuietThread(topo, q, fs)
    ensures QuietThread(topo + [node], q, fs)
  {
    forall f | f in fs ensures Quiet(topo + [node], q, f) { QuietAppend(topo, node, q, f); }
  }

  lemma QuietJoin(topo: Topology, q: nat, a: Thread, b: Thread)
    requires QuietThread(topo, q, a) && QuietThread(topo, q, b)
    ensures QuietThread(topo, q, a + b)
  {}

  lemma {:induction false} QuietAbort(topo: Topology, q: nat, fs: Thread)
    requires QuietThread(topo, q, fs)
    ensures QuietThread(topo, q, Abort(fs))
  {
    if fs != [] && fs[0].Pin? { QuietAbort(topo, q, fs[1..]); }
  }

  lemma {:induction false} QuietDeletes(topo: Topology, q: nat, slots: seq<nat>)
    ensures QuietThread(topo, q, DeleteFrames(slots))
  {
    if slots != [] { QuietDeletes(topo, q, slots[1..]); }
  }

  lemma QuietCleanup(topo: Topology, q: nat, h: nat, taken: Taken)
    requires Off(topo, q, h) && (taken.Taken? ==> taken.parent != Some(q))
    ensures QuietThread(topo, q, Cleanup(h, taken))
  {
    if taken.Taken? { QuietDeletes(topo, q, taken.slots); }
  }

  /** Who is off the children of q has a parent off them, and gives no reservation on q back. */
  lemma LinkOff(node: Node, x: Handle, topo: Topology, q: nat, h: nat)
    requires TopoOk(topo) && Off(topo, q, h) && topo[h] == node && HandleOk(node, x)
    ensures x.link.Some? ==> Off(topo, q, x.link.value) && Root(topo, x.link.value) == Root(topo, h)
    ensures Unpinned(node.kind, x).1.Taken? ==> Unpinned(node.kind, x).1.parent != Some(q)
    ensures Closed(node.kind, x).1.Taken? ==> Closed(node.kind, x).1.parent != Some(q)
    ensures x.armed ==> x.link != Some(q)
  {}

  lemma QuietReadLink(s: State, u: nat, q: nat)
    requires Inv(s) && Ready(s, u) && s.ts[u][0].ReadLink? && s.ts[u][0].h < |s.hs| && QuietThread(s.topo, q, s.ts[u])
    ensures QuietThread(s.topo, q, RunReadLink(s, u).ts[u])
  {
    var f, rest := s.ts[u][0], s.ts[u][1..];
    assert Quiet(s.topo, q, f);
    LinkOff(s.topo[f.h], s.hs[f.h], s.topo, q, f.h);
    QuietAbort(s.topo, q, rest);
  }

  lemma QuietHandoff(topo: Topology, q: nat, rest: Thread, res: Option<nat>, next: nat)
    requires QuietThread(topo, q, rest) && res != Some(q)
    ensures QuietThread(topo, q, Handoff(topo, rest, res, next))
  {
    if rest != [] { assert Quiet(topo, q, rest[0]); }
  }

  lemma QuietRefused(topo: Topology, q: nat, f: Frame, rest: Thread)
    requires f.Pin? && Quiet(topo, q, f) && QuietThread(topo, q, rest)
    ensures QuietThread(topo, q, UnpinFrames(f.parent) + DropFrames(f.res) + Abort(rest))
  {
    QuietAbort(topo, q, rest);
  }

  lemma QuietPin(s: State, u: nat, q: nat)
    requires Ready(s, u) && s.ts[u][0].Pin? && s.ts[u][0].h < |s.hs| && QuietThread(s.topo, q, s.ts[u])
    requires IsQueue(s.topo, q)
    ensures QuietThread(s.topo, q, RunPin(s, u).ts[u])
  {
    var f, rest := s.ts[u][0], s.ts[u][1..];
    assert Quiet(s.topo, q, f);
    if Refused(s.hs[f.h]).Some? {
      QuietRefused(s.topo, q, f, rest);
    } else {
      QuietHandoff(s.topo, q, rest, if f.reserve && f.parent.None? then Some(f.h) else f.res, s.made + 1);
    }
  }

  lemma QuietPoisonFrames(topo: Topology, q: nat, h: nat, shape: Shape, outcome: Outcome)
    requires QuietCall(topo, q, h, shape)
    ensures QuietThread(topo, q, PoisonFrames(h, shape, outcome))
  {}

  lemma QuietAfterNative(topo: Topology, q: nat, h: nat, shape: Shape, res: Option<nat>, cb: nat, outcome: Outcome)
    requires QuietCall(topo, q, h, shape) && res != Some(q)
    ensures QuietThread(topo, q, AfterNative(h, shape, res, cb, outcome))
  {
    QuietPoisonFrames(topo, q, h, shape, outcome);
  }

  lemma QuietNative(s: State, u: nat, outcome: Outcome, q: nat)
    requires Inv(s) && Ready(s, u) && s.ts[u][0].Native? && QuietThread(s.topo, q, s.ts[u])
    ensures QuietThread(s.topo, q, RunNative(s, u, outcome).ts[u])
  {
    var f := s.ts[u][0];
    assert Quiet(s.topo, q, f);
    QuietAfterNative(s.topo, q, f.h, f.shape, f.res, f.cb, outcome);
    QuietJoin(s.topo, q, AfterNative(f.h, f.shape, f.res, f.cb, outcome), s.ts[u][1..]);
    assert RunNative(s, u, outcome).ts[u] == AfterNative(f.h, f.shape, f.res, f.cb, outcome) + s.ts[u][1..];
  }

  lemma QuietUnpin(s: State, u: nat, q: nat)
    requires Inv(s) && Ready(s, u) && s.ts[u][0].Unpin? && s.ts[u][0].h < |s.hs| && QuietThread(s.topo, q, s.ts[u])
    ensures QuietThread(s.topo, q, RunUnpin(s, u).ts[u])
  {
    var h := s.ts[u][0].h;
    assert Quiet(s.topo, q, s.ts[u][0]);
    LinkOff(s.topo[h], s.hs[h], s.topo, q, h);
    QuietCleanup(s.topo, q, h, Unpinned(s.topo[h].kind, s.hs[h]).1);
  }

  lemma QuietClose(s: State, u: nat, q: nat)
    requires Inv(s) && Ready(s, u) && s.ts[u][0].Close? && s.ts[u][0].h < |s.hs| && QuietThread(s.topo, q, s.ts[u])
    ensures QuietThread(s.topo, q, RunClose(s, u).ts[u])
  {
    var h := s.ts[u][0].h;
    assert Quiet(s.topo, q, s.ts[u][0]);
    LinkOff(s.topo[h], s.hs[h], s.topo, q, h);
    QuietCleanup(s.topo, q, h, Closed(s.topo[h].kind, s.hs[h]).1);
  }

  lemma QuietPoison(s: State, u: nat, q: nat)
    requires Inv(s) && Ready(s, u) && s.ts[u][0].Poison? && s.ts[u][0].h < |s.hs| && QuietThread(s.topo, q, s.ts[u])
    ensures QuietThread(s.topo, q, RunPoison(s, u).ts[u])
  {
    var h := s.ts[u][0].h;
    assert Quiet(s.topo, q, s.ts[u][0]);
    LinkOff(s.topo[h], s.hs[h], s.topo, q, h);
  }

  lemma QuietSwap(s: State, u: nat, q: nat)
    requires Inv(s) && Ready(s, u) && s.ts[u][0].Swap? && s.ts[u][0].h < |s.hs| && QuietThread(s.topo, q, s.ts[u])
    ensures QuietThread(s.topo, q, RunSwap(s, u).ts[u])
  {
    var slots := s.hs[s.ts[u][0].h].slots;
    if |slots| > 2 { QuietDeletes(s.topo, q, [slots[2]]); }
  }

  lemma QuietStart(s: State, u: nat, op: Op, q: nat)
    requires Inv(s) && Enabled(s, Start(u, op))
    requires QuietThread(s.topo, q, s.ts[u]) && QuietEvent(s.topo, q, Start(u, op))
    ensures QuietThread(s.topo, q, StartOp(s, u, op).ts[u])
  {}

  lemma QuietCollect(s: State, u: nat, h: nat, q: nat)
    requires Inv(s) && Enabled(s, Collect(u, h)) && Off(s.topo, q, h)
    ensures QuietThread(s.topo, q, RunCollect(s, u, h).ts[u])
  {
    LinkOff(s.topo[h], s.hs[h], s.topo, q, h);
    QuietCleanup(s.topo, q, h, Collected(s.hs[h]).1);
  }

  lemma QuietRun(s: State, u: nat, outcome: Outcome, q: nat)
    requires Inv(s) && Enabled(s, Run(u, outcome)) && QuietThread(s.topo, q, s.ts[u]) && IsQueue(s.topo, q)
    ensures QuietThread(s.topo, q, Next(s, Run(u, outcome)).ts[u])
  {
    match s.ts[u][0]
    case ReadLink(_, _) => QuietReadLink(s, u, q);
    case Pin(_, _, _, _) => QuietPin(s, u, q);
    case Native(_, _, _, _) => QuietNative(s, u, outcome, q);
    case Unpin(_) => QuietUnpin(s, u, q);
    case Close(_) => QuietClose(s, u, q);
    case Poison(_, _) => QuietPoison(s, u, q);
    case Swap(_, _) => QuietSwap(s, u, q);
    case _ =>
  }

  /** A quiet thread that moves quietly stays quiet. */
  lemma QuietStep(s: State, e: Event, q: nat)
    requires Inv(s) && Enabled(s, e) && IsQueue(s.topo, q) && !e.Create?
    requires QuietThread(s.topo, q, s.ts[e.t]) && QuietEvent(s.topo, q, e)
    ensures e.t < |Next(s, e).ts| && QuietThread(s.topo, q, Next(s, e).ts[e.t])
  {
    NextModest(s, e);
    match e
    case Run(u, outcome) => QuietRun(s, u, outcome, q);
    case Start(u, op) => QuietStart(s, u, op, q);
    case Collect(u, h) => QuietCollect(s, u, h, q);
  }

  /** It gives the queue no child. */
  lemma QuietBirth(s: State, e: Event, q: nat)
    requires Inv(s) && Enabled(s, e)
    requires e.Create? || QuietThread(s.topo, q, s.ts[e.t])
    ensures var z := Next(s, e);
            z.topo == s.topo || (z.topo == s.topo + [z.topo[|s.topo|]] && z.topo[|s.topo|] != Node(Child, Some(q)))
  {
    if !e.Create? { NextModest(s, e); }
    if e.Run? { assert Quiet(s.topo, q, s.ts[e.t][0]); }
  }

  predicate OthersQuiet(p: State, t: nat, q: nat) {
    forall u | 0 <= u < |p.ts| && u != t :: QuietThread(p.topo, q, p.ts[u])
  }

  lemma OthersStayQuiet(s: State, e: Event, t: nat, q: nat)
    requires Inv(s) && Enabled(s, e) && IsQueue(s.topo, q) && OthersQuiet(s, t, q)
    requires Runs(e, t) ==> Next(s, e).topo == s.topo
    requires !Runs(e, t) ==> QuietEvent(s.topo, q, e)
    ensures OthersQuiet(Next(s, e), t, q)
  {
    var z := Next(s, e);
    if !e.Create? { NextModest(s, e); }
    if !e.Create? && e.t != t { QuietStep(s, e, q); }
    if !Runs(e, t) { QuietBirth(s, e, q); }
    forall u | 0 <= u < |z.ts| && u != t ensures QuietThread(z.topo, q, z.ts[u]) {
      assert QuietThread(s.topo, q, z.ts[u]);
      if z.topo != s.topo { QuietThreadAppend(s.topo, z.topo[|s.topo|], q, z.ts[u]); }
    }
  }
}
