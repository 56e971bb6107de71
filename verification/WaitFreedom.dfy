/** No operation waits for another: acquiring, releasing, poisoning, closing and cleaning up each take a
    number of a thread's own sections that only the depth of the handle bounds, whatever the other threads
    do in between. */
module WaitFreedom {
  import opened Wrappers
  import opened Sections
  import opened Protocol
  import opened Tokens
  import opened ProtocolInvariant
  import opened ProtocolSteps
  import opened ProtocolBirths
  import opened ProtocolTheorems

  /** How many owners and parents there are above h. */
  function Depth(topo: Topology, h: nat): nat {
    if h < |topo| && topo[h].born.Some? && topo[h].born.value < h then 1 + Depth(topo, topo[h].born.value) else 0
  }

  /** The sections a release at depth d may still take: itself, a cleanup, and the releases above it. */
  function PinRank(d: nat): nat { 6 * (d + 1) }

  /** Reading the link of the handle and of every ancestor, and pinning them all. */
  function AcquireRank(d: nat): nat { PinRank(d) + 1 + if d == 0 then 0 else AcquireRank(d - 1) }

  function FrameRank(topo: Topology, f: Frame): nat {
    match f
    case ReadLink(h, _) => AcquireRank(Depth(topo, h))
    case Pin(h, _, _, _) => PinRank(Depth(topo, h))
    case Want(h, shape) =>
      1 + (if shape.Merge? then AcquireRank(Depth(topo, shape.source)) + PinRank(Depth(topo, h)) else 0)
    case Native(_, _, _, _) => 0
    case Build(_) => 0
    case Swap(_, _) => 2
    case Poison(h, _) => Depth(topo, h) + 1
    case Unpin(h) => PinRank(Depth(topo, h))
    case Close(_) => 6
    case Free(_) => 1
    case Drop(_) => 1
    case Delete(_) => 1
  }

  function Rank(topo: Topology, fs: Thread): nat {
    if fs == [] then 0 else FrameRank(topo, fs[0]) + Rank(topo, fs[1..])
  }

  // ----- lists of frames -----

  lemma RankCons(topo: Topology, f: Frame, rest: Thread)
    ensures Rank(topo, [f] + rest) == FrameRank(topo, f) + Rank(topo, rest)
  {
    assert ([f] + rest)[1..] == rest;
  }

  lemma RankOne(topo: Topology, f: Frame)
    ensures Rank(topo, [f]) == FrameRank(topo, f)
  {
    RankCons(topo, f, []);
    assert [f] + [] == [f];
  }

  lemma {:induction false} RankAppend(topo: Topology, a: Thread, b: Thread)
    ensures Rank(topo, a + b) == Rank(topo, a) + Rank(topo, b)
  {
    if a == [] {
      assert a + b == b;
    } else {
      assert (a + b)[1..] == a[1..] + b;
      RankAppend(topo, a[1..], b);
    }
  }

  lemma {:induction false} RankDeletes(topo: Topology, slots: seq<nat>)
    ensures Rank(topo, DeleteFrames(slots)) <= |slots|
  {
    if slots != [] {
      RankAppend(topo, if slots[0] == 0 then [] else [Delete(slots[0])], DeleteFrames(slots[1..]));
      RankDeletes(topo, slots[1..]);
    }
  }

  lemma {:induction false} RankAbort(topo: Topology, rest: Thread)
    ensures Rank(topo, Abort(rest)) <= Rank(topo, rest)
  {
    if rest != [] && rest[0].Pin? { RankAbort(topo, rest[1..]); }
  }

  lemma RankTaken(topo: Topology, h: nat, free: bool, parent: Option<nat>, slots: seq<nat>)
    requires |slots| <= 3
    ensures Rank(topo, Cleanup(h, Taken(free, parent, slots))) <= 5
  {
    var a, b := if free then [Free(h)] else [], DropFrames(parent);
    RankAppend(topo, a + b, DeleteFrames(slots));
    RankAppend(topo, a, b);
    RankDeletes(topo, slots);
  }

  lemma RankCleanup(topo: Topology, h: nat, taken: Taken, rest: Thread)
    requires taken.Taken? ==> |taken.slots| <= 3
    ensures Rank(topo, Cleanup(h, taken) + rest) <= 5 + Rank(topo, rest)
  {
    RankAppend(topo, Cleanup(h, taken), rest);
    if taken.Taken? { RankTaken(topo, h, taken.free, taken.parent, taken.slots); }
  }

  lemma RankMerge(topo: Topology, w: nat, source: nat, rest: Thread)
    requires source < |topo|
    ensures Rank(topo, [Enter(topo, source, false), Want(source, Merged(w)), Unpin(w)] + rest)
            <= FrameRank(topo, Want(w, Merge(source))) + Rank(topo, rest)
  {
    var a := [Unpin(w)] + rest;
    var b := [Want(source, Merged(w))] + a;
    assert [Enter(topo, source, false), Want(source, Merged(w)), Unpin(w)] + rest == [Enter(topo, source, false)] + b;
    RankCons(topo, Enter(topo, source, false), b);
    RankCons(topo, Want(source, Merged(w)), a);
    RankCons(topo, Unpin(w), rest);
  }

  lemma RankHandoff(topo: Topology, h: nat, reserve: bool, rest: Thread, res: Option<nat>, next: nat)
    requires Continues(h, reserve, rest) && Tail(topo, rest)
    ensures Rank(topo, Handoff(topo, rest, res, next)) <= Rank(topo, rest)
  {
    var fs := Handoff(topo, rest, res, next);
    match rest[0]
    case Want(w, Merge(source)) => RankMerge(topo, w, source, rest[1..]);
    case Want(_, _) => assert fs[1..] == rest[1..];
    case Pin(_, _, _, _) => assert fs[1..] == rest[1..];
    case _ =>
  }

  // ----- a longer topology -----

  lemma {:induction false} DepthAppend(topo: Topology, node: Node, h: nat)
    requires h < |topo|
    ensures Depth(topo + [node], h) == Depth(topo, h)
  {
    if topo[h].born.Some? && topo[h].born.value < h { DepthAppend(topo, node, topo[h].born.value); }
  }

  lemma FrameRankAppend(topo: Topology, node: Node, f: Frame, rest: Thread, top: bool)
    requires FrameOk(topo, f, rest, top)
    ensures FrameRank(topo + [node], f) == FrameRank(topo, f)
  {
    if f.ReadLink? || f.Pin? || f.Want? || f.Poison? || f.Unpin? { DepthAppend(topo, node, f.h); }
    if f.Want? && f.shape.Merge? { DepthAppend(topo, node, f.shape.source); }
  }

  lemma {:induction false} RankTailAppend(topo: Topology, node: Node, fs: Thread)
    requires Tail(topo, fs)
    ensures Rank(topo + [node], fs) == Rank(topo, fs)
  {
    if fs != [] {
      FrameRankAppend(topo, node, fs[0], fs[1..], false);
      RankTailAppend(topo, node, fs[1..]);
    }
  }

  lemma RankThreadAppend(topo: Topology, node: Node, fs: Thread)
    requires ThreadOk(topo, fs)
    ensures Rank(topo + [node], fs) == Rank(topo, fs)
  {
    if fs != [] {
      FrameRankAppend(topo, node, fs[0], fs[1..], true);
      RankTailAppend(topo, node, fs[1..]);
    }
  }

  // ----- one section each -----

  lemma LinkDescends(s: State, t: nat, h: nat)
    requires Before(s, t, h) && s.ts[t][0].ReadLink? && s.ts[t][0].h == h
    ensures Rank(s.topo, RunReadLink(s, t).ts[t]) < Rank(s.topo, s.ts[t])
  {
    var f, rest := s.ts[t][0], s.ts[t][1..];
    RankAbort(s.topo, rest);
    match s.hs[h].link
    case None => RankCons(s.topo, Pin(h, None, f.reserve, None), rest);
    case Some(p) =>
      var pin := Pin(h, Some(p), f.reserve, None);
      assert Depth(s.topo, h) == 1 + Depth(s.topo, p);
      RankCons(s.topo, pin, rest);
      RankCons(s.topo, Enter(s.topo, p, f.reserve), [pin] + rest);
      assert [Enter(s.topo, p, f.reserve), pin] + rest == [Enter(s.topo, p, f.reserve)] + ([pin] + rest);
  }

  lemma RefusedRank(topo: Topology, h: nat, parent: Option<nat>, res: Option<nat>, rest: Thread)
    requires h < |topo| && TopoOk(topo) && (parent.Some? ==> parent == topo[h].born)
    ensures Rank(topo, UnpinFrames(parent) + DropFrames(res) + Abort(rest)) < PinRank(Depth(topo, h)) + Rank(topo, rest)
  {
    RankAbort(topo, rest);
    RankAppend(topo, UnpinFrames(parent) + DropFrames(res), Abort(rest));
    RankAppend(topo, UnpinFrames(parent), DropFrames(res));
  }

  lemma PinDescends(s: State, t: nat, h: nat)
    requires Before(s, t, h) && s.ts[t][0].Pin? && s.ts[t][0].h == h
    ensures Rank(s.topo, RunPin(s, t).ts[t]) < Rank(s.topo, s.ts[t])
  {
    var f, rest := s.ts[t][0], s.ts[t][1..];
    if Refused(s.hs[h]).Some? {
      RefusedRank(s.topo, h, f.parent, f.res, rest);
    } else {
      RankHandoff(s.topo, h, f.reserve, rest, if f.reserve && f.parent.None? then Some(h) else f.res, s.made + 1);
    }
  }

  lemma SlotsSmall(node: Node, x: Handle)
    requires HandleOk(node, x)
    ensures Unpinned(node.kind, x).1.Taken? ==> |Unpinned(node.kind, x).1.slots| <= 3
    ensures Closed(node.kind, x).1.Taken? ==> |Closed(node.kind, x).1.slots| <= 3
  {}

  lemma UpRank(topo: Topology, h: nat, link: Option<nat>, rest: Thread)
    requires h < |topo| && TopoOk(topo) && (link.Some? ==> link == topo[h].born)
    ensures Rank(topo, UnpinFrames(link) + rest) + 6 <= PinRank(Depth(topo, h)) + Rank(topo, rest)
  {
    RankAppend(topo, UnpinFrames(link), rest);
  }

  lemma UnpinRank(topo: Topology, h: nat, x: Handle, rest: Thread)
    requires h < |topo| && TopoOk(topo) && HandleOk(topo[h], x)
    ensures Rank(topo, Cleanup(h, Unpinned(topo[h].kind, x).1) + UnpinFrames(x.link) + rest)
            < PinRank(Depth(topo, h)) + Rank(topo, rest)
  {
    var taken, up := Unpinned(topo[h].kind, x).1, UnpinFrames(x.link) + rest;
    SlotsSmall(topo[h], x);
    UpRank(topo, h, x.link, rest);
    RankCleanup(topo, h, taken, up);
    assert Cleanup(h, taken) + UnpinFrames(x.link) + rest == Cleanup(h, taken) + up;
  }

  lemma UnpinDescends(s: State, t: nat, h: nat)
    requires Before(s, t, h) && s.ts[t][0].Unpin? && s.ts[t][0].h == h
    ensures Rank(s.topo, RunUnpin(s, t).ts[t]) < Rank(s.topo, s.ts[t])
  {
    UnpinRank(s.topo, h, s.hs[h], s.ts[t][1..]);
  }

  lemma CloseDescends(s: State, t: nat, h: nat)
    requires Before(s, t, h) && s.ts[t][0].Close? && s.ts[t][0].h == h
    ensures Rank(s.topo, RunClose(s, t).ts[t]) < Rank(s.topo, s.ts[t])
  {
    SlotsSmall(s.topo[h], s.hs[h]);
    RankCleanup(s.topo, h, Closed(s.topo[h].kind, s.hs[h]).1, s.ts[t][1..]);
  }

  lemma SwapDescends(s: State, t: nat)
    requires Ready(s, t) && s.ts[t][0].Swap? && s.ts[t][0].h < |s.hs|
    ensures Rank(s.topo, RunSwap(s, t).ts[t]) < Rank(s.topo, s.ts[t])
  {
    var slots, rest := s.hs[s.ts[t][0].h].slots, s.ts[t][1..];
    if |slots| > 2 {
      RankDeletes(s.topo, [slots[2]]);
      RankAppend(s.topo, DeleteFrames([slots[2]]), rest);
    }
  }

  lemma ClimbRank(topo: Topology, h: nat, link: Option<nat>, cause: Cause, rest: Thread)
    requires h < |topo| && TopoOk(topo) && (link.Some? ==> link == topo[h].born)
    ensures Rank(topo, (if link.Some? then [Poison(link.value, cause)] else []) + rest)
            < FrameRank(topo, Poison(h, cause)) + Rank(topo, rest)
  {
    if link.Some? { RankCons(topo, Poison(link.value, cause), rest); } else { assert [] + rest == rest; }
  }

  lemma PoisonDescends(s: State, t: nat, h: nat)
    requires Before(s, t, h) && s.ts[t][0].Poison? && s.ts[t][0].h == h
    ensures Rank(s.topo, RunPoison(s, t).ts[t]) < Rank(s.topo, s.ts[t])
  {
    ClimbRank(s.topo, h, s.hs[h].link, s.ts[t][0].cause, s.ts[t][1..]);
  }

  /** Each section a thread runs brings it closer to its native call or to the end of its operation. */
  lemma SectionDescends(s: State, t: nat, outcome: Outcome)
    requires Inv(s) && Enabled(s, Run(t, outcome)) && !GoCode(s.ts[t])
    ensures Next(s, Run(t, outcome)).topo == s.topo
    ensures Rank(s.topo, Next(s, Run(t, outcome)).ts[t]) < Rank(s.topo, s.ts[t])
  {
    var f := s.ts[t][0];
    assert ThreadOk(s.topo, s.ts[t]);
    if Targeted(f) { BeforeHolds(s, t, f.h); }
    match f
    case ReadLink(h, _) => LinkDescends(s, t, h);
    case Pin(h, _, _, _) => PinDescends(s, t, h);
    case _ => ReleaseDescends(s, t, outcome);
  }

  lemma ReleaseDescends(s: State, t: nat, outcome: Outcome)
    requires Enabled(s, Run(t, outcome)) && !GoCode(s.ts[t]) && !s.ts[t][0].ReadLink? && !s.ts[t][0].Pin?
    requires Targeted(s.ts[t][0]) ==> Before(s, t, s.ts[t][0].h)
    ensures Next(s, Run(t, outcome)).topo == s.topo
    ensures Rank(s.topo, Next(s, Run(t, outcome)).ts[t]) < Rank(s.topo, s.ts[t])
  {
    match s.ts[t][0]
    case Unpin(h) => UnpinDescends(s, t, h);
    case Close(h) => CloseDescends(s, t, h);
    case Swap(_, _) => SwapDescends(s, t);
    case Poison(h, _) => PoisonDescends(s, t, h);
    case _ =>
  }

  // ----- every run -----

  /** Thread t is between Go code and Go code in every state that an event of the run starts from. */
  predicate Busy(s: State, es: seq<Event>, t: nat)
    requires t < |s.ts|
    decreases |es|
  {
    es == [] || (!GoCode(s.ts[t])
                 && (Enabled(s, es[0]) && t < |Next(s, es[0]).ts| ==> Busy(Next(s, es[0]), es[1..], t)))
  }

  function OwnSections(es: seq<Event>, t: nat): nat {
    if es == [] then 0 else (if es[0].Run? && es[0].t == t then 1 else 0) + OwnSections(es[1..], t)
  }

  /** Another thread's step leaves the rank alone, and so does a handle that it adds. */
  lemma RankStays(s: State, e: Event, t: nat)
    requires Inv(s) && Enabled(s, e) && t < |s.ts| && !Runs(e, t)
    ensures t < |Next(s, e).ts| && Rank(Next(s, e).topo, Next(s, e).ts[t]) == Rank(s.topo, s.ts[t])
  {
    var z := Next(s, e);
    if !e.Create? { NextModest(s, e); }
    assert z.ts[t] == s.ts[t] && ThreadOk(s.topo, s.ts[t]);
    if z.topo != s.topo {
      assert z.topo == s.topo + [z.topo[|s.topo|]];
      RankThreadAppend(s.topo, z.topo[|s.topo|], s.ts[t]);
    }
  }

  /** However the run interleaves, a thread runs at most Rank of its own sections before it is back in Go
      code: in the native call, or returned. */
  lemma {:induction false} WaitFree(s: State, es: seq<Event>, z: State, t: nat)
    requires Inv(s) && Path(s, es, z) && t < |s.ts| && Busy(s, es, t)
    ensures t < |z.ts| && OwnSections(es, t) + Rank(z.topo, z.ts[t]) <= Rank(s.topo, s.ts[t])
    decreases |es|
  {
    if es != [] {
      var e := es[0];
      NextKeeps(s, e);
      if Runs(e, t) { SectionDescends(s, t, e.outcome); NextModest(s, e); } else { RankStays(s, e, t); }
      WaitFree(Next(s, e), es[1..], z, t);
    }
  }

  /** A call on a handle at depth d, its acquire through all the views above it included, takes at most
      3(d + 1)(d + 2) + d + 2 sections, and its releases 6(d + 1), however many handles there are. */
  lemma AcquireBound(s: State, h: nat, t: nat)
    requires Inv(s) && t < |s.ts| && s.ts[t] == [] && h < |s.hs|
    ensures var d := Depth(s.topo, h);
            && Rank(s.topo, StartOp(s, t, Invoke(h, Call)).ts[t]) <= 3 * (d + 1) * (d + 2) + d + 2
            && Rank(s.topo, [Unpin(h)]) == 6 * (d + 1)
  {
    var e, want := Enter(s.topo, h, false), Want(h, Call);
    assert StartOp(s, t, Invoke(h, Call)).ts[t] == [e] + [want];
    RankCons(s.topo, e, [want]);
    RankOne(s.topo, want);
    RankOne(s.topo, Unpin(h));
    AcquireRankIs(Depth(s.topo, h));
  }

  lemma {:induction false} AcquireRankIs(d: nat)
    ensures AcquireRank(d) == 3 * (d + 1) * (d + 2) + d + 1
  {
    if d > 0 { AcquireRankIs(d - 1); }
  }
}
