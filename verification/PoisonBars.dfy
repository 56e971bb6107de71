/** Poison keeps everybody out, for good: threads that were outside the handle, threads that are inside it and
    call again from a callback, and the thread that poisoned it. */
module PoisonBars {
  import opened Wrappers
  import opened Sections
  import opened Protocol
  import opened Tokens
  import opened ProtocolInvariant
  import opened ProtocolSteps
  import opened ProtocolBirths
  import opened ProtocolTheorems

  /** The native calls of a thread on a or on anything below a. */
  function NativesBelow(topo: Topology, fs: Thread, a: nat): nat {
    if fs == [] then 0 else One(fs[0].Native? && Above(topo, a, fs[0].h)) + NativesBelow(topo, fs[1..], a)
  }

  /** 1 when the thread is in the middle of an acquire that has already pinned a. */
  function Passed(topo: Topology, fs: Thread, a: nat): nat { TopTokens(topo, fs, PinTok(a)) }

  function Entries(topo: Topology, fs: Thread, a: nat): nat { NativesBelow(topo, fs, a) + Passed(topo, fs, a) }

  // ----- lists of frames -----

  predicate Plain(fs: Thread) { forall f | f in fs :: !f.Native? && !f.Pin? }

  lemma {:induction false} NativesPrefix(topo: Topology, p: Thread, fs: Thread, a: nat)
    requires forall f | f in p :: !f.Native?
    ensures NativesBelow(topo, p + fs, a) == NativesBelow(topo, fs, a)
  {
    if p == [] {
      assert p + fs == fs;
    } else {
      assert (p + fs)[1..] == p[1..] + fs;
      NativesPrefix(topo, p[1..], fs, a);
    }
  }

  lemma PlainEntries(topo: Topology, p: Thread, fs: Thread, a: nat)
    requires Plain(p) && Settled(fs)
    ensures Entries(topo, p + fs, a) == NativesBelow(topo, fs, a)
  {
    NativesPrefix(topo, p, fs, a);
    if p == [] { assert p + fs == fs; } else { assert (p + fs)[0] == p[0]; }
  }

  lemma {:induction false} NativesAbort(topo: Topology, fs: Thread, a: nat)
    ensures NativesBelow(topo, Abort(fs), a) <= NativesBelow(topo, fs, a)
  {
    if fs != [] && fs[0].Pin? { NativesAbort(topo, fs[1..], a); }
  }

  lemma {:induction false} AboveAppend(topo: Topology, node: Node, a: nat, h: nat)
    requires h < |topo|
    ensures Above(topo + [node], a, h) == Above(topo, a, h)
  {
    if a != h && topo[h].born.Some? && topo[h].born.value < h { AboveAppend(topo, node, a, topo[h].born.value); }
  }

  lemma {:induction false} NativesAppend(topo: Topology, node: Node, fs: Thread, a: nat)
    requires ThreadOk(topo, fs) || Tail(topo, fs)
    ensures NativesBelow(topo + [node], fs, a) == NativesBelow(topo, fs, a)
  {
    if fs != [] {
      NativesAppend(topo, node, fs[1..], a);
      if fs[0].Native? { AboveAppend(topo, node, a, fs[0].h); }
    }
  }

  lemma EntriesAppend(topo: Topology, node: Node, fs: Thread, a: nat)
    requires TopoOk(topo) && ThreadOk(topo, fs)
    ensures Entries(topo + [node], fs, a) == Entries(topo, fs, a)
  {
    NativesAppend(topo, node, fs, a);
    if fs != [] && fs[0].Pin? && fs[0].parent.Some? { ChainAppend(topo, node, fs[0].parent.value, PinTok(a)); }
  }

  lemma {:induction false} DeletesPlain(slots: seq<nat>)
    ensures Plain(DeleteFrames(slots))
  {
    if slots != [] { DeletesPlain(slots[1..]); }
  }

  lemma CleanupPlain(h: nat, taken: Taken)
    ensures Plain(Cleanup(h, taken))
  {
    if taken.Taken? { DeletesPlain(taken.slots); }
  }

  // ----- one section each -----

  lemma LinkBars(s: State, t: nat, a: nat)
    requires Inv(s) && Ready(s, t) && s.ts[t][0].ReadLink? && s.ts[t][0].h < |s.hs|
    ensures Entries(s.topo, RunReadLink(s, t).ts[t], a) <= Entries(s.topo, s.ts[t], a)
  {
    var h, reserve, rest := s.ts[t][0].h, s.ts[t][0].reserve, s.ts[t][1..];
    assert ThreadOk(s.topo, s.ts[t]) && HandleOk(s.topo[h], s.hs[h]);
    match s.hs[h].link
    case None => NativesPrefix(s.topo, [Pin(h, None, reserve, None)], rest, a);
    case Some(p) =>
      AbortKeeps(s.topo, h, reserve, rest);
      NativesAbort(s.topo, rest, a);
      NativesPrefix(s.topo, [Enter(s.topo, p, reserve), Pin(h, Some(p), reserve, None)], rest, a);
  }

  /** An admitted pin is not on a itself, and passes a only when its parent's pins did. */
  lemma AdmittedPasses(s: State, t: nat, a: nat)
    requires Inv(s) && Ready(s, t) && s.ts[t][0].Pin? && a < |s.hs| && s.hs[a].poison.Some?
    requires s.ts[t][0].h < |s.hs| && Refused(s.hs[s.ts[t][0].h]).None?
    ensures Chain(s.topo, s.ts[t][0].h, PinTok(a)) == Passed(s.topo, s.ts[t], a)
  {
    var f := s.ts[t][0];
    assert ThreadOk(s.topo, s.ts[t]) && CapturedDead(s.topo, s.hs, s.ts[t]);
    assert f.h != a;
  }

  lemma HandoffEntries(topo: Topology, h: nat, reserve: bool, rest: Thread, res: Option<nat>, next: nat, a: nat)
    requires Continues(h, reserve, rest)
    ensures Entries(topo, Handoff(topo, rest, res, next), a)
            <= NativesBelow(topo, rest, a) + Chain(topo, h, PinTok(a))
  {
    var fs := Handoff(topo, rest, res, next);
    match rest[0]
    case Want(w, Merge(source)) =>
      if source < |topo| {
        NativesPrefix(topo, [Enter(topo, source, false), Want(source, Merged(h)), Unpin(h)], rest[1..], a);
      } else {
        NativesPrefix(topo, [Unpin(h)], rest[1..], a);
      }
    case Want(w, shape) =>
      assert fs[1..] == rest[1..];
      ChainIsAbove(topo, a, h);
    case Pin(v, p, r, _) => assert fs[1..] == rest[1..];
    case _ =>
  }

  lemma PinBars(s: State, t: nat, a: nat)
    requires Inv(s) && Ready(s, t) && s.ts[t][0].Pin? && a < |s.hs| && s.hs[a].poison.Some? && s.ts[t][0].h < |s.hs|
    ensures Entries(s.topo, RunPin(s, t).ts[t], a) <= Entries(s.topo, s.ts[t], a)
  {
    var f, rest := s.ts[t][0], s.ts[t][1..];
    assert ThreadOk(s.topo, s.ts[t]);
    if Refused(s.hs[f.h]).Some? {
      AbortKeeps(s.topo, f.h, f.reserve, rest);
      NativesAbort(s.topo, rest, a);
      PlainEntries(s.topo, UnpinFrames(f.parent) + DropFrames(f.res), Abort(rest), a);
    } else {
      AdmittedPasses(s, t, a);
      HandoffEntries(s.topo, f.h, f.reserve, rest, if f.reserve && f.parent.None? then Some(f.h) else f.res, s.made + 1, a);
    }
  }

  lemma AfterNativePlain(h: nat, shape: Shape, res: Option<nat>, cb: nat, outcome: Outcome)
    ensures Plain(AfterNative(h, shape, res, cb, outcome))
  {}

  lemma NativeBars(s: State, t: nat, outcome: Outcome, a: nat)
    requires Inv(s) && Ready(s, t) && s.ts[t][0].Native?
    ensures Entries(s.topo, RunNative(s, t, outcome).ts[t], a) <= Entries(s.topo, s.ts[t], a)
  {
    var f := s.ts[t][0];
    assert ThreadOk(s.topo, s.ts[t]);
    AfterNativePlain(f.h, f.shape, f.res, f.cb, outcome);
    PlainEntries(s.topo, AfterNative(f.h, f.shape, f.res, f.cb, outcome), s.ts[t][1..], a);
  }

  lemma UnpinBars(s: State, t: nat, a: nat)
    requires Inv(s) && Ready(s, t) && s.ts[t][0].Unpin? && s.ts[t][0].h < |s.hs|
    ensures Entries(s.topo, RunUnpin(s, t).ts[t], a) <= Entries(s.topo, s.ts[t], a)
  {
    var h := s.ts[t][0].h;
    assert ThreadOk(s.topo, s.ts[t]);
    var taken := Unpinned(s.topo[h].kind, s.hs[h]).1;
    CleanupPlain(h, taken);
    PlainEntries(s.topo, Cleanup(h, taken) + UnpinFrames(s.hs[h].link), s.ts[t][1..], a);
  }

  lemma CloseBars(s: State, t: nat, a: nat)
    requires Inv(s) && Ready(s, t) && s.ts[t][0].Close? && s.ts[t][0].h < |s.hs|
    ensures Entries(s.topo, RunClose(s, t).ts[t], a) <= Entries(s.topo, s.ts[t], a)
  {
    var h := s.ts[t][0].h;
    assert ThreadOk(s.topo, s.ts[t]);
    var taken := Closed(s.topo[h].kind, s.hs[h]).1;
    CleanupPlain(h, taken);
    PlainEntries(s.topo, Cleanup(h, taken), s.ts[t][1..], a);
  }

  lemma SwapBars(s: State, t: nat, a: nat)
    requires Inv(s) && Ready(s, t) && s.ts[t][0].Swap? && s.ts[t][0].h < |s.hs|
    ensures Entries(s.topo, RunSwap(s, t).ts[t], a) <= Entries(s.topo, s.ts[t], a)
  {
    var slots, rest := s.hs[s.ts[t][0].h].slots, s.ts[t][1..];
    assert ThreadOk(s.topo, s.ts[t]);
    if |slots| > 2 {
      DeletesPlain([slots[2]]);
      PlainEntries(s.topo, DeleteFrames([slots[2]]), rest, a);
    }
  }

  lemma PoisonRunBars(s: State, t: nat, a: nat)
    requires Inv(s) && Ready(s, t) && s.ts[t][0].Poison? && s.ts[t][0].h < |s.hs|
    ensures Entries(s.topo, RunPoison(s, t).ts[t], a) <= Entries(s.topo, s.ts[t], a)
  {
    var Poison(h, cause) := s.ts[t][0];
    assert ThreadOk(s.topo, s.ts[t]);
    PlainEntries(s.topo, if s.hs[h].link.Some? then [Poison(s.hs[h].link.value, cause)] else [], s.ts[t][1..], a);
  }

  lemma BuildBars(s: State, t: nat, outcome: Outcome, a: nat)
    requires Inv(s) && Ready(s, t) && s.ts[t][0].Build?
    ensures Entries(s.topo, RunBuild(s, t, outcome).ts[t], a) <= Entries(s.topo, s.ts[t], a)
  {
    assert ThreadOk(s.topo, s.ts[t]);
    PlainEntries(s.topo, [Delete(s.ts[t][0].cb)], s.ts[t][1..], a);
  }

  lemma PopBars(s: State, t: nat, outcome: Outcome, a: nat)
    requires Inv(s) && Enabled(s, Run(t, outcome)) && (s.ts[t][0].Free? || s.ts[t][0].Drop? || s.ts[t][0].Delete?)
    ensures Entries(s.topo, Next(s, Run(t, outcome)).ts[t], a) <= Entries(s.topo, s.ts[t], a)
  {
    assert ThreadOk(s.topo, s.ts[t]);
    assert Next(s, Run(t, outcome)).ts[t] == s.ts[t][1..];
  }

  lemma StartBars(s: State, t: nat, op: Op, a: nat)
    requires Inv(s) && t < |s.ts| && GoCode(s.ts[t]) && OpOk(s.topo, op)
    ensures Entries(s.topo, StartOp(s, t, op).ts[t], a) == Entries(s.topo, s.ts[t], a) == NativesBelow(s.topo, s.ts[t], a)
  {
    var fs := s.ts[t];
    match op
    case Invoke(h, shape) => NativesPrefix(s.topo, [Enter(s.topo, h, shape.NewChild?), Want(h, shape)], fs, a);
    case CloseHandle(h) => NativesPrefix(s.topo, [Close(h)], fs, a);
    case NewQueue => NativesPrefix(s.topo, [Build(s.made + 1)], fs, a);
  }

  lemma RunBars(s: State, t: nat, outcome: Outcome, a: nat)
    requires Inv(s) && Enabled(s, Run(t, outcome)) && a < |s.hs| && s.hs[a].poison.Some?
    ensures Entries(s.topo, Next(s, Run(t, outcome)).ts[t], a) <= Entries(s.topo, s.ts[t], a)
  {
    var f := s.ts[t][0];
    if f.ReadLink? || f.Pin? {
      AcquireBars(s, t, outcome, a);
    } else if f.Native? {
      NativeBars(s, t, outcome, a);
    } else if f.Build? {
      BuildBars(s, t, outcome, a);
    } else {
      ReleaseBars(s, t, outcome, a);
    }
  }

  lemma AcquireBars(s: State, t: nat, outcome: Outcome, a: nat)
    requires Inv(s) && Enabled(s, Run(t, outcome)) && (s.ts[t][0].ReadLink? || s.ts[t][0].Pin?)
    requires a < |s.hs| && s.hs[a].poison.Some?
    ensures Entries(s.topo, Next(s, Run(t, outcome)).ts[t], a) <= Entries(s.topo, s.ts[t], a)
  {
    if s.ts[t][0].Pin? { PinBars(s, t, a); } else { LinkBars(s, t, a); }
  }

  /** The sections that acquire nothing. */
  lemma ReleaseBars(s: State, t: nat, outcome: Outcome, a: nat)
    requires Inv(s) && Enabled(s, Run(t, outcome)) && !s.ts[t][0].ReadLink? && !s.ts[t][0].Pin? && !GoCode(s.ts[t])
    ensures Entries(s.topo, Next(s, Run(t, outcome)).ts[t], a) <= Entries(s.topo, s.ts[t], a)
  {
    match s.ts[t][0]
    case Swap(_, _) => SwapBars(s, t, a);
    case Poison(_, _) => PoisonRunBars(s, t, a);
    case Unpin(_) => UnpinBars(s, t, a);
    case Close(_) => CloseBars(s, t, a);
    case _ => PopBars(s, t, outcome, a);
  }

  lemma ThreadBars(s: State, e: Event, a: nat)
    requires Inv(s) && Enabled(s, e) && !e.Create? && a < |s.hs| && s.hs[a].poison.Some?
    ensures e.t < |Next(s, e).ts| && Entries(s.topo, Next(s, e).ts[e.t], a) <= Entries(s.topo, s.ts[e.t], a)
  {
    match e
    case Start(t, op) => StartBars(s, t, op, a);
    case Collect(t, h) =>
      CleanupPlain(h, Collected(s.hs[h]).1);
      PlainEntries(s.topo, Cleanup(h, Collected(s.hs[h]).1), [], a);
      assert Cleanup(h, Collected(s.hs[h]).1) + [] == Next(s, e).ts[t];
    case Run(t, outcome) =>
      NextModest(s, e);
      RunBars(s, t, outcome, a);
  }

  // ----- every run -----

  /** No step gives any thread a pin on a poisoned handle, or a way into a native call at or below it. */
  lemma PoisonedStepBars(s: State, e: Event, u: nat, a: nat)
    requires Inv(s) && Enabled(s, e) && u < |s.ts| && a < |s.hs| && s.hs[a].poison.Some?
    ensures u < |Next(s, e).ts|
    ensures Held(Next(s, e).topo, Next(s, e).ts[u], PinTok(a)) <= Held(s.topo, s.ts[u], PinTok(a))
    ensures Entries(Next(s, e).topo, Next(s, e).ts[u], a) <= Entries(s.topo, s.ts[u], a)
  {
    PinsBarred(s, e, u, a);
    EntriesBarred(s, e, u, a);
  }

  lemma PinsBarred(s: State, e: Event, u: nat, a: nat)
    requires Inv(s) && Enabled(s, e) && u < |s.ts| && a < |s.hs| && s.hs[a].poison.Some?
    ensures u < |Next(s, e).ts|
    ensures Held(Next(s, e).topo, Next(s, e).ts[u], PinTok(a)) <= Held(s.topo, s.ts[u], PinTok(a))
  {
    var z, k := Next(s, e), PinTok(a);
    HeldAfter(s, e, u, k);
    if !e.Create? { NextModest(s, e); }
    if Runs(e, u) {
      NextKeeps(s, e);
      HandlesKeepNo(s.topo, s.hs, k);
      HandlesKeepNo(z.topo, z.hs, k);
      assert Total(s, k) == Due(s, k) && Total(z, k) == Due(z, k);
      ThreadsUpdate(z.topo, s.ts, u, z.ts[u], k);
    } else {
      assert z.ts[u] == s.ts[u];
    }
  }

  lemma EntriesBarred(s: State, e: Event, u: nat, a: nat)
    requires Inv(s) && Enabled(s, e) && u < |s.ts| && a < |s.hs| && s.hs[a].poison.Some?
    ensures u < |Next(s, e).ts| && Entries(Next(s, e).topo, Next(s, e).ts[u], a) <= Entries(s.topo, s.ts[u], a)
  {
    var z := Next(s, e);
    if !e.Create? { NextModest(s, e); }
    NewThreadOk(s, e, u);
    if Runs(e, u) { ThreadBars(s, e, a); } else { assert z.ts[u] == s.ts[u]; }
    if z.topo != s.topo { EntriesAppend(s.topo, z.topo[|s.topo|], z.ts[u], a); }
  }

  /** The thread's new list only names handles that were there before the step. */
  lemma NewThreadOk(s: State, e: Event, u: nat)
    requires Inv(s) && Enabled(s, e) && u < |s.ts|
    ensures u < |Next(s, e).ts| && ThreadOk(s.topo, Next(s, e).ts[u])
    ensures Next(s, e).topo == s.topo || Next(s, e).topo == s.topo + [Next(s, e).topo[|s.topo|]]
  {
    var z := Next(s, e);
    if !e.Create? { NextModest(s, e); }
    assert ThreadOk(s.topo, s.ts[u]);
    if z.topo == s.topo {
      NextKeeps(s, e);
    } else if Runs(e, u) {
      var f, rest := s.ts[u][0], s.ts[u][1..];
      if f.Native? {
        AfterNativeOk(s.topo, f, rest, e.outcome);
        TailIsOk(s.topo, z.ts[u]);
      } else {
        TailIsOk(s.topo, rest);
      }
    } else {
      assert z.ts[u] == s.ts[u];
    }
  }

  /** After a poison, over every continuation of the run: the handle keeps its first cause, its object is
      never destroyed, no thread holds more pins on it, and none gets into more native calls at or below it
      than it was in, save one whose acquire had pinned the handle before the poison came. */
  lemma {:induction false} PoisonIsForever(s: State, es: seq<Event>, z: State, u: nat, a: nat)
    requires Inv(s) && Path(s, es, z) && u < |s.ts| && a < |s.hs| && s.hs[a].poison.Some?
    ensures a < |z.hs| && z.hs[a].poison == s.hs[a].poison && z.freed[a] == 0
    ensures u < |z.ts| && Held(z.topo, z.ts[u], PinTok(a)) <= Held(s.topo, s.ts[u], PinTok(a))
    ensures Entries(z.topo, z.ts[u], a) <= Entries(s.topo, s.ts[u], a)
    decreases |es|
  {
    if es == [] {
      assert Total(s, FreeTok(a)) == Due(s, FreeTok(a));
    } else {
      NextKeeps(s, es[0]);
      PoisonSticks(s, es[0], a);
      PoisonedStepBars(s, es[0], u, a);
      PoisonIsForever(Next(s, es[0]), es[1..], z, u, a);
    }
  }

  /** Every call begun after the poison fails: a thread in Go code, idle or in a callback of a native call on
      the handle itself, gains no native call at or below it, whatever it starts. */
  lemma LaterCallsFail(s: State, es: seq<Event>, z: State, u: nat, a: nat)
    requires Inv(s) && Path(s, es, z) && u < |s.ts| && a < |s.hs| && s.hs[a].poison.Some? && GoCode(s.ts[u])
    ensures u < |z.ts| && NativesBelow(z.topo, z.ts[u], a) <= NativesBelow(s.topo, s.ts[u], a)
  {
    PoisonIsForever(s, es, z, u, a);
  }

  /** The exception is real: an acquire of a view that pinned the poisoned owner before the poison came still
      enters, for poison climbs from a handle to its owners and not down to its views. */
  lemma PassedAcquireEnters(s: State, t: nat, v: nat, p: nat, a: nat, rest: Thread)
    requires Inv(s) && t < |s.ts| && s.ts[t] == [Pin(v, Some(p), false, None), Want(v, Call)] + rest
    requires a < |s.hs| && s.hs[a].poison.Some? && Above(s.topo, a, p) && v < |s.hs| && Refused(s.hs[v]).None?
    ensures Enabled(s, Run(t, Returned))
    ensures NativesBelow(s.topo, Next(s, Run(t, Returned)).ts[t], a) == NativesBelow(s.topo, s.ts[t], a) + 1
  {
    assert ThreadOk(s.topo, s.ts[t]);
    var fs := s.ts[t];
    assert fs[1..] == [Want(v, Call)] + rest && fs[1..][1..] == rest;
    var after := [Native(v, Call, None, 0)] + rest;
    assert Next(s, Run(t, Returned)).ts[t] == after;
    assert after[1..] == rest;
    assert Above(s.topo, a, v);
  }
}
