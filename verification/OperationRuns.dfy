/** What the stages of an operation give over every run: an acquire that meets only open handles gets in, a call
    in progress holds every handle it was given, and what it made is where it belongs. */
module OperationRuns {
  import opened Wrappers
  import opened Sections
  import opened Protocol
  import opened Tokens
  import opened ProtocolInvariant
  import opened ProtocolSteps
  import opened ProtocolBirths
  import opened ProtocolTheorems
  import opened WaitFreedom
  import opened Operations

  // ----- an operation over a run -----

  /** The frames that an operation has added to what the thread had. */
  function Part(fs: Thread, low: Thread): Thread
    requires |low| <= |fs|
  {
    fs[..|fs| - |low|]
  }

  predicate Carries(s: State, t: nat, h: nat, shape: Shape, low: Thread) {
    && t < |s.ts| && |low| <= |s.ts[t]| && s.ts[t][|s.ts[t]| - |low|..] == low
    && Course(h, shape, Part(s.ts[t], low))
  }

  lemma CarriesFrom(s: State, t: nat, h: nat, shape: Shape, q: Thread, low: Thread)
    requires t < |s.ts| && s.ts[t] == q + low && Course(h, shape, q)
    ensures Carries(s, t, h, shape, low) && Part(s.ts[t], low) == q
  {
    assert Part(q + low, low) == q && (q + low)[|q|..] == low;
  }

  lemma CourseRuns(s: State, t: nat, h: nat, shape: Shape, p: Thread, low: Thread, outcome: Outcome)
      returns (q: Thread)
    requires Inv(s) && Enabled(s, Run(t, outcome)) && s.ts[t] == p + low && p != [] && Course(h, shape, p)
    requires !shape.Merged? && (shape.Merge? ==> shape.source < |s.topo|)
    ensures Next(s, Run(t, outcome)).ts[t] == q + low && Course(h, shape, q)
  {
    if Acquiring(p, Want(h, shape)) {
      q := FirstRuns(s, t, h, shape, p, low, outcome);
    } else if shape.Merge? && AcquiringSource(h, shape.source, p) {
      q := SourceRuns(s, t, h, shape.source, p, low, outcome);
    } else if Calling(h, shape, p) {
      q := CallRuns(s, t, h, shape, p, low, outcome);
    } else if shape.Observe? && Installing(h, p) {
      var cb := p[0].cb;
      assert p == [Swap(h, cb), Unpin(h)];
      InstallRuns(s, t, h, cb, low, outcome);
      DeletesLeave([s.hs[h].slots[2]]);
      q := DeleteFrames([s.hs[h].slots[2]]) + [Unpin(h)];
      Above3(DeleteFrames([s.hs[h].slots[2]]), [Unpin(h)], low);
    } else {
      q := LeaveRuns(s, t, p, low, outcome);
    }
  }

  /** Go code of the thread runs on top of the operation only in a callback of its native call. */
  lemma OnlyCallsCallBack(h: nat, shape: Shape, p: Thread, low: Thread)
    requires p != [] && Course(h, shape, p) && GoCode(p + low)
    ensures Calling(h, shape, p)
  {
    assert (p + low)[0] == p[0] && p[0] in p;
    if shape.Merge? && AcquiringSource(h, shape.source, p) { assert p[..|p| - 1][0] == p[0]; }
  }

  lemma StartFrames(s: State, t: nat, op: Op) returns (x: Thread)
    requires Enabled(s, Start(t, op))
    ensures Whole(x) && StartOp(s, t, op).ts[t] == x + s.ts[t]
  {
    match op
    case Invoke(g, sh) =>
      x := [Enter(s.topo, g, sh.NewChild?), Want(g, sh)];
      assert x[1..] == [Want(g, sh)] && x[1..][1..] == [];
    case CloseHandle(g) =>
      x := [Close(g)];
      assert x[1..] == [];
    case NewQueue =>
      x := [Build(s.made + 1)];
      assert x[1..] == [];
  }

  lemma StartsAbove(s: State, t: nat, op: Op, h: nat, shape: Shape, p: Thread, low: Thread) returns (q: Thread)
    requires Enabled(s, Start(t, op)) && s.ts[t] == p + low && p != [] && Course(h, shape, p)
    ensures StartOp(s, t, op).ts[t] == q + low && Course(h, shape, q)
  {
    OnlyCallsCallBack(h, shape, p, low);
    var k := |p| - BottomSize(shape);
    var n, b := p[..k], p[k..];
    var x := StartFrames(s, t, op);
    WholeJoin(x, n);
    assert p == n + b;
    q := CallGoesOn(h, shape, x + n, b, low);
    Above3(x, n, b);
    Above3(x, p, low);
  }

  lemma StepFollows(s: State, e: Event, t: nat, h: nat, shape: Shape, low: Thread)
    requires Inv(s) && Enabled(s, e) && Carries(s, t, h, shape, low) && |s.ts[t]| > |low|
    requires !shape.Merged? && (shape.Merge? ==> shape.source < |s.topo|)
    ensures Carries(Next(s, e), t, h, shape, low) && |Next(s, e).topo| >= |s.topo|
  {
    var p := Part(s.ts[t], low);
    assert s.ts[t] == p + low;
    if !e.Create? { NextModest(s, e); }
    if Runs(e, t) {
      var q: Thread;
      match e {
        case Run(_, outcome) => q := CourseRuns(s, t, h, shape, p, low, outcome);
        case Start(_, op) => q := StartsAbove(s, t, op, h, shape, p, low);
      }
      CarriesFrom(Next(s, e), t, h, shape, q, low);
    }
  }

  /** In every state that an event of the run starts from the operation has not returned yet. */
  predicate Within(s: State, es: seq<Event>, t: nat, n: nat)
    decreases |es|
  {
    es == [] || (t < |s.ts| && |s.ts[t]| > n && (Enabled(s, es[0]) ==> Within(Next(s, es[0]), es[1..], t, n)))
  }

  lemma {:induction false} Follows(s: State, es: seq<Event>, z: State, t: nat, h: nat, shape: Shape, low: Thread)
    requires Inv(s) && Path(s, es, z) && Carries(s, t, h, shape, low) && Within(s, es, t, |low|)
    requires !shape.Merged? && (shape.Merge? ==> shape.source < |s.topo|)
    ensures Inv(z) && Carries(z, t, h, shape, low)
    decreases |es|
  {
    if es != [] {
      NextKeeps(s, es[0]);
      StepFollows(s, es[0], t, h, shape, low);
      Follows(Next(s, es[0]), es[1..], z, t, h, shape, low);
    }
  }

  lemma Started(s: State, t: nat, h: nat, shape: Shape)
    requires Inv(s) && Enabled(s, Start(t, Invoke(h, shape)))
    ensures var y := StartOp(s, t, Invoke(h, shape));
            && Inv(y) && y.topo == s.topo && Carries(y, t, h, shape, s.ts[t])
            && Acquiring(Part(y.ts[t], s.ts[t]), Want(h, shape))
  {
    NextKeeps(s, Start(t, Invoke(h, shape)));
    var p := [Enter(s.topo, h, shape.NewChild?), Want(h, shape)];
    assert Acquiring(p, Want(h, shape));
    CarriesFrom(StartOp(s, t, Invoke(h, shape)), t, h, shape, p, s.ts[t]);
  }

  /** z is reached while the call on h that thread t starts in s has not returned. */
  predicate CallRun(s: State, t: nat, h: nat, shape: Shape, es: seq<Event>, z: State) {
    && Enabled(s, Start(t, Invoke(h, shape)))
    && Path(StartOp(s, t, Invoke(h, shape)), es, z) && Within(StartOp(s, t, Invoke(h, shape)), es, t, |s.ts[t]|)
  }

  /** From the start of a call until it returns, over every run and whatever callbacks do on top of it: the
      thread has what it had, and above it the frames of this call at one of its stages. */
  lemma CallFollows(s: State, t: nat, h: nat, shape: Shape, es: seq<Event>, z: State)
    requires Inv(s) && CallRun(s, t, h, shape, es, z)
    ensures Inv(z) && Carries(z, t, h, shape, s.ts[t])
  {
    Started(s, t, h, shape);
    Follows(StartOp(s, t, Invoke(h, shape)), es, z, t, h, shape, s.ts[t]);
  }

  /** An idle thread, and a callback of any call in progress, may start any of these at any time. */
  lemma StartsAnytime(s: State, t: nat, h: nat, source: nat)
    requires Inv(s) && t < |s.ts| && (s.ts[t] == [] || s.ts[t][0].Native? || s.ts[t][0].Build?)
    requires h < |s.hs| && source < |s.hs|
    ensures Enabled(s, Start(t, CloseHandle(h))) && Enabled(s, Start(t, NewQueue))
    ensures Enabled(s, Start(t, Invoke(h, Call))) && Enabled(s, Start(t, Invoke(h, NewView)))
    ensures Enabled(s, Start(t, Invoke(h, Merge(source))))
    ensures s.topo[h].kind.Queue? ==> Enabled(s, Start(t, Invoke(h, Observe))) && Enabled(s, Start(t, Invoke(h, Clone)))
    ensures s.topo[h].kind.Queue? || s.topo[h].kind.Box? || s.topo[h].kind.View? ==>
              Enabled(s, Start(t, Invoke(h, NewChild)))
  {}

  // ----- a call in progress -----

  /** The handles that a call was given. */
  predicate Given(h: nat, shape: Shape, g: nat) { g == h || (shape.Merge? && g == shape.source) }

  /** The pins that a call needs: those of its receiver, and those of the source of a merge. */
  function CallPins(topo: Topology, h: nat, shape: Shape, k: Token): nat {
    Chain(topo, h, k) + if shape.Merge? then Chain(topo, shape.source, k) else 0
  }

  lemma {:induction false} DeferredOne(topo: Topology, f: Frame, k: Token)
    ensures Deferred(topo, [f], k) == FrameTokens(topo, f, k)
  {
    DeferredCons(topo, f, []);
    assert [f] + [] == [f];
  }

  lemma BottomHolds(topo: Topology, h: nat, shape: Shape, b: Thread, k: Token)
    requires Bottom(h, shape, b)
    ensures CallPins(topo, h, shape, k) <= Deferred(topo, b, k)
  {
    if shape.Merge? {
      assert b == [b[0]] + [Unpin(h)];
      DeferredCons(topo, b[0], [Unpin(h)]);
      DeferredOne(topo, Unpin(h), k);
    } else {
      assert b == [b[0]];
      DeferredOne(topo, b[0], k);
    }
  }

  lemma CallPinned(s: State, t: nat, h: nat, shape: Shape, low: Thread, k: Token)
    requires Carries(s, t, h, shape, low) && Calling(h, shape, Part(s.ts[t], low))
    ensures CallPins(s.topo, h, shape, k) <= Held(s.topo, s.ts[t], k)
  {
    var p := Part(s.ts[t], low);
    var m := |p| - BottomSize(shape);
    BottomHolds(s.topo, h, shape, p[m..], k);
    DeferredAppend(s.topo, p[..m], p[m..], k);
    DeferredAppend(s.topo, p, low, k);
    assert p == p[..m] + p[m..] && s.ts[t] == p + low;
  }

  lemma CallIsSafe(s: State, t: nat, h: nat, shape: Shape, low: Thread, g: nat, a: nat)
    requires Inv(s) && Carries(s, t, h, shape, low) && Calling(h, shape, Part(s.ts[t], low))
    requires Given(h, shape, g) && g < |s.topo| && Above(s.topo, a, g)
    ensures a < |s.hs| && s.hs[a].ptr && s.freed[a] == 0 && Threads(s.topo, s.ts, FreeTok(a)) == 0
  {
    CallPinned(s, t, h, shape, low, PinTok(a));
    AboveInRange(s.topo, a, g);
    ChainIsAbove(s.topo, a, g);
    ThreadBelow(s.topo, s.ts, t, PinTok(a));
    PinnedUnfreed(s, a);
  }

  /** The thread holds every pin the call needs, and of the handles the call was given, and of all above them,
      none is freed or about to be. */
  ghost predicate HoldsAll(z: State, t: nat, h: nat, shape: Shape)
    requires t < |z.ts|
  {
    && (forall k :: CallPins(z.topo, h, shape, k) <= Held(z.topo, z.ts[t], k))
    && (forall g: nat, a: nat | Given(h, shape, g) && Above(z.topo, a, g) ::
          a < |z.hs| && z.hs[a].ptr && z.freed[a] == 0 && Threads(z.topo, z.ts, FreeTok(a)) == 0)
  }

  lemma CallingHoldsAll(z: State, t: nat, h: nat, shape: Shape, low: Thread)
    requires Inv(z) && Carries(z, t, h, shape, low) && Calling(h, shape, Part(z.ts[t], low))
    requires h < |z.topo| && (shape.Merge? ==> shape.source < |z.topo|)
    ensures HoldsAll(z, t, h, shape)
  {
    forall k ensures CallPins(z.topo, h, shape, k) <= Held(z.topo, z.ts[t], k) {
      CallPinned(z, t, h, shape, low, k);
    }
    forall g: nat, a: nat | Given(h, shape, g) && Above(z.topo, a, g)
      ensures a < |z.hs| && z.hs[a].ptr && z.freed[a] == 0 && Threads(z.topo, z.ts, FreeTok(a)) == 0
    {
      CallIsSafe(z, t, h, shape, low, g, a);
    }
  }

  /** As long as the native call of an operation is on its thread, the thread holds the pins of the receiver, of
      the source of a merge, and of everything above them, and none of these is freed or about to be. */
  lemma CallHoldsAll(s: State, t: nat, h: nat, shape: Shape, es: seq<Event>, z: State)
    requires Inv(s) && CallRun(s, t, h, shape, es, z)
    ensures Carries(z, t, h, shape, s.ts[t])
    ensures Calling(h, shape, Part(z.ts[t], s.ts[t])) ==> HoldsAll(z, t, h, shape)
  {
    CallFollows(s, t, h, shape, es, z);
    Started(s, t, h, shape);
    TopologyLasts(StartOp(s, t, Invoke(h, shape)), es, z);
    if Calling(h, shape, Part(z.ts[t], s.ts[t])) { CallingHoldsAll(z, t, h, shape, s.ts[t]); }
  }

  /** When the native call panics, a poisoning is under way to the receiver, and to the source of a merge. */
  lemma PanicOfCall(s: State, t: nat, h: nat, shape: Shape, low: Thread, cause: Cause, g: nat)
    requires Inv(s) && Carries(s, t, h, shape, low) && Bottom(h, shape, Part(s.ts[t], low)) && Given(h, shape, g)
    requires Enabled(s, Run(t, Panicked(cause)))
    ensures PoisonPending(Next(s, Run(t, Panicked(cause))), g)
  {
    var f := Part(s.ts[t], low)[0];
    assert s.ts[t][0] == f && Reached(f, g);
    PoisonHeldAfterPanic(s, Run(t, Panicked(cause)), g);
  }

  // ----- what a call makes -----

  /** The handle that the step from s to z made: open, with its object, under its parent, and nothing else new. */
  predicate Makes(s: State, z: State, node: Node, slots: seq<nat>) {
    && |s.topo| == |s.hs| && z.topo == s.topo + [node] && |z.hs| == |s.hs| + 1 && z.hs[..|s.hs|] == s.hs
    && var x := z.hs[|s.hs|];
       && x.ptr && !x.closed && x.poison.None? && x.active == 0 && x.children == 0
       && x.link == node.born && x.slots == slots && (x.armed <==> Owned(node.kind))
  }

  predicate MakesNone(s: State, z: State) { z.topo == s.topo && z.hs == s.hs }

  /** A call that returns makes what it is for: a child under the root of the chain, keeping the reservation; a
      view under the receiver; a queue of its own with the observer in its second slot; and nothing else. */
  lemma CallMakes(s: State, t: nat, h: nat, shape: Shape, low: Thread)
    requires Inv(s) && Carries(s, t, h, shape, low) && Bottom(h, shape, Part(s.ts[t], low)) && !shape.Merged?
    ensures Enabled(s, Run(t, Returned))
    ensures var z, cb := RunNative(s, t, Returned), Part(s.ts[t], low)[0].cb;
            match shape
            case NewChild => Makes(s, z, Node(Child, Some(Root(s.topo, h))), []) && z.ts[t] == [Unpin(h)] + low
            case NewView => Makes(s, z, Node(View, Some(h)), [])
            case Clone => Makes(s, z, Node(Queue, None), [0, cb, 0]) && z.ts[t] == [Unpin(h)] + low
            case Observe => MakesNone(s, z) && z.ts[t] == [Swap(h, cb), Unpin(h)] + low
            case _ => MakesNone(s, z)
  {
    var p := Part(s.ts[t], low);
    assert s.ts[t] == p + low;
    BottomFrame(s, t, h, shape, p, low);
    if shape.NewChild? || shape.NewView? || shape.Clone? {
      BirthReturns(s, t, h, shape, p[0].res, p[0].cb, low);
    } else {
      PlainReturns(s, t);
    }
  }

  lemma BirthReturns(s: State, t: nat, h: nat, shape: Shape, res: Option<nat>, cb: nat, low: Thread)
    requires |s.topo| == |s.hs| && Ready(s, t) && s.ts[t][0] == Native(h, shape, res, cb) && s.ts[t][1..] == low
    ensures var z := RunNative(s, t, Returned);
            && (shape.NewChild? ==> Makes(s, z, Node(Child, res), []) && z.ts[t] == [Unpin(h)] + low)
            && (shape.NewView? ==> Makes(s, z, Node(View, Some(h)), []))
            && (shape.Clone? ==> Makes(s, z, Node(Queue, None), [0, cb, 0]) && z.ts[t] == [Unpin(h)] + low)
  {
    var m := SetThread(s, t, AfterNative(h, shape, res, cb, Returned) + low);
    BornMakes(s, m, Node(Child, res), []);
    BornMakes(s, m, Node(View, Some(h)), []);
    BornMakes(s, m, Node(Queue, None), [0, cb, 0]);
  }

  lemma PlainReturns(s: State, t: nat)
    requires Ready(s, t) && s.ts[t][0].Native?
    requires !s.ts[t][0].shape.NewChild? && !s.ts[t][0].shape.NewView? && !s.ts[t][0].shape.Clone?
    ensures var f, z := s.ts[t][0], RunNative(s, t, Returned);
            MakesNone(s, z) && (f.shape.Observe? ==> z.ts[t] == [Swap(f.h, f.cb), Unpin(f.h)] + s.ts[t][1..])
  {}

  /** The frame of the native call, as the invariant has it. */
  lemma BottomFrame(s: State, t: nat, h: nat, shape: Shape, p: Thread, low: Thread)
    requires Inv(s) && t < |s.ts| && s.ts[t] == p + low && Bottom(h, shape, p)
    ensures s.ts[t][0] == p[0] && s.ts[t][1..] == p[1..] + low && (!shape.Merge? ==> s.ts[t][1..] == low)
    ensures p[0].res == if p[0].shape.NewChild? then Some(Root(s.topo, p[0].h)) else None
  {
    assert ThreadOk(s.topo, s.ts[t]) && s.ts[t][0] == p[0];
    if !shape.Merge? { assert p[1..] == []; }
  }

  lemma BornMakes(s: State, m: State, node: Node, slots: seq<nat>)
    requires m.topo == s.topo && m.hs == s.hs && |s.topo| == |s.hs|
    ensures Makes(s, Born(m, node, slots), node, slots)
  {}

  /** One that does not return makes nothing: it gives the reservation back, and deletes the callback handle it
      was given, but for a clone that rethrows. */
  lemma CallFails(s: State, t: nat, h: nat, shape: Shape, low: Thread, outcome: Outcome)
    requires Inv(s) && Carries(s, t, h, shape, low) && Bottom(h, shape, Part(s.ts[t], low)) && !shape.Merged?
    requires !outcome.Returned?
    ensures Enabled(s, Run(t, outcome))
    ensures var z := RunNative(s, t, outcome);
            && MakesNone(s, z) && Carries(z, t, h, shape, low) && Leaving(Part(z.ts[t], low))
            && GivesBack(s.topo, h, shape, Part(s.ts[t], low)[0].cb, outcome, Part(z.ts[t], low))
  {
    var p, z := Part(s.ts[t], low), RunNative(s, t, outcome);
    assert s.ts[t] == p + low && ThreadOk(s.topo, s.ts[t]) && s.ts[t][0] == p[0];
    var q := ReturnRuns(s, t, h, shape, p, low, outcome);
    CarriesFrom(z, t, h, shape, q, low);
    BackIn(s.topo, h, shape, p, outcome);
    FailedMakesNone(s, t, outcome);
  }

  lemma FailedMakesNone(s: State, t: nat, outcome: Outcome)
    requires Ready(s, t) && s.ts[t][0].Native? && !outcome.Returned?
    ensures MakesNone(s, RunNative(s, t, outcome))
  {}

  predicate GivesBack(topo: Topology, h: nat, shape: Shape, cb: nat, outcome: Outcome, q: Thread) {
    && (shape.NewChild? ==> Drop(Root(topo, h)) in q)
    && (shape.Observe? ==> Delete(cb) in q)
    && (shape.Clone? ==> (Delete(cb) in q <==> !outcome.Rethrown?))
  }

  lemma BackIn(topo: Topology, h: nat, shape: Shape, p: Thread, outcome: Outcome)
    requires Bottom(h, shape, p) && !outcome.Returned? && (shape.NewChild? ==> p[0].res == Some(Root(topo, h)))
    ensures GivesBack(topo, h, shape, p[0].cb, outcome,
                      AfterNative(p[0].h, p[0].shape, p[0].res, p[0].cb, outcome) + p[1..])
  {
    var q := AfterNative(p[0].h, p[0].shape, p[0].res, p[0].cb, outcome);
    if shape.NewChild? { assert q[|q| - 1] == Drop(Root(topo, h)); }
  }

  /** Setting an observer: once native code has returned, and whatever other threads do before the next section,
      that section puts the call's handle in the third slot and the one that was there is to be deleted. */
  lemma ObserverInstalled(s: State, t: nat, h: nat, low: Thread, es: seq<Event>, z: State, outcome: Outcome)
    requires Inv(s) && Carries(s, t, h, Observe, low) && Bottom(h, Observe, Part(s.ts[t], low))
    requires Enabled(s, Run(t, Returned)) && Path(RunNative(s, t, Returned), es, z)
    requires forall e | e in es :: !Runs(e, t)
    ensures Enabled(z, Run(t, outcome)) && h < |z.hs| && |z.hs[h].slots| == 3
    ensures Installed(z, Next(z, Run(t, outcome)), t, h, Part(s.ts[t], low)[0].cb, low)
  {
    var y, cb := RunNative(s, t, Returned), Part(s.ts[t], low)[0].cb;
    CallMakes(s, t, h, Observe, low);
    NextKeeps(s, Run(t, Returned));
    ThreadWaits(y, es, z, t);
    SwapInstalls(z, t, h, cb, low, outcome);
  }

  predicate Installed(z: State, y: State, t: nat, h: nat, cb: nat, low: Thread)
    requires h < |z.hs| && |z.hs[h].slots| == 3
  {
    && |y.hs| == |z.hs| && y.hs[h].slots == z.hs[h].slots[2 := cb]
    && t < |y.ts| && y.ts[t] == DeleteFrames([z.hs[h].slots[2]]) + ([Unpin(h)] + low)
  }

  lemma SwapInstalls(z: State, t: nat, h: nat, cb: nat, low: Thread, outcome: Outcome)
    requires Inv(z) && t < |z.ts| && z.ts[t] == [Swap(h, cb), Unpin(h)] + low
    ensures Enabled(z, Run(t, outcome)) && h < |z.hs| && |z.hs[h].slots| == 3
    ensures Installed(z, Next(z, Run(t, outcome)), t, h, cb, low)
  {
    assert z.ts[t][0] == Swap(h, cb) && ThreadOk(z.topo, z.ts[t]);
    InstallRuns(z, t, h, cb, low, outcome);
  }

  lemma {:induction false} ThreadWaits(s: State, es: seq<Event>, z: State, t: nat)
    requires Inv(s) && Path(s, es, z) && t < |s.ts| && forall e | e in es :: !Runs(e, t)
    ensures Inv(z) && t < |z.ts| && z.ts[t] == s.ts[t]
    decreases |es|
  {
    if es != [] {
      assert es[0] in es;
      NextKeeps(s, es[0]);
      if !es[0].Create? { NextModest(s, es[0]); }
      ThreadWaits(Next(s, es[0]), es[1..], z, t);
    }
  }

  lemma BuildStarted(s: State, t: nat)
    requires Inv(s) && Enabled(s, Start(t, NewQueue))
    ensures Inv(StartOp(s, t, NewQueue)) && StartOp(s, t, NewQueue).ts[t] == [Build(s.made + 1)] + s.ts[t]
  {
    NextKeeps(s, Start(t, NewQueue));
  }

  /** A queue's constructor: the callback handle it was given is in the first slot of the queue it makes. */
  lemma QueueMade(s: State, t: nat, es: seq<Event>, z: State)
    requires Inv(s) && Enabled(s, Start(t, NewQueue))
    requires Path(StartOp(s, t, NewQueue), es, z) && forall e | e in es :: !Runs(e, t)
    ensures Ready(z, t) && z.ts[t][0].Build?
    ensures Makes(z, RunBuild(z, t, Returned), Node(Queue, None), [s.made + 1, 0, 0])
    ensures RunBuild(z, t, Returned).ts[t] == s.ts[t]
  {
    BuildStarted(s, t);
    ThreadWaits(StartOp(s, t, NewQueue), es, z, t);
    BuildMakes(z, t, s.made + 1, s.ts[t]);
  }

  lemma BuildMakes(z: State, t: nat, cb: nat, low: Thread)
    requires |z.topo| == |z.hs| && t < |z.ts| && z.ts[t] == [Build(cb)] + low
    ensures Makes(z, RunBuild(z, t, Returned), Node(Queue, None), [cb, 0, 0])
    ensures RunBuild(z, t, Returned).ts[t] == low
  {
    assert z.ts[t][1..] == low;
  }

  // ----- getting in -----

  ghost predicate Invites(s: State, h: nat, shape: Shape) {
    Welcomes(s, h, shape.NewChild?) && (shape.Merge? ==> Welcomes(s, shape.source, false))
  }

  /** In every state that an event of the run starts from, the handles of the call are open to it. */
  ghost predicate AllInvite(s: State, es: seq<Event>, h: nat, shape: Shape)
    decreases |es|
  {
    es == [] || (Invites(s, h, shape) && (Enabled(s, es[0]) ==> AllInvite(Next(s, es[0]), es[1..], h, shape)))
  }

  /** The call is acquiring its handles, or has just got into native code. */
  predicate GetsIn(s: State, t: nat, h: nat, shape: Shape, low: Thread) {
    && t < |s.ts| && |low| <= |s.ts[t]| && s.ts[t][|s.ts[t]| - |low|..] == low
    && (Entering(h, shape, Part(s.ts[t], low)) || Bottom(h, shape, Part(s.ts[t], low)))
  }

  lemma EntersNext(s: State, e: Event, t: nat, h: nat, shape: Shape, low: Thread)
    requires Inv(s) && Enabled(s, e) && GetsIn(s, t, h, shape, low) && !GoCode(s.ts[t]) && Invites(s, h, shape)
    requires !shape.Merged? && (shape.Merge? ==> shape.source < |s.topo|)
    ensures GetsIn(Next(s, e), t, h, shape, low) && |Next(s, e).topo| >= |s.topo|
  {
    var p := Part(s.ts[t], low);
    assert s.ts[t] == p + low;
    if !e.Create? { NextModest(s, e); }
    if Runs(e, t) {
      var q: Thread;
      if Acquiring(p, Want(h, shape)) {
        q := FirstRuns(s, t, h, shape, p, low, e.outcome);
      } else {
        q := SourceRuns(s, t, h, shape.source, p, low, e.outcome);
      }
      assert Part(q + low, low) == q && (q + low)[|q|..] == low;
    }
  }

  lemma {:induction false} EntersAll(s: State, es: seq<Event>, z: State, t: nat, h: nat, shape: Shape, low: Thread)
    requires Inv(s) && Path(s, es, z) && GetsIn(s, t, h, shape, low) && Busy(s, es, t) && AllInvite(s, es, h, shape)
    requires !shape.Merged? && (shape.Merge? ==> shape.source < |s.topo|)
    ensures Inv(z) && GetsIn(z, t, h, shape, low)
    decreases |es|
  {
    if es != [] {
      NextKeeps(s, es[0]);
      EntersNext(s, es[0], t, h, shape, low);
      EntersAll(Next(s, es[0]), es[1..], z, t, h, shape, low);
    }
  }

  /** A call on handles that are open, in place and not poisoned, with all their owners and parents, is never
      refused: over every run it is acquiring them, and can go on, or it has got into native code, on top of
      what the thread had; and it takes no more of its own sections than the rank of its start. */
  lemma CallGetsIn(s: State, t: nat, h: nat, shape: Shape, es: seq<Event>, z: State)
    requires Inv(s) && Enabled(s, Start(t, Invoke(h, shape)))
    requires var y := StartOp(s, t, Invoke(h, shape)); Path(y, es, z) && Busy(y, es, t) && AllInvite(y, es, h, shape)
    ensures GetsIn(z, t, h, shape, s.ts[t])
    ensures Bottom(h, shape, Part(z.ts[t], s.ts[t]))
            || (Enabled(z, Run(t, Returned)) && !GoCode(z.ts[t])
                && OwnSections(es, t) < Rank(s.topo, StartOp(s, t, Invoke(h, shape)).ts[t]))
  {
    var y := StartOp(s, t, Invoke(h, shape));
    Started(s, t, h, shape);
    EntersAll(y, es, z, t, h, shape, s.ts[t]);
    WaitFree(y, es, z, t);
    if !Bottom(h, shape, Part(z.ts[t], s.ts[t])) { EnteringIsReady(z, t, h, shape, s.ts[t]); }
  }

  lemma EnteringIsReady(z: State, t: nat, h: nat, shape: Shape, low: Thread)
    requires Inv(z) && GetsIn(z, t, h, shape, low) && Entering(h, shape, Part(z.ts[t], low))
    ensures Enabled(z, Run(t, Returned)) && !GoCode(z.ts[t]) && Rank(z.topo, z.ts[t]) > 0
  {
    var p := Part(z.ts[t], low);
    assert z.ts[t] == p + low && z.ts[t][0] == p[0] && ThreadOk(z.topo, z.ts[t]);
    if shape.Merge? && AcquiringSource(h, shape.source, p) { assert p[..|p| - 1][0] == p[0]; }
  }
}
