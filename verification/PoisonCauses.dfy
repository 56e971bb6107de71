/** Where the cause of a poison comes from: a panic of a native call that reached the handle. */
module PoisonCauses {
  import opened Wrappers
  import opened Sections
  import opened Protocol
  import opened Tokens
  import opened ProtocolInvariant
  import opened ProtocolSteps
  import opened ProtocolBirths
  import opened ProtocolTheorems
  import opened PoisonBars
  import opened Operations

  /** A poisoning with this cause is on the list of frames, for a handle that a is above. */
  predicate Climbing(topo: Topology, fs: Thread, a: nat, cause: Cause) {
    exists f | f in fs :: f.Poison? && f.cause == cause && Above(topo, a, f.h)
  }

  /** The handle a is poisoned with this cause, or is to be. */
  predicate Marked(s: State, a: nat, cause: Cause) {
    || (a < |s.hs| && s.hs[a].poison == Some(cause))
    || exists t | 0 <= t < |s.ts| :: Climbing(s.topo, s.ts[t], a, cause)
  }

  /** The event is a panic, with this cause, of a native call that was given the handle a or one below it. */
  predicate PanicReaches(s: State, e: Event, a: nat, cause: Cause) {
    && e.Run? && Ready(s, e.t) && s.ts[e.t][0].Native? && e.outcome == Panicked(cause)
    && var f := s.ts[e.t][0];
       Above(s.topo, a, f.h) || (f.shape.Merged? && Above(s.topo, a, f.shape.receiver))
  }

  lemma {:induction false} AbortFrames(fs: Thread, f: Frame)
    requires f in Abort(fs)
    ensures f in fs
  {
    if fs[0].Pin? { AbortFrames(fs[1..], f); }
  }

  lemma AcquiresNoPoison(s: State, t: nat, outcome: Outcome, f: Frame)
    requires Enabled(s, Run(t, outcome)) && Acquires(s.ts[t][0]) && f.Poison? && f in Next(s, Run(t, outcome)).ts[t]
    ensures f in s.ts[t]
  {
    var rest := s.ts[t][1..];
    if f in Abort(rest) { AbortFrames(rest, f); }
  }

  lemma PoisonFramesOf(h: nat, shape: Shape, res: Option<nat>, cb: nat, outcome: Outcome, f: Frame)
    requires f.Poison? && f in AfterNative(h, shape, res, cb, outcome)
    ensures outcome == Panicked(f.cause) && (f.h == h || (shape.Merged? && f.h == shape.receiver))
  {}

  lemma CleanupNoPoison(h: nat, taken: Taken, f: Frame)
    requires f in Cleanup(h, taken)
    ensures !f.Poison?
  {
    if taken.Taken? && f in DeleteFrames(taken.slots) { DeletesOnly(taken.slots, f); }
  }

  lemma {:induction false} DeletesOnly(slots: seq<nat>, f: Frame)
    requires f in DeleteFrames(slots)
    ensures f.Delete?
  {
    if slots[0] == 0 || f != Delete(slots[0]) { DeletesOnly(slots[1..], f); }
  }

  /** Such a section puts no poisoning on its thread but one that climbs, or one that its panic starts. */
  lemma RemainsPoison(s: State, f: Frame, outcome: Outcome, g: Frame)
    requires |s.topo| == |s.hs| && (Targeted(f) ==> f.h < |s.hs|) && g.Poison? && g in Remains(s, f, outcome)
    ensures f.Poison? ==> g.cause == f.cause && s.hs[f.h].link == Some(g.h)
    ensures !f.Poison? ==> f.Native? && outcome == Panicked(g.cause)
                           && (g.h == f.h || (f.shape.Merged? && g.h == f.shape.receiver))
  {
    match f
    case Native(h, shape, res, cb) => PoisonFramesOf(h, shape, res, cb, outcome, g);
    case Swap(h, _) => DeletesOnly([s.hs[h].slots[2]], g);
    case Unpin(h) =>
      var taken := Unpinned(s.topo[h].kind, s.hs[h]).1;
      if g in Cleanup(h, taken) { CleanupNoPoison(h, taken, g); }
    case Close(h) => CleanupNoPoison(h, Closed(s.topo[h].kind, s.hs[h]).1, g);
    case _ =>
  }

  lemma ThreadMarks(s: State, t: nat, outcome: Outcome, a: nat, g: Frame)
    requires Inv(s) && Enabled(s, Run(t, outcome)) && g in Next(s, Run(t, outcome)).ts[t] && g.Poison?
    requires Above(s.topo, a, g.h)
    ensures Climbing(s.topo, s.ts[t], a, g.cause) || PanicReaches(s, Run(t, outcome), a, g.cause)
  {
    var f := s.ts[t][0];
    assert ThreadOk(s.topo, s.ts[t]);
    if Acquires(f) {
      AcquiresNoPoison(s, t, outcome, g);
    } else {
      RemainsRuns(s, t, outcome);
      if g in Remains(s, f, outcome) {
        RemainsPoison(s, f, outcome, g);
        if f.Poison? {
          assert HandleOk(s.topo[f.h], s.hs[f.h]);
          assert f in s.ts[t] && Above(s.topo, a, f.h);
        }
      } else {
        assert g in s.ts[t];
      }
    }
  }

  /** What an event does to the frames of the thread it runs. */
  lemma EventMarks(s: State, e: Event, a: nat, g: Frame)
    requires Inv(s) && Enabled(s, e) && !e.Create? && g in Next(s, e).ts[e.t] && g.Poison? && Above(s.topo, a, g.h)
    ensures Climbing(s.topo, s.ts[e.t], a, g.cause) || PanicReaches(s, e, a, g.cause)
  {
    match e
    case Run(t, outcome) => ThreadMarks(s, t, outcome, a, g);
    case Start(t, op) => assert g in s.ts[t];
    case Collect(t, h) => CleanupNoPoison(h, Collected(s.hs[h]).1, g);
  }

  predicate SamePoison(s: State, z: State) {
    |s.hs| <= |z.hs| && forall h | 0 <= h < |s.hs| :: z.hs[h].poison == s.hs[h].poison
  }

  lemma AcquireSame(s: State, t: nat, outcome: Outcome)
    requires Enabled(s, Run(t, outcome)) && Acquires(s.ts[t][0])
    ensures SamePoison(s, Next(s, Run(t, outcome)))
  {}

  lemma ReturnSame(s: State, t: nat, outcome: Outcome)
    requires Enabled(s, Run(t, outcome)) && (s.ts[t][0].Native? || s.ts[t][0].Build?)
    ensures SamePoison(s, Next(s, Run(t, outcome)))
  {}

  lemma ReleaseSame(s: State, t: nat, outcome: Outcome)
    requires Enabled(s, Run(t, outcome)) && (s.ts[t][0].Unpin? || s.ts[t][0].Close?)
    ensures SamePoison(s, Next(s, Run(t, outcome)))
  {}

  lemma ShortSame(s: State, t: nat, outcome: Outcome)
    requires Enabled(s, Run(t, outcome))
    requires s.ts[t][0].Swap? || s.ts[t][0].Free? || s.ts[t][0].Drop? || s.ts[t][0].Delete?
    ensures SamePoison(s, Next(s, Run(t, outcome)))
  {}

  lemma PoisonSets(s: State, t: nat, outcome: Outcome, a: nat, cause: Cause)
    requires Enabled(s, Run(t, outcome)) && s.ts[t][0].Poison? && a < |s.hs| && s.hs[a].poison != Some(cause)
    requires a < |RunPoison(s, t).hs| && RunPoison(s, t).hs[a].poison == Some(cause)
    ensures s.ts[t][0] == Poison(a, cause)
  {}

  lemma StartSame(s: State, e: Event)
    requires Enabled(s, e) && !e.Run?
    ensures SamePoison(s, Next(s, e))
  {}

  /** Only the section of a poisoning poisons, the handle and with the cause that it carries. */
  lemma PoisonedBy(s: State, e: Event, a: nat, cause: Cause)
    requires Enabled(s, e) && a < |s.hs| <= |Next(s, e).hs|
    requires s.hs[a].poison != Some(cause) && Next(s, e).hs[a].poison == Some(cause)
    ensures e.Run? && s.ts[e.t][0] == Poison(a, cause)
  {
    if !e.Run? {
      StartSame(s, e);
    } else {
      var f := s.ts[e.t][0];
      if Acquires(f) {
        AcquireSame(s, e.t, e.outcome);
      } else if f.Native? || f.Build? {
        ReturnSame(s, e.t, e.outcome);
      } else if f.Unpin? || f.Close? {
        ReleaseSame(s, e.t, e.outcome);
      } else if f.Poison? {
        PoisonSets(s, e.t, e.outcome, a, cause);
      } else {
        ShortSame(s, e.t, e.outcome);
      }
    }
  }

  lemma KnownBefore(s: State, e: Event, a: nat, cause: Cause)
    requires Enabled(s, e) && a < |Next(s, e).hs| && Next(s, e).hs[a].poison == Some(cause)
    ensures a < |s.hs| <= |Next(s, e).hs|
  {
    if !e.Create? {
      NextModest(s, e);
      ModestBefore(s, Next(s, e), e.t, a);
    }
  }

  lemma ModestBefore(s: State, z: State, t: nat, a: nat)
    requires Modest(s, z, t) && a < |z.hs| && z.hs[a].poison.Some?
    ensures a < |s.hs| <= |z.hs|
  {}

  lemma HandleMarks(s: State, e: Event, a: nat, cause: Cause)
    requires Inv(s) && Enabled(s, e) && a < |Next(s, e).hs| && Next(s, e).hs[a].poison == Some(cause)
    ensures Marked(s, a, cause)
  {
    KnownBefore(s, e, a, cause);
    if s.hs[a].poison != Some(cause) {
      PoisonedBy(s, e, a, cause);
      assert Poison(a, cause) in s.ts[e.t] && Above(s.topo, a, a);
      assert Climbing(s.topo, s.ts[e.t], a, cause);
    }
  }

  /** A step marks a handle with a cause only by a panic with that cause. */
  lemma StepMarks(s: State, e: Event, a: nat, cause: Cause)
    requires Inv(s) && Enabled(s, e) && Marked(Next(s, e), a, cause)
    ensures Marked(s, a, cause) || PanicReaches(s, e, a, cause)
  {
    var z := Next(s, e);
    if a < |z.hs| && z.hs[a].poison == Some(cause) {
      HandleMarks(s, e, a, cause);
    } else {
      var t :| 0 <= t < |z.ts| && Climbing(z.topo, z.ts[t], a, cause);
      var g :| g in z.ts[t] && g.Poison? && g.cause == cause && Above(z.topo, a, g.h);
      FrameMarks(s, e, t, a, g);
    }
  }

  lemma FrameMarks(s: State, e: Event, t: nat, a: nat, g: Frame)
    requires Inv(s) && Enabled(s, e) && t < |s.ts| && g in Next(s, e).ts[t] && g.Poison?
    requires Above(Next(s, e).topo, a, g.h)
    ensures Marked(s, a, g.cause) || PanicReaches(s, e, a, g.cause)
  {
    var z := Next(s, e);
    NewThreadOk(s, e, t);
    PoisonInRange(s.topo, z.ts[t], g);
    if z.topo != s.topo { AboveAppend(s.topo, z.topo[|s.topo|], a, g.h); }
    if Runs(e, t) {
      EventMarks(s, e, a, g);
      assert Climbing(s.topo, s.ts[t], a, g.cause) ==> Marked(s, a, g.cause);
    } else {
      if !e.Create? { NextModest(s, e); }
      assert Climbing(s.topo, s.ts[t], a, g.cause);
    }
  }

  lemma {:induction false} PoisonInRange(topo: Topology, fs: Thread, g: Frame)
    requires (ThreadOk(topo, fs) || Tail(topo, fs)) && g in fs && g.Poison?
    ensures g.h < |topo|
  {
    if fs[0] != g { PoisonInRange(topo, fs[1..], g); }
  }

  // ----- over a run -----

  /** Some event of the run is a panic with this cause that reached a. */
  predicate Blamed(s: State, es: seq<Event>, a: nat, cause: Cause)
    decreases |es|
  {
    es != [] && Enabled(s, es[0]) && (PanicReaches(s, es[0], a, cause) || Blamed(Next(s, es[0]), es[1..], a, cause))
  }

  lemma {:induction false} MarksAreBlamed(s: State, es: seq<Event>, z: State, a: nat, cause: Cause)
    requires Inv(s) && Path(s, es, z) && Marked(z, a, cause)
    ensures Marked(s, a, cause) || Blamed(s, es, a, cause)
    decreases |es|
  {
    if es != [] {
      NextKeeps(s, es[0]);
      MarksAreBlamed(Next(s, es[0]), es[1..], z, a, cause);
      if Marked(Next(s, es[0]), a, cause) { StepMarks(s, es[0], a, cause); }
    }
  }

  /** In every reachable state the cause of a poison is that of a panic in a native call that was given the
      handle or one below it: no error, rethrow, Close or cleanup poisons, and none gives another cause. */
  lemma EveryPoisonIsAPanic(s: State, es: seq<Event>, z: State, a: nat)
    requires Initial(s) && Path(s, es, z) && a < |z.hs| && z.hs[a].poison.Some?
    ensures Blamed(s, es, a, z.hs[a].poison.value)
  {
    InitialInv(s);
    MarksAreBlamed(s, es, z, a, z.hs[a].poison.value);
  }

  /** The first panic that reaches a handle gives it its cause: when the handle was not poisoned, no poisoning
      was on its way to it, and no panic with another cause reaches it later, it is this one it ends with. */
  lemma PanicNamesCause(s: State, t: nat, cause: Cause, es: seq<Event>, z: State, a: nat)
    requires Reachable(s) && Enabled(s, Run(t, Panicked(cause))) && PanicReaches(s, Run(t, Panicked(cause)), a, cause)
    requires forall c :: !Marked(s, a, c)
    requires var y := Next(s, Run(t, Panicked(cause)));
             Path(y, es, z) && forall c :: Blamed(y, es, a, c) ==> c == cause
    ensures a < |z.hs| && (z.hs[a].poison.Some? ==> z.hs[a].poison == Some(cause))
    ensures (forall p :: !PoisonPending(z, p)) ==> z.hs[a].poison == Some(cause)
  {
    ReachableInv(s);
    var e, f := Run(t, Panicked(cause)), s.ts[t][0];
    var h := if Above(s.topo, a, f.h) then f.h else f.shape.receiver;
    NextKeeps(s, e);
    PanicPoisonsUpward(s, t, cause, es, z, h, a);
    if z.hs[a].poison.Some? {
      var c := z.hs[a].poison.value;
      MarksAreBlamed(Next(s, e), es, z, a, c);
      if Marked(Next(s, e), a, c) { StepMarks(s, e, a, c); }
    }
  }
}
