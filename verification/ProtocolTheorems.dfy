/** What holds over every run of the handle protocol, for any number of threads, any depth of views and
    every interleaving of sections. */
module ProtocolTheorems {
  import opened Wrappers
  import opened Sections
  import opened Protocol
  import opened Tokens
  import opened ProtocolInvariant
  import opened ProtocolSteps
  import opened ProtocolBirths

  // ----- runs -----

  lemma NextKeeps(s: State, e: Event)
    requires Inv(s) && Enabled(s, e)
    ensures Safe(s, Next(s, e))
  {
    match e
    case Create(kind) => CreateKeeps(s, kind);
    case Start(t, op) => StartKeeps(s, t, op);
    case Collect(t, h) => CollectKeeps(s, t, h);
    case Run(t, outcome) =>
      match s.ts[t][0]
      case ReadLink(_, _) => ReadLinkKeeps(s, t);
      case Pin(_, _, _, _) => PinKeeps(s, t);
      case Want(_, _) => assert false;
      case Native(_, _, _, _) => NativeKeeps(s, t, outcome);
      case Build(_) => BuildKeeps(s, t, outcome);
      case Swap(_, _) => SwapKeeps(s, t);
      case Poison(_, _) => PoisonKeeps(s, t);
      case Unpin(_) => UnpinKeeps(s, t);
      case Close(_) => CloseKeeps(s, t);
      case Free(_) => FreeKeeps(s, t);
      case Drop(_) => DropKeeps(s, t);
      case Delete(_) => DeleteKeeps(s, t);
  }

  lemma {:induction false} PathKeeps(s: State, es: seq<Event>, z: State)
    requires Inv(s) && Path(s, es, z)
    ensures Inv(z)
    decreases |es|
  {
    if es != [] {
      NextKeeps(s, es[0]);
      PathKeeps(Next(s, es[0]), es[1..], z);
    }
  }

  lemma {:induction false} IdleThreads(topo: Topology, ts: seq<Thread>, k: Token)
    requires forall t | 0 <= t < |ts| :: ts[t] == []
    ensures Threads(topo, ts, k) == 0
  {
    if ts != [] { IdleThreads(topo, ts[1..], k); }
  }

  lemma InitialInv(s: State)
    requires Initial(s)
    ensures Inv(s)
  {
    forall k: Token ensures Total(s, k) == 0 { IdleThreads(s.topo, s.ts, k); }
  }

  lemma ReachableInv(z: State)
    requires Reachable(z)
    ensures Inv(z)
  {
    var s, es :| Initial(s) && Path(s, es, z);
    InitialInv(s);
    PathKeeps(s, es, z);
  }

  /** No thread is ever blocked, and no section indexes a slot slice that Close has taken. */
  lemma NeverStuck(z: State, t: nat, outcome: Outcome)
    requires Reachable(z) && Ready(z, t)
    ensures Enabled(z, Run(t, outcome)) && !z.crashed && !Next(z, Run(t, outcome)).crashed
  {
    ReachableInv(z);
    assert ThreadOk(z.topo, z.ts[t]);
    NextKeeps(z, Run(t, outcome));
  }

  // ----- counters -----

  lemma {:induction false} HandlesKeepNo(topo: Topology, hs: seq<Handle>, k: Token)
    requires |topo| == |hs| && (k.PinTok? || k.FreeTok? || k.PoisonTok?)
    ensures Handles(topo, hs, k) == 0
  {
    if hs != [] {
      var n := |hs| - 1;
      NoPoisonInSlots(hs[n].slots, k);
      HandlesKeepNo(topo[..n], hs[..n], k);
    }
  }

  /** The children of p whose native objects have not been taken for destruction. */
  function OpenChildren(topo: Topology, hs: seq<Handle>, p: nat): set<nat>
    requires |topo| == |hs|
  {
    set i: nat | i < |hs| && topo[i] == Node(Child, Some(p)) && hs[i].ptr
  }

  lemma OpenChildrenGrow(topo: Topology, hs: seq<Handle>, p: nat)
    requires |topo| == |hs| > 0
    ensures var n := |hs| - 1;
            var before := OpenChildren(topo[..n], hs[..n], p);
            && n !in before
            && OpenChildren(topo, hs, p) == if topo[n] == Node(Child, Some(p)) && hs[n].ptr then before + {n} else before
  {
    var n := |hs| - 1;
    assert forall i | 0 <= i < n :: topo[..n][i] == topo[i] && hs[..n][i] == hs[i];
  }

  lemma {:induction false} ReservationsOfChildren(topo: Topology, hs: seq<Handle>, p: nat)
    requires |topo| == |hs| && forall i | 0 <= i < |hs| :: HandleOk(topo[i], hs[i])
    ensures Handles(topo, hs, ResTok(p)) == |OpenChildren(topo, hs, p)|
  {
    if hs == [] {
      assert OpenChildren(topo, hs, p) == {};
    } else {
      var n := |hs| - 1;
      assert forall i | 0 <= i < n :: topo[..n][i] == topo[i] && hs[..n][i] == hs[i];
      ReservationsOfChildren(topo[..n], hs[..n], p);
      NoPoisonInSlots(hs[n].slots, ResTok(p));
      assert HandleOk(topo[n], hs[n]);
      OpenChildrenGrow(topo, hs, p);
    }
  }

  lemma CountersIn(z: State, h: nat)
    requires Inv(z) && h < |z.hs|
    ensures z.hs[h].active == Threads(z.topo, z.ts, PinTok(h))
    ensures z.hs[h].children == Threads(z.topo, z.ts, ResTok(h)) + |OpenChildren(z.topo, z.hs, h)|
  {
    HandlesKeepNo(z.topo, z.hs, PinTok(h));
    ReservationsOfChildren(z.topo, z.hs, h);
    assert Total(z, PinTok(h)) == Due(z, PinTok(h)) && Total(z, ResTok(h)) == Due(z, ResTok(h));
  }

  /** `active` is the number of pins the threads hold, and `children` the number of reservations in
      flight plus the number of children not yet taken for destruction. */
  lemma CountersExact(z: State, h: nat)
    requires Reachable(z) && h < |z.hs|
    ensures |z.topo| == |z.hs|
    ensures z.hs[h].active == Threads(z.topo, z.ts, PinTok(h))
    ensures z.hs[h].children == Threads(z.topo, z.ts, ResTok(h)) + |OpenChildren(z.topo, z.hs, h)|
  {
    ReachableInv(z);
    CountersIn(z, h);
  }

  /** Close of an open handle is refused exactly while a child is open or in the making, or, for a
      BorrowBox or a view, while a call is inside it. */
  lemma CloseRefusedExactly(z: State, h: nat)
    requires Inv(z) && h < |z.hs| && !z.hs[h].closed
    ensures CloseRefused(z.topo[h].kind, z.hs[h]).Some? <==>
            || (Reserves(z.topo[h].kind)
                && (Threads(z.topo, z.ts, ResTok(h)) > 0 || OpenChildren(z.topo, z.hs, h) != {}))
            || ((z.topo[h].kind.Box? || z.topo[h].kind.View?) && Threads(z.topo, z.ts, PinTok(h)) > 0)
  {
    CountersIn(z, h);
  }

  /** The collector's cleanup may run exactly on an owner that nobody closed, poisoned or took, while no thread
      has a pin on it, no reservation on it is in flight and no child of it is open. */
  lemma CollectableExactly(z: State, h: nat)
    requires Inv(z) && h < |z.hs|
    ensures Collectable(z.hs[h]) <==>
            && Owned(z.topo[h].kind) && z.hs[h].ptr && !z.hs[h].closed && z.hs[h].poison.None?
            && Threads(z.topo, z.ts, PinTok(h)) == 0
            && Threads(z.topo, z.ts, ResTok(h)) == 0 && OpenChildren(z.topo, z.hs, h) == {}
  {
    CountersIn(z, h);
    assert HandleOk(z.topo[h], z.hs[h]);
  }

  /** A queue is not refused once no reservation is in flight and every child of it has been taken, or is
      closed with nobody inside. */
  lemma DrainedQueueCloses(z: State, q: nat)
    requires Inv(z) && q < |z.hs| && z.topo[q].kind.Queue?
    requires Threads(z.topo, z.ts, ResTok(q)) == 0
    requires forall c | 0 <= c < |z.hs| && z.topo[c] == Node(Child, Some(q)) ::
               !z.hs[c].ptr || (z.hs[c].closed && Threads(z.topo, z.ts, PinTok(c)) == 0)
    ensures CloseRefused(z.topo[q].kind, z.hs[q]).None?
  {
    forall c | 0 <= c < |z.hs| && z.topo[c] == Node(Child, Some(q)) ensures !z.hs[c].ptr {
      CountersIn(z, c);
      assert HandleOk(z.topo[c], z.hs[c]);
    }
    assert OpenChildren(z.topo, z.hs, q) == {};
    if !z.hs[q].closed { CloseRefusedExactly(z, q); }
  }

  // ----- safety of native calls -----

  /** a is h, its parent, the parent of that, and so on. */
  predicate Above(topo: Topology, a: nat, h: nat) {
    a == h || (h < |topo| && topo[h].born.Some? && topo[h].born.value < h && Above(topo, a, topo[h].born.value))
  }

  lemma {:induction false} ChainIsAbove(topo: Topology, a: nat, h: nat)
    ensures Chain(topo, h, PinTok(a)) > 0 <==> Above(topo, a, h)
  {
    if h < |topo| && topo[h].born.Some? && topo[h].born.value < h {
      ChainIsAbove(topo, a, topo[h].born.value);
      ChainPins(topo, topo[h].born.value, PinTok(a));
    }
  }

  lemma {:induction false} FrameBelow(topo: Topology, fs: Thread, j: nat, k: Token)
    requires j < |fs|
    ensures FrameTokens(topo, fs[j], k) <= Deferred(topo, fs, k)
  {
    if j > 0 { FrameBelow(topo, fs[1..], j - 1, k); }
  }

  /** While any thread holds a pin on a, its object is in place and nobody is about to destroy it. */
  lemma PinnedUnfreed(z: State, a: nat)
    requires Inv(z) && a < |z.hs| && Threads(z.topo, z.ts, PinTok(a)) > 0
    ensures z.hs[a].ptr && z.freed[a] == 0 && Threads(z.topo, z.ts, FreeTok(a)) == 0
  {
    assert Total(z, PinTok(a)) == Due(z, PinTok(a)) && Total(z, FreeTok(a)) == Due(z, FreeTok(a));
    assert HandleOk(z.topo[a], z.hs[a]);
  }

  /** A thread inside a native call, callbacks included, has its handle and every ancestor of it in
      place: not destroyed, and not about to be. */
  lemma NativeCallIsSafe(z: State, t: nat, j: nat, a: nat)
    requires Reachable(z) && t < |z.ts| && j < |z.ts[t]| && z.ts[t][j].Native?
    requires Above(z.topo, a, z.ts[t][j].h)
    ensures a < |z.hs| && z.hs[a].ptr && z.freed[a] == 0 && Threads(z.topo, z.ts, FreeTok(a)) == 0
    ensures |z.topo| == |z.hs| && (z.topo[a].kind.Queue? ==> |z.hs[a].slots| == 3)
  {
    ReachableInv(z);
    assert ThreadOk(z.topo, z.ts[t]);
    FrameInRange(z.topo, z.ts[t], j);
    AboveInRange(z.topo, a, z.ts[t][j].h);
    ChainIsAbove(z.topo, a, z.ts[t][j].h);
    FrameBelow(z.topo, z.ts[t], j, PinTok(a));
    ThreadBelow(z.topo, z.ts, t, PinTok(a));
    PinnedUnfreed(z, a);
    assert HandleOk(z.topo[a], z.hs[a]);
  }

  lemma {:induction false} FrameInRange(topo: Topology, fs: Thread, j: nat)
    requires (ThreadOk(topo, fs) || Tail(topo, fs)) && j < |fs| && fs[j].Native?
    ensures fs[j].h < |topo|
  {
    if j > 0 { FrameInRange(topo, fs[1..], j - 1); }
  }

  lemma {:induction false} AboveInRange(topo: Topology, a: nat, h: nat)
    requires Above(topo, a, h)
    ensures a <= h
  {
    if a != h { AboveInRange(topo, a, topo[h].born.value); }
  }

  // ----- destruction -----

  /** A pending poisoning still holds its pin, and a pending destructor of a child its reservation. */
  lemma {:induction false} PendingHolds(topo: Topology, fs: Thread, h: nat)
    requires ThreadOk(topo, fs) || Tail(topo, fs)
    ensures Deferred(topo, fs, PoisonTok(h)) > 0 ==> h < |topo| && Deferred(topo, fs, PinTok(h)) > 0
    ensures Deferred(topo, fs, FreeTok(h)) > 0 && h < |topo| && topo[h].kind.Child? && topo[h].born.Some? ==>
              Deferred(topo, fs, ResTok(topo[h].born.value)) > 0
  {
    if fs != [] {
      PendingHolds(topo, fs[1..], h);
      NoStrayTokens(topo, fs[0], PoisonTok(h));
      NoStrayTokens(topo, fs[0], FreeTok(h));
    }
  }

  lemma NoStrayTokens(topo: Topology, f: Frame, k: Token)
    ensures k.PoisonTok? && FrameTokens(topo, f, k) > 0 ==> f.Poison? && f.h == k.h
    ensures k.FreeTok? && FrameTokens(topo, f, k) > 0 ==> f == Free(k.h)
  {
    if f.Native? || f.Unpin? { ChainPins(topo, f.h, k); }
  }

  lemma HeldPending(z: State, h: nat, k: Token)
    requires Inv(z) && (k == PoisonTok(h) || k == FreeTok(h)) && Threads(z.topo, z.ts, k) > 0
    ensures k.PoisonTok? ==> h < |z.hs| && Threads(z.topo, z.ts, PinTok(h)) > 0
    ensures k.FreeTok? && h < |z.hs| && z.topo[h].kind.Child? ==>
              Threads(z.topo, z.ts, ResTok(z.topo[h].born.value)) > 0
  {
    var t := ThreadWith(z.topo, z.ts, k);
    assert ThreadOk(z.topo, z.ts[t]);
    if z.ts[t][0].Pin? && z.ts[t][0].parent.Some? { ChainPins(z.topo, z.ts[t][0].parent.value, k); }
    PendingHolds(z.topo, z.ts[t], h);
    ThreadBelow(z.topo, z.ts, t, PinTok(h));
    if h < |z.hs| && z.topo[h].kind.Child? { ThreadBelow(z.topo, z.ts, t, ResTok(z.topo[h].born.value)); }
  }

  /** A native object is destroyed at most once, never after a poison, and only when the handle has been
      taken.  A handle that was taken unpoisoned has been destroyed, or its destructor is about to run. */
  lemma FreedOnce(z: State, h: nat)
    requires Reachable(z) && h < |z.hs|
    ensures |z.topo| == |z.hs|
    ensures z.freed[h] + Threads(z.topo, z.ts, FreeTok(h))
            == if Owned(z.topo[h].kind) && !z.hs[h].ptr && z.hs[h].poison.None? then 1 else 0
  {
    ReachableInv(z);
    HandlesKeepNo(z.topo, z.hs, FreeTok(h));
    assert Total(z, FreeTok(h)) == Due(z, FreeTok(h));
  }

  /** Release is prompt: a closed handle nobody is inside has been taken.  So once every thread is idle,
      a closed and unpoisoned handle that owns an object has had it destroyed, exactly once. */
  lemma ClosedIsFreed(z: State, h: nat)
    requires Reachable(z) && h < |z.hs| && z.hs[h].closed
    ensures |z.topo| == |z.hs|
    ensures z.hs[h].active == 0 ==> !z.hs[h].ptr
    ensures (forall t | 0 <= t < |z.ts| :: z.ts[t] == []) && Owned(z.topo[h].kind) && z.hs[h].poison.None? ==>
              z.freed[h] == 1
  {
    ReachableInv(z);
    assert HandleOk(z.topo[h], z.hs[h]);
    if forall t | 0 <= t < |z.ts| :: z.ts[t] == [] {
      CountersExact(z, h);
      FreedOnce(z, h);
      IdleThreads(z.topo, z.ts, PinTok(h));
      IdleThreads(z.topo, z.ts, FreeTok(h));
    }
  }

  /** An owning parent is never destroyed, nor about to be, before the native object of a child is: not
      while the child is open, not while its destructor is pending, and not when a panic made it leak. */
  lemma ParentOutlivesChild(z: State, c: nat)
    requires Reachable(z) && c < |z.hs| == |z.topo| && z.topo[c].kind.Child? && z.freed[c] == 0
    ensures z.topo[c].born.Some? && z.topo[c].born.value < c
    ensures z.freed[z.topo[c].born.value] == 0 && Threads(z.topo, z.ts, FreeTok(z.topo[c].born.value)) == 0
  {
    ReachableInv(z);
    var p := z.topo[c].born.value;
    FreedOnce(z, c);
    FreedOnce(z, p);
    CountersExact(z, p);
    assert HandleOk(z.topo[p], z.hs[p]);
    if z.hs[c].ptr {
      assert HandleOk(z.topo[c], z.hs[c]);
      assert c in OpenChildren(z.topo, z.hs, p);
    } else if z.hs[c].poison.None? {
      HeldPending(z, c, FreeTok(c));
    } else {
      assert PoisonClimbs(z, c);
      if z.hs[p].poison.None? {
        HeldPending(z, p, PoisonTok(p));
        PinnedUnfreed(z, p);
      }
    }
  }

  // ----- poison -----

  /** One section may change one thread and one handle, add a handle, and neither replace the cause of a
      poison nor add a pin to a poisoned handle, nor open what is closed nor give back what was taken, nor add
      a poisoned handle. */
  predicate Modest(s: State, z: State, t: nat) {
    && t < |s.ts| == |z.ts| && z.ts == s.ts[t := z.ts[t]]
    && |s.topo| == |s.hs| <= |z.hs| == |z.topo| && z.topo[..|s.topo|] == s.topo && |z.topo| <= |s.topo| + 1
    && (|s.hs| < |z.hs| ==> z.hs[|s.hs|].poison.None?)
    && (forall h | 0 <= h < |s.hs| :: s.hs[h].poison.Some? ==>
          z.hs[h].poison == s.hs[h].poison && z.hs[h].active <= s.hs[h].active)
    && forall h | 0 <= h < |s.hs| :: (s.hs[h].closed ==> z.hs[h].closed) && (z.hs[h].ptr ==> s.hs[h].ptr)
  }

  lemma PinModest(s: State, t: nat)
    requires |s.topo| == |s.hs| && Ready(s, t) && s.ts[t][0].Pin? && s.ts[t][0].h < |s.hs|
    ensures Modest(s, RunPin(s, t), t)
  {}

  lemma ReadLinkModest(s: State, t: nat)
    requires |s.topo| == |s.hs| && Ready(s, t) && s.ts[t][0].ReadLink? && s.ts[t][0].h < |s.hs|
    ensures Modest(s, RunReadLink(s, t), t)
  {}

  lemma NativeModest(s: State, t: nat, outcome: Outcome)
    requires |s.topo| == |s.hs| && Ready(s, t) && s.ts[t][0].Native?
    ensures Modest(s, RunNative(s, t, outcome), t)
  {}

  lemma UnpinModest(s: State, t: nat)
    requires |s.topo| == |s.hs| && Ready(s, t) && s.ts[t][0].Unpin? && s.ts[t][0].h < |s.hs|
    ensures Modest(s, RunUnpin(s, t), t)
  {}

  lemma CloseModest(s: State, t: nat)
    requires |s.topo| == |s.hs| && Ready(s, t) && s.ts[t][0].Close? && s.ts[t][0].h < |s.hs|
    ensures Modest(s, RunClose(s, t), t)
  {}

  lemma BuildModest(s: State, t: nat, outcome: Outcome)
    requires |s.topo| == |s.hs| && Ready(s, t) && s.ts[t][0].Build?
    ensures Modest(s, RunBuild(s, t, outcome), t)
  {}

  lemma SwapModest(s: State, t: nat)
    requires |s.topo| == |s.hs| && Ready(s, t) && s.ts[t][0].Swap? && s.ts[t][0].h < |s.hs|
    ensures Modest(s, RunSwap(s, t), t)
  {}

  lemma PoisonModest(s: State, t: nat)
    requires |s.topo| == |s.hs| && Ready(s, t) && s.ts[t][0].Poison? && s.ts[t][0].h < |s.hs|
    ensures Modest(s, RunPoison(s, t), t)
  {}

  lemma PopModest(s: State, t: nat, outcome: Outcome)
    requires Enabled(s, Run(t, outcome)) && (s.ts[t][0].Free? || s.ts[t][0].Drop? || s.ts[t][0].Delete?)
    ensures Modest(s, Next(s, Run(t, outcome)), t)
  {}

  lemma NextModest(s: State, e: Event)
    requires Enabled(s, e) && !e.Create?
    ensures Modest(s, Next(s, e), e.t)
  {
    match e
    case Start(t, op) => assert Modest(s, StartOp(s, t, op), t);
    case Collect(t, h) => assert Modest(s, RunCollect(s, t, h), t);
    case Run(t, outcome) =>
      match s.ts[t][0]
      case ReadLink(_, _) => ReadLinkModest(s, t);
      case Pin(_, _, _, _) => PinModest(s, t);
      case Native(_, _, _, _) => NativeModest(s, t, outcome);
      case Unpin(_) => UnpinModest(s, t);
      case Close(_) => CloseModest(s, t);
      case Build(_) => BuildModest(s, t, outcome);
      case Swap(_, _) => SwapModest(s, t);
      case Poison(_, _) => PoisonModest(s, t);
      case _ => PopModest(s, t, outcome);
  }

  /** The cause of a poison is never replaced. */
  lemma PoisonSticks(s: State, e: Event, h: nat)
    requires Enabled(s, e) && h < |s.hs| && s.hs[h].poison.Some?
    ensures h < |Next(s, e).hs| && Next(s, e).hs[h].poison == s.hs[h].poison
  {
    if !e.Create? { NextModest(s, e); }
  }

  ghost predicate PoisonPending(z: State, p: nat) { Threads(z.topo, z.ts, PoisonTok(p)) > 0 }

  ghost predicate PoisonedOrPending(z: State, h: nat) {
    (h < |z.hs| && z.hs[h].poison.Some?) || PoisonPending(z, h)
  }

  /** Whoever pins a handle pins every ancestor. */
  lemma {:induction false} PinsReachUp(z: State, h: nat, a: nat)
    requires Inv(z) && h < |z.hs| && Threads(z.topo, z.ts, PinTok(h)) > 0 && Above(z.topo, a, h)
    ensures a < |z.hs| && Threads(z.topo, z.ts, PinTok(a)) > 0
  {
    if a != h {
      var t := ThreadWith(z.topo, z.ts, PinTok(h));
      var fs, p := z.ts[t], z.topo[h].born.value;
      if Deferred(z.topo, fs, PinTok(h)) > 0 {
        DeferredUpward(z.topo, fs, h);
      } else {
        ChainUpward(z.topo, fs[0].parent.value, h);
      }
      ThreadBelow(z.topo, z.ts, t, PinTok(p));
      PinsReachUp(z, p, a);
    }
  }

  /** Poison is closed upward: above a handle that is poisoned or about to be, every ancestor keeps its
      native object for good, and is poisoned itself unless a poisoning is still climbing towards it. */
  lemma {:induction false} PoisonReachesUp(z: State, h: nat, a: nat)
    requires Inv(z) && PoisonedOrPending(z, h) && Above(z.topo, a, h)
    ensures a < |z.hs| && z.freed[a] == 0
    ensures z.hs[a].poison.Some? || exists p :: Above(z.topo, p, h) && Above(z.topo, a, p) && PoisonPending(z, p)
  {
    if PoisonPending(z, h) {
      HeldPending(z, h, PoisonTok(h));
      PinsReachUp(z, h, a);
      PinnedUnfreed(z, a);
      assert Above(z.topo, h, h);
    } else if a == h {
      assert Total(z, FreeTok(h)) == Due(z, FreeTok(h));
    } else {
      assert PoisonClimbs(z, h);
      var q := z.topo[h].born.value;
      PoisonReachesUp(z, q, a);
      if z.hs[a].poison.None? {
        var p :| Above(z.topo, p, q) && Above(z.topo, a, p) && PoisonPending(z, p);
        AboveInRange(z.topo, p, q);
        assert Above(z.topo, p, h);
      }
    }
  }

  lemma {:induction false} PoisoningLasts(s: State, es: seq<Event>, z: State, h: nat)
    requires Inv(s) && Path(s, es, z) && PoisonedOrPending(s, h)
    ensures PoisonedOrPending(z, h)
    decreases |es|
  {
    if es != [] {
      NextKeeps(s, es[0]);
      if h < |s.hs| && s.hs[h].poison.Some? { PoisonSticks(s, es[0], h); }
      PoisoningLasts(Next(s, es[0]), es[1..], z, h);
    }
  }

  /** The handles a call poisons when it ends in a native panic: its own, and the receiver of a merge. */
  predicate Reached(f: Frame, h: nat)
    requires f.Native?
  {
    h == f.h || (f.shape.Merged? && h == f.shape.receiver)
  }

  /** A call that ends in a native panic poisons every handle it reached and every ancestor of those.  Over
      every continuation of the run none of their native objects is destroyed, and once no poisoning is
      under way each of them is poisoned. */
  lemma PanicPoisonsUpward(s: State, t: nat, cause: Cause, es: seq<Event>, z: State, h: nat, a: nat)
    requires Reachable(s) && Ready(s, t) && s.ts[t][0].Native? && Reached(s.ts[t][0], h) && Above(s.topo, a, h)
    requires Enabled(s, Run(t, Panicked(cause))) && Path(Next(s, Run(t, Panicked(cause))), es, z)
    ensures a < |z.hs| && z.freed[a] == 0
    ensures (forall p :: !PoisonPending(z, p)) ==> z.hs[a].poison.Some?
  {
    ReachableInv(s);
    var e := Run(t, Panicked(cause));
    var y := Next(s, e);
    assert ThreadOk(s.topo, s.ts[t]);
    NextKeeps(s, e);
    NextModest(s, e);
    PoisonHeldAfterPanic(s, e, h);
    AboveStays(s.topo, y.topo, a, h);
    PoisoningLasts(y, es, z, h);
    PathKeeps(y, es, z);
    TopologyLasts(y, es, z);
    AboveStays(y.topo, z.topo, a, h);
    PoisonReachesUp(z, h, a);
  }

  lemma PoisonHeldAfterPanic(s: State, e: Event, h: nat)
    requires Inv(s) && Enabled(s, e) && e.Run? && e.outcome.Panicked? && s.ts[e.t][0].Native? && Reached(s.ts[e.t][0], h)
    ensures h < |s.topo| && PoisonPending(Next(s, e), h)
  {
    var f, z := s.ts[e.t][0], Next(s, e);
    assert ThreadOk(s.topo, s.ts[e.t]);
    PanicFrames(s.topo, f, s.ts[e.t][1..], e.outcome, h);
    assert z.topo == s.topo && z.ts[e.t] == AfterNative(f.h, f.shape, f.res, f.cb, e.outcome) + s.ts[e.t][1..];
    ThreadBelow(z.topo, z.ts, e.t, PoisonTok(h));
  }

  lemma PanicFrames(topo: Topology, f: Frame, rest: Thread, outcome: Outcome, h: nat)
    requires f.Native? && FrameOk(topo, f, rest, true) && Tail(topo, rest) && outcome.Panicked? && Reached(f, h)
    ensures h < |topo|
    ensures Deferred(topo, AfterNative(f.h, f.shape, f.res, f.cb, outcome) + rest, PoisonTok(h)) > 0
  {
    AfterNativeOk(topo, f, rest, outcome);
  }

  lemma {:induction false} AboveStays(topo: Topology, longer: Topology, a: nat, h: nat)
    requires h < |topo| <= |longer| && longer[..|topo|] == topo && Above(topo, a, h)
    ensures Above(longer, a, h)
  {
    assert longer[h] == topo[h];
    if a != h { AboveStays(topo, longer, a, topo[h].born.value); }
  }

  lemma {:induction false} TopologyLasts(s: State, es: seq<Event>, z: State)
    requires |s.topo| == |s.hs| && Path(s, es, z)
    ensures |s.topo| <= |z.topo| == |z.hs| && z.topo[..|s.topo|] == s.topo
    decreases |es|
  {
    if es != [] {
      var y := Next(s, es[0]);
      if !es[0].Create? { NextModest(s, es[0]); }
      TopologyLasts(y, es[1..], z);
      assert z.topo[..|s.topo|] == z.topo[..|y.topo|][..|s.topo|];
    }
  }

  /** The thread an event runs. */
  predicate Runs(e: Event, t: nat) { !e.Create? && e.t == t }

  lemma HeldAfter(s: State, e: Event, u: nat, k: Token)
    requires Inv(s) && Enabled(s, e) && u < |s.ts|
    ensures |Next(s, e).ts| == |s.ts|
    ensures Held(Next(s, e).topo, s.ts[u], k) == Held(s.topo, s.ts[u], k)
    ensures Threads(Next(s, e).topo, s.ts, k) == Threads(s.topo, s.ts, k)
  {
    var z := Next(s, e);
    if !e.Create? { NextModest(s, e); }
    if z.topo != s.topo {
      assert z.topo == s.topo + [z.topo[|s.topo|]];
      assert ThreadOk(s.topo, s.ts[u]);
      ThreadAppend(s.topo, z.topo[|s.topo|], s.ts[u]);
      ThreadsAppend(s.topo, z.topo[|s.topo|], s.ts, k);
    }
  }

  // ----- callback handles -----

  /** Every callback handle ever made is in exactly one place: a slot of one queue, one call in progress,
      one pending deletion, deleted, or abandoned by a constructor that rethrew a callback panic. */
  lemma CallbacksAreLinear(z: State, cb: nat)
    requires Reachable(z)
    ensures |z.topo| == |z.hs|
    ensures Threads(z.topo, z.ts, CbTok(cb)) + Handles(z.topo, z.hs, CbTok(cb)) + z.deleted[cb] + z.abandoned[cb]
            == if 0 < cb <= z.made then 1 else 0
  {
    ReachableInv(z);
    assert Total(z, CbTok(cb)) == Due(z, CbTok(cb));
  }

  lemma {:induction false} TakenKeepNo(topo: Topology, hs: seq<Handle>, k: Token)
    requires |topo| == |hs| && k.CbTok? && forall i | 0 <= i < |hs| :: HandleOk(topo[i], hs[i])
    requires forall i | 0 <= i < |hs| :: topo[i].kind.Queue? ==> !hs[i].ptr
    ensures Handles(topo, hs, k) == 0
  {
    if hs != [] {
      var n := |hs| - 1;
      assert HandleOk(topo[n], hs[n]);
      assert forall i | 0 <= i < n :: topo[..n][i] == topo[i] && hs[..n][i] == hs[i];
      TakenKeepNo(topo[..n], hs[..n], k);
    }
  }

  /** Once every thread is idle and every queue closed, no callback handle is left but abandoned ones. */
  lemma CallbacksAreReleased(z: State, cb: nat)
    requires Reachable(z) && (forall t | 0 <= t < |z.ts| :: z.ts[t] == []) && 0 < cb <= z.made
    requires |z.topo| == |z.hs| && forall i | 0 <= i < |z.hs| :: z.topo[i].kind.Queue? ==> z.hs[i].closed
    ensures z.deleted[cb] + z.abandoned[cb] == 1
  {
    ReachableInv(z);
    forall i | 0 <= i < |z.hs| && z.topo[i].kind.Queue? ensures !z.hs[i].ptr {
      ClosedIsFreed(z, i);
      CountersExact(z, i);
      IdleThreads(z.topo, z.ts, PinTok(i));
    }
    TakenKeepNo(z.topo, z.hs, CbTok(cb));
    IdleThreads(z.topo, z.ts, CbTok(cb));
    CallbacksAreLinear(z, cb);
  }
}
