/** From the call to the native code and back: what an operation that a thread has started may have on the
    thread, over every run and whatever callbacks start on top of it. */
module Operations {
  import opened Wrappers
  import opened Sections
  import opened Protocol
  import opened Tokens
  import opened ProtocolInvariant
  import opened ProtocolSteps
  import opened ProtocolBirths
  import opened ProtocolTheorems
  import opened WaitFreedom

  // ----- the stages of an operation -----

  predicate Acquires(f: Frame) { f.ReadLink? || f.Pin? }

  /** The frames of acquires return to frames of their own. */
  predicate Whole(fs: Thread) {
    fs != [] ==>
      && Whole(fs[1..])
      && (Acquires(fs[0]) ==> |fs| > 1 && (fs[1].Pin? || fs[1].Want?))
  }

  /** Acquires, any number of them, that return to w in the end. */
  predicate Acquiring(p: Thread, w: Frame) {
    |p| > 1 && p[|p| - 1] == w && Acquires(p[0]) && forall i | 0 < i < |p| - 1 :: p[i].Pin?
  }

  /** The frames of a call in progress below those of its callbacks. */
  predicate Bottom(h: nat, shape: Shape, b: Thread) {
    match shape
    case Merge(source) =>
      |b| == 2 && b[0].Native? && b[0].h == source && b[0].shape == Merged(h) && b[1] == Unpin(h)
    case _ => |b| == 1 && b[0].Native? && b[0].h == h && b[0].shape == shape
  }

  function BottomSize(shape: Shape): nat { if shape.Merge? then 2 else 1 }

  /** The native call of the operation is in progress. */
  predicate Calling(h: nat, shape: Shape, p: Thread) {
    var n := BottomSize(shape);
    |p| >= n && Bottom(h, shape, p[|p| - n..]) && Whole(p[..|p| - n])
  }

  predicate Leaves(f: Frame) { f.Poison? || f.Unpin? || f.Free? || f.Drop? || f.Delete? }

  predicate Leaving(p: Thread) { forall f | f in p :: Leaves(f) }

  /** An observer has been set, and its handle is about to be put in its slot. */
  predicate Installing(h: nat, p: Thread) { |p| == 2 && p[0].Swap? && p[0].h == h && p[1] == Unpin(h) }

  /** The acquire of a merge's source, with the receiver pinned. */
  predicate AcquiringSource(h: nat, source: nat, p: Thread) {
    |p| > 2 && p[|p| - 1] == Unpin(h) && Acquiring(p[..|p| - 1], Want(source, Merged(h)))
  }

  predicate Entering(h: nat, shape: Shape, p: Thread) {
    Acquiring(p, Want(h, shape)) || (shape.Merge? && AcquiringSource(h, shape.source, p))
  }

  predicate Course(h: nat, shape: Shape, p: Thread) {
    Entering(h, shape, p) || Calling(h, shape, p) || (shape.Observe? && Installing(h, p)) || Leaving(p)
  }

  // ----- frames above others -----

  lemma {:induction false} WholeJoin(a: Thread, b: Thread)
    requires Whole(a) && Whole(b)
    ensures Whole(a + b)
  {
    if a == [] {
      assert a + b == b;
    } else {
      assert (a + b)[1..] == a[1..] + b;
      WholeJoin(a[1..], b);
    }
  }

  lemma {:induction false} LeavingWhole(p: Thread)
    requires forall f | f in p :: !Acquires(f)
    ensures Whole(p)
  {
    if p != [] { LeavingWhole(p[1..]); }
  }

  lemma {:induction false} AbortAbove(rest: Thread, low: Thread)
    requires rest != [] && (rest[0].Pin? || rest[0].Want?) && Whole(rest)
    ensures Abort(rest + low) == Abort(rest) + low && Whole(Abort(rest))
  {
    assert (rest + low)[1..] == rest[1..] + low;
    if rest[0].Pin? { AbortAbove(rest[1..], low); }
  }

  lemma ConsAbove<T>(x: T, rest: seq<T>, low: seq<T>)
    ensures [x] + (rest + low) == ([x] + rest) + low
  {}

  lemma WholeCons(f: Frame, rest: Thread, low: Thread)
    requires Whole(rest) && (Acquires(f) ==> rest != [] && (rest[0].Pin? || rest[0].Want?))
    ensures Whole([f] + rest) && [f] + (rest + low) == ([f] + rest) + low
  {
    assert ([f] + rest)[1..] == rest && ([f] + rest)[0] == f;
    ConsAbove(f, rest, low);
  }

  lemma MergeAbove(topo: Topology, h: nat, source: nat, rest: Thread, low: Thread)
    requires Whole(rest) && source < |topo|
    ensures var acq := [Enter(topo, source, false), Want(source, Merged(h)), Unpin(h)];
            Whole(acq + rest) && acq + (rest + low) == (acq + rest) + low
  {
    var e, want := Enter(topo, source, false), Want(source, Merged(h));
    WholeCons(Unpin(h), rest, low);
    WholeCons(want, [Unpin(h)] + rest, low);
    WholeCons(e, [want] + ([Unpin(h)] + rest), low);
    assert [e, want, Unpin(h)] + rest == [e] + ([want] + ([Unpin(h)] + rest));
  }

  lemma WantAbove(topo: Topology, h: nat, shape: Shape, more: Thread, low: Thread, res: Option<nat>, next: nat)
    requires Whole(more)
    ensures Handoff(topo, [Want(h, shape)] + (more + low), res, next)
            == Handoff(topo, [Want(h, shape)] + more, res, next) + low
    ensures Whole(Handoff(topo, [Want(h, shape)] + more, res, next))
  {
    assert ([Want(h, shape)] + (more + low))[1..] == more + low && ([Want(h, shape)] + more)[1..] == more;
    match shape
    case Merge(source) =>
      if source < |topo| { MergeAbove(topo, h, source, more, low); } else { WholeCons(Unpin(h), more, low); }
    case _ => WholeCons(Native(h, shape, res, if TakesCallback(shape) then next else 0), more, low);
  }

  lemma HandoffAbove(topo: Topology, rest: Thread, low: Thread, res: Option<nat>, next: nat)
    requires rest != [] && (rest[0].Pin? || rest[0].Want?) && Whole(rest)
    ensures Handoff(topo, rest + low, res, next) == Handoff(topo, rest, res, next) + low
    ensures Whole(Handoff(topo, rest, res, next)) && HandoffMakes(rest + low) == HandoffMakes(rest)
  {
    var f, more := rest[0], rest[1..];
    assert rest == [f] + more && (rest + low)[1..] == more + low;
    ConsAbove(f, more, low);
    if f.Want? {
      WantAbove(topo, f.h, f.shape, more, low, res, next);
    } else {
      PinWaitAbove(topo, f, more, low, res, next);
    }
  }

  lemma PinWaitAbove(topo: Topology, f: Frame, more: Thread, low: Thread, res: Option<nat>, next: nat)
    requires f.Pin? && Whole([f] + more)
    ensures Handoff(topo, [f] + (more + low), res, next) == Handoff(topo, [f] + more, res, next) + low
    ensures Whole(Handoff(topo, [f] + more, res, next))
  {
    assert ([f] + (more + low))[1..] == more + low && ([f] + more)[1..] == more && ([f] + more)[0] == f;
    WholeCons(Pin(f.h, f.parent, f.reserve, res), more, low);
  }

  lemma {:induction false} DeletesLeave(slots: seq<nat>)
    ensures Leaving(DeleteFrames(slots))
  {
    if slots != [] { DeletesLeave(slots[1..]); }
  }

  lemma CleanupLeaves(h: nat, taken: Taken)
    ensures Leaving(Cleanup(h, taken))
  {
    if taken.Taken? { DeletesLeave(taken.slots); }
  }

  /** Frames that only leave, in front of whole ones. */
  lemma LeavingAbove(x: Thread, rest: Thread, low: Thread)
    requires (forall f | f in x :: !Acquires(f)) && Whole(rest)
    ensures Whole(x + rest) && x + (rest + low) == (x + rest) + low
  {
    LeavingWhole(x);
    WholeJoin(x, rest);
  }

  lemma LinkAbove(s: State, t: nat, p: Thread, low: Thread) returns (q: Thread)
    requires Ready(s, t) && s.ts[t] == p + low && p != [] && Whole(p) && p[0].ReadLink? && p[0].h < |s.hs|
    ensures RunReadLink(s, t).ts[t] == q + low && Whole(q)
  {
    var h, reserve, rest := p[0].h, p[0].reserve, p[1..];
    assert s.ts[t][1..] == rest + low;
    match s.hs[h].link
    case None =>
      q := [Pin(h, None, reserve, None)] + rest;
      WholeCons(Pin(h, None, reserve, None), rest, low);
    case Some(parent) =>
      if parent >= |s.topo| || (reserve && !CanReserve(s.topo[parent].kind)) {
        AbortAbove(rest, low);
        q := Abort(rest);
      } else {
        q := CaptureAbove(Enter(s.topo, parent, reserve), Pin(h, Some(parent), reserve, None), rest, low);
      }
  }

  lemma CaptureAbove(e: Frame, pin: Frame, rest: Thread, low: Thread) returns (q: Thread)
    requires Acquires(e) && pin.Pin? && rest != [] && (rest[0].Pin? || rest[0].Want?) && Whole(rest)
    ensures q == [e, pin] + rest && [e, pin] + (rest + low) == q + low && Whole(q)
  {
    q := [e, pin] + rest;
    WholeCons(pin, rest, low);
    WholeCons(e, [pin] + rest, low);
    assert q == [e] + ([pin] + rest);
    Above3([e, pin], rest, low);
  }

  lemma PinAbove(s: State, t: nat, p: Thread, low: Thread) returns (q: Thread)
    requires Ready(s, t) && s.ts[t] == p + low && p != [] && Whole(p) && p[0].Pin? && p[0].h < |s.hs|
    ensures RunPin(s, t).ts[t] == q + low && Whole(q)
  {
    var f, rest := p[0], p[1..];
    assert s.ts[t][1..] == rest + low;
    if Refused(s.hs[f.h]).Some? {
      AbortAbove(rest, low);
      var back := UnpinFrames(f.parent) + DropFrames(f.res);
      LeavingAbove(back, Abort(rest), low);
      q := back + Abort(rest);
    } else {
      var res := if f.reserve && f.parent.None? then Some(f.h) else f.res;
      HandoffAbove(s.topo, rest, low, res, s.made + 1);
      q := Handoff(s.topo, rest, res, s.made + 1);
    }
  }

  lemma AfterNativeLeaves(h: nat, shape: Shape, res: Option<nat>, cb: nat, outcome: Outcome)
    ensures forall f | f in AfterNative(h, shape, res, cb, outcome) :: !Acquires(f)
  {}

  /** What a section that acquires nothing puts in the place of its frame. */
  function Remains(s: State, f: Frame, outcome: Outcome): Thread
    requires |s.topo| == |s.hs| && (Targeted(f) ==> f.h < |s.hs|)
  {
    match f
    case Native(h, shape, res, cb) => AfterNative(h, shape, res, cb, outcome)
    case Build(cb) => if outcome.Returned? || outcome.Rethrown? then [] else [Delete(cb)]
    case Swap(h, _) => if |s.hs[h].slots| <= 2 then [] else DeleteFrames([s.hs[h].slots[2]])
    case Poison(h, cause) => if s.hs[h].link.Some? then [Poison(s.hs[h].link.value, cause)] else []
    case Unpin(h) => Cleanup(h, Unpinned(s.topo[h].kind, s.hs[h]).1) + UnpinFrames(s.hs[h].link)
    case Close(h) => Cleanup(h, Closed(s.topo[h].kind, s.hs[h]).1)
    case _ => []
  }

  lemma RemainsRuns(s: State, t: nat, outcome: Outcome)
    requires Enabled(s, Run(t, outcome)) && !Acquires(s.ts[t][0])
    ensures Next(s, Run(t, outcome)).ts[t] == Remains(s, s.ts[t][0], outcome) + s.ts[t][1..]
  {
    var f := s.ts[t][0];
    assert [] + s.ts[t][1..] == s.ts[t][1..];
    if f.Native? {
      NativeRuns(s, t, outcome);
    } else if f.Unpin? || f.Close? {
      ReleaseRuns(s, t, outcome);
    }
  }

  lemma NativeRuns(s: State, t: nat, outcome: Outcome)
    requires Enabled(s, Run(t, outcome)) && s.ts[t][0].Native?
    ensures Next(s, Run(t, outcome)).ts[t] == Remains(s, s.ts[t][0], outcome) + s.ts[t][1..]
  {}

  lemma ReleaseRuns(s: State, t: nat, outcome: Outcome)
    requires Enabled(s, Run(t, outcome)) && (s.ts[t][0].Unpin? || s.ts[t][0].Close?)
    ensures Next(s, Run(t, outcome)).ts[t] == Remains(s, s.ts[t][0], outcome) + s.ts[t][1..]
  {}

  lemma RemainsLeave(s: State, f: Frame, outcome: Outcome)
    requires |s.topo| == |s.hs| && (Targeted(f) ==> f.h < |s.hs|)
    ensures forall g | g in Remains(s, f, outcome) :: !Acquires(g)
    ensures !f.Native? ==> Leaving(Remains(s, f, outcome))
  {
    match f
    case Native(h, shape, res, cb) => AfterNativeLeaves(h, shape, res, cb, outcome);
    case Swap(h, _) => if |s.hs[h].slots| > 2 { DeletesLeave([s.hs[h].slots[2]]); }
    case Unpin(h) => CleanupLeaves(h, Unpinned(s.topo[h].kind, s.hs[h]).1);
    case Close(h) => CleanupLeaves(h, Closed(s.topo[h].kind, s.hs[h]).1);
    case _ =>
  }

  /** Whatever frames a thread has below, its section does the same to those above. */
  lemma RunAbove(s: State, t: nat, p: Thread, low: Thread, outcome: Outcome) returns (q: Thread)
    requires Enabled(s, Run(t, outcome)) && s.ts[t] == p + low && p != [] && Whole(p)
    ensures Next(s, Run(t, outcome)).ts[t] == q + low && Whole(q)
  {
    var f, rest := p[0], p[1..];
    assert s.ts[t][1..] == rest + low && f == s.ts[t][0];
    if f.ReadLink? {
      q := LinkAbove(s, t, p, low);
    } else if f.Pin? {
      q := PinAbove(s, t, p, low);
    } else {
      RemainsRuns(s, t, outcome);
      RemainsLeave(s, f, outcome);
      LeavingAbove(Remains(s, f, outcome), rest, low);
      q := Remains(s, f, outcome) + rest;
    }
  }

  // ----- acquires -----

  /** How a section of an acquire may leave the operation: still acquiring, on its way back, or admitted. */
  datatype Way = On | Back | In(res: Option<nat>)

  lemma {:induction false} AbortAll(p: Thread, w: Frame, below: Thread)
    requires p != [] && w.Want? && p[|p| - 1] == w && forall i | 0 <= i < |p| - 1 :: p[i].Pin?
    ensures Abort(p + below) == below
  {
    assert (p + below)[1..] == p[1..] + below;
    if |p| > 1 { AbortAll(p[1..], w, below); } else { assert [] + below == below; }
  }

  lemma LinkWay(s: State, t: nat, p: Thread, w: Frame, below: Thread) returns (q: Thread, way: Way)
    requires Ready(s, t) && s.ts[t] == p + below && Acquiring(p, w) && w.Want? && p[0].ReadLink? && p[0].h < |s.hs|
    ensures RunReadLink(s, t).ts[t] == q + below && !way.In?
    ensures if way.On? then Acquiring(q, w) else q == []
    ensures way.Back? ==> s.hs[p[0].h].link.Some? && var up := s.hs[p[0].h].link.value;
                          up >= |s.topo| || (p[0].reserve && !CanReserve(s.topo[up].kind))
  {
    var h, reserve, rest := p[0].h, p[0].reserve, p[1..];
    assert s.ts[t][1..] == rest + below;
    match s.hs[h].link {
      case None =>
        way, q := On, [Pin(h, None, reserve, None)] + rest;
        ConsAbove(Pin(h, None, reserve, None), rest, below);
      case Some(up) =>
        if up >= |s.topo| || (reserve && !CanReserve(s.topo[up].kind)) {
          AbortAll(rest, w, below);
          way, q := Back, [];
          assert [] + below == below;
        } else {
          way, q := On, [Enter(s.topo, up, reserve), Pin(h, Some(up), reserve, None)] + rest;
          assert q + below == [Enter(s.topo, up, reserve), Pin(h, Some(up), reserve, None)] + (rest + below);
        }
    }
  }

  lemma PinWay(s: State, t: nat, p: Thread, w: Frame, below: Thread) returns (q: Thread, way: Way)
    requires Ready(s, t) && s.ts[t] == p + below && Acquiring(p, w) && w.Want? && p[0].Pin? && p[0].h < |s.hs|
    ensures way.On? ==> RunPin(s, t).ts[t] == q + below && Acquiring(q, w)
    ensures way.Back? ==> RunPin(s, t).ts[t] == q + below && Leaving(q) && Refused(s.hs[p[0].h]).Some?
    ensures way.In? ==> |p| == 2 && RunPin(s, t).ts[t] == Handoff(s.topo, [w] + below, way.res, s.made + 1)
                        && way.res == if p[0].reserve && p[0].parent.None? then Some(p[0].h) else p[0].res
  {
    var f, rest := p[0], p[1..];
    assert s.ts[t][1..] == rest + below;
    if Refused(s.hs[f.h]).Some? {
      AbortAll(rest, w, below);
      way, q := Back, UnpinFrames(f.parent) + DropFrames(f.res);
    } else {
      var res := if f.reserve && f.parent.None? then Some(f.h) else f.res;
      if |p| == 2 {
        way, q := In(res), [];
        assert rest == [w];
      } else {
        var next := Pin(p[1].h, p[1].parent, p[1].reserve, res);
        way, q := On, [next] + p[2..];
        assert (rest + below)[1..] == p[2..] + below;
        ConsAbove(next, p[2..], below);
      }
    }
  }

  lemma {:induction false} AboveUp(topo: Topology, a: nat, b: nat, h: nat)
    requires Above(topo, b, h) && b < |topo| && topo[b].born == Some(a) && a < b
    ensures Above(topo, a, h)
  {
    if b != h { AboveUp(topo, a, b, topo[h].born.value); } else { assert Above(topo, a, a); }
  }

  /** Every acquire of a chain is of the handle the call waits for, or of one above it. */
  lemma {:induction false} AcquireAbove(topo: Topology, p: Thread, w: Frame, below: Thread, top: bool)
    requires TopoOk(topo) && Acquiring(p, w) && w.Want?
    requires FrameOk(topo, p[0], p[1..] + below, top) && Tail(topo, p[1..] + below)
    ensures p[0].h < |topo| && Above(topo, p[0].h, w.h) && (p[0].reserve <==> w.shape.NewChild?)
  {
    var rest := p[1..];
    assert (rest + below)[0] == rest[0];
    if |p| > 2 {
      assert (rest + below)[1..] == rest[1..] + below;
      AcquireAbove(topo, rest, w, below, false);
      AboveUp(topo, p[0].h, rest[0].h, w.h);
    }
  }

  /** h and every owner and parent above it is open, has its object and is not poisoned, and can keep a
      reservation when one is asked for. */
  ghost predicate Welcomes(s: State, h: nat, reserve: bool) {
    forall a: nat | Above(s.topo, a, h) ::
      && a < |s.hs| == |s.topo| && !s.hs[a].closed && s.hs[a].ptr && s.hs[a].poison.None?
      && (reserve ==> s.topo[a].kind.Queue? || s.topo[a].kind.Box? || s.topo[a].kind.View?)
  }

  lemma AcquireRuns(s: State, t: nat, p: Thread, w: Frame, below: Thread, outcome: Outcome)
      returns (q: Thread, way: Way)
    requires Inv(s) && Enabled(s, Run(t, outcome)) && s.ts[t] == p + below && Acquiring(p, w) && w.Want?
    ensures way.On? ==> Next(s, Run(t, outcome)).ts[t] == q + below && Acquiring(q, w)
    ensures way.Back? ==> Next(s, Run(t, outcome)).ts[t] == q + below && Leaving(q)
    ensures way.In? ==> Next(s, Run(t, outcome)).ts[t] == Handoff(s.topo, [w] + below, way.res, s.made + 1)
    ensures Welcomes(s, w.h, w.shape.NewChild?) ==> !way.Back?
  {
    assert ThreadOk(s.topo, s.ts[t]) && s.ts[t][1..] == p[1..] + below;
    AcquireAbove(s.topo, p, w, below, true);
    var h := p[0].h;
    if p[0].ReadLink? {
      q, way := LinkWay(s, t, p, w, below);
      assert HandleOk(s.topo[h], s.hs[h]);
      if s.hs[h].link.Some? { AboveUp(s.topo, s.hs[h].link.value, h, w.h); }
    } else {
      q, way := PinWay(s, t, p, w, below);
    }
  }

  // ----- one step of an operation -----

  lemma FirstRuns(s: State, t: nat, h: nat, shape: Shape, p: Thread, low: Thread, outcome: Outcome)
      returns (q: Thread)
    requires Inv(s) && Enabled(s, Run(t, outcome)) && s.ts[t] == p + low && Acquiring(p, Want(h, shape))
    requires !shape.Merged? && (shape.Merge? ==> shape.source < |s.topo|)
    ensures Next(s, Run(t, outcome)).ts[t] == q + low && Course(h, shape, q)
    ensures Welcomes(s, h, shape.NewChild?) ==> Entering(h, shape, q) || Bottom(h, shape, q)
  {
    var w, way := Want(h, shape), On;
    q, way := AcquireRuns(s, t, p, w, low, outcome);
    if way.In? { q := FirstIn(s.topo, h, shape, way.res, s.made + 1, low); }
  }

  /** The handle is pinned: a merge goes on to its source, any other call gets in. */
  lemma FirstIn(topo: Topology, h: nat, shape: Shape, res: Option<nat>, next: nat, low: Thread) returns (q: Thread)
    requires !shape.Merged? && (shape.Merge? ==> shape.source < |topo|)
    ensures Handoff(topo, [Want(h, shape)] + low, res, next) == q + low
    ensures if shape.Merge? then AcquiringSource(h, shape.source, q) else Bottom(h, shape, q) && Calling(h, shape, q)
  {
    assert ([Want(h, shape)] + low)[1..] == low;
    if shape.Merge? {
      var acq := [Enter(topo, shape.source, false), Want(shape.source, Merged(h))];
      q := acq + [Unpin(h)];
      assert q[..|q| - 1] == acq && q == [Enter(topo, shape.source, false), Want(shape.source, Merged(h)), Unpin(h)];
    } else {
      q := [Native(h, shape, res, if TakesCallback(shape) then next else 0)];
      assert q[|q| - 1..] == q && q[..|q| - 1] == [];
    }
  }

  lemma SourceRuns(s: State, t: nat, h: nat, source: nat, p: Thread, low: Thread, outcome: Outcome)
      returns (q: Thread)
    requires Inv(s) && Enabled(s, Run(t, outcome)) && s.ts[t] == p + low && AcquiringSource(h, source, p)
    ensures Next(s, Run(t, outcome)).ts[t] == q + low && Course(h, Merge(source), q)
    ensures Welcomes(s, source, false) ==> AcquiringSource(h, source, q) || Bottom(h, Merge(source), q)
  {
    var p1, below, w := p[..|p| - 1], [Unpin(h)] + low, Want(source, Merged(h));
    assert p + low == p1 + below;
    var q1, way := AcquireRuns(s, t, p1, w, below, outcome);
    if way.In? { q := MergeIn(s.topo, h, source, way.res, s.made + 1, low); } else { q := MergeGoes(h, q1, low); }
  }

  /** The source is pinned too: the native call runs above the release of the receiver. */
  lemma MergeIn(topo: Topology, h: nat, source: nat, res: Option<nat>, next: nat, low: Thread) returns (q: Thread)
    ensures Handoff(topo, [Want(source, Merged(h))] + ([Unpin(h)] + low), res, next) == q + low
    ensures Bottom(h, Merge(source), q) && Calling(h, Merge(source), q)
  {
    var w, n := Want(source, Merged(h)), Native(source, Merged(h), res, 0);
    assert ([w] + ([Unpin(h)] + low))[1..] == [Unpin(h)] + low;
    q := [n, Unpin(h)];
    assert q[|q| - 2..] == q && q[..|q| - 2] == [];
    assert q + low == [n] + ([Unpin(h)] + low);
  }

  lemma MergeGoes(h: nat, q1: Thread, low: Thread) returns (q: Thread)
    ensures q == q1 + [Unpin(h)] && q + low == q1 + ([Unpin(h)] + low)
    ensures q[..|q| - 1] == q1 && q[|q| - 1] == Unpin(h) && (Leaving(q1) ==> Leaving(q))
  {
    q := q1 + [Unpin(h)];
  }

  lemma AfterNativeIs(h: nat, shape: Shape, res: Option<nat>, cb: nat, outcome: Outcome)
    ensures if shape.Observe? && outcome.Returned? then
              AfterNative(h, shape, res, cb, outcome) == [Swap(h, cb), Unpin(h)]
            else Leaving(AfterNative(h, shape, res, cb, outcome))
  {}

  lemma CallRuns(s: State, t: nat, h: nat, shape: Shape, p: Thread, low: Thread, outcome: Outcome)
      returns (q: Thread)
    requires Inv(s) && Enabled(s, Run(t, outcome)) && s.ts[t] == p + low && Calling(h, shape, p) && !shape.Merged?
    ensures Next(s, Run(t, outcome)).ts[t] == q + low && Course(h, shape, q)
  {
    var k := |p| - BottomSize(shape);
    var n, b := p[..k], p[k..];
    assert p == n + b;
    if n != [] {
      Above3(n, b, low);
      var m := RunAbove(s, t, n, b + low, outcome);
      q := CallGoesOn(h, shape, m, b, low);
    } else {
      assert n + b == b;
      q := ReturnRuns(s, t, h, shape, p, low, outcome);
    }
  }

  lemma Above3<T>(a: seq<T>, b: seq<T>, c: seq<T>)
    ensures (a + b) + c == a + (b + c)
  {}

  lemma CallGoesOn(h: nat, shape: Shape, m: Thread, b: Thread, low: Thread) returns (q: Thread)
    requires Bottom(h, shape, b) && Whole(m)
    ensures q == m + b && q + low == m + (b + low) && Calling(h, shape, q)
  {
    q := m + b;
    Above3(m, b, low);
    assert q[|m|..] == b && q[..|m|] == m;
  }

  /** The native call itself returns. */
  lemma ReturnRuns(s: State, t: nat, h: nat, shape: Shape, p: Thread, low: Thread, outcome: Outcome)
      returns (q: Thread)
    requires Enabled(s, Run(t, outcome)) && s.ts[t] == p + low && Bottom(h, shape, p) && !shape.Merged?
    ensures Next(s, Run(t, outcome)).ts[t] == q + low
    ensures q == AfterNative(p[0].h, p[0].shape, p[0].res, p[0].cb, outcome) + p[1..]
    ensures if shape.Observe? && outcome.Returned? then Installing(h, q) && q[0].cb == p[0].cb else Leaving(q)
  {
    var f := p[0];
    RemainsRuns(s, t, outcome);
    AfterNativeIs(f.h, f.shape, f.res, f.cb, outcome);
    q := AfterNative(f.h, f.shape, f.res, f.cb, outcome) + p[1..];
    assert s.ts[t][1..] == p[1..] + low;
    Above3(AfterNative(f.h, f.shape, f.res, f.cb, outcome), p[1..], low);
  }

  /** An observer's handle is put in the third slot, and the one that was there is to be deleted. */
  lemma InstallRuns(s: State, t: nat, h: nat, cb: nat, low: Thread, outcome: Outcome)
    requires Inv(s) && Enabled(s, Run(t, outcome)) && s.ts[t] == [Swap(h, cb), Unpin(h)] + low
    ensures h < |s.hs| && |s.hs[h].slots| == 3
    ensures var z := Next(s, Run(t, outcome));
            && z.hs == s.hs[h := s.hs[h].(slots := s.hs[h].slots[2 := cb])]
            && z.ts[t] == DeleteFrames([s.hs[h].slots[2]]) + ([Unpin(h)] + low)
  {
    assert ThreadOk(s.topo, s.ts[t]) && s.ts[t][1..] == [Unpin(h)] + low;
    assert Deferred(s.topo, s.ts[t][1..], PinTok(h)) > 0 by { DeferredCons(s.topo, Unpin(h), low); }
    PinnedIsPresent(s, t, h);
    assert HandleOk(s.topo[h], s.hs[h]);
  }

  lemma LeaveRuns(s: State, t: nat, p: Thread, low: Thread, outcome: Outcome) returns (q: Thread)
    requires Enabled(s, Run(t, outcome)) && s.ts[t] == p + low && p != [] && Leaving(p)
    ensures Next(s, Run(t, outcome)).ts[t] == q + low && Leaving(q)
  {
    assert p[0] in p && s.ts[t][1..] == p[1..] + low;
    RemainsRuns(s, t, outcome);
    RemainsLeave(s, p[0], outcome);
    q := Remains(s, p[0], outcome) + p[1..];
    assert q + low == Remains(s, p[0], outcome) + (p[1..] + low);
  }
}
