/** A session that closes real handles: the body of Session.Close runs on one thread of the handle protocol,
    while the other threads use everything but the children of its queue. */
module SessionRuns {
  import opened Wrappers
  import opened Sections
  import opened Protocol
  import opened Tokens
  import opened ProtocolInvariant
  import opened ProtocolTheorems
  import opened QuietThreads
  import opened WaitFreedom
  import Sessions

  /** `closer` is the thread that runs the body of Session.Close, and `refused` counts the Closes of a member or
      of the queue that returned an error to it.  In `s` the once is Finished from the call of the queue's
      Close on; it has returned once `closer` is idle again. */
  datatype World = World(queue: nat, closer: nat, p: State, s: Sessions.State, refused: nat)

  datatype Move =
    | Adopt(c: nat)
    | Late(u: nat, c: nat)      // AddStream, on thread u, closes a handle it was given too late
    | Begin
    | TakeAll
    | Turn                      // calls Close of the next member, or of the queue
    | Own(outcome: Outcome)     // a section of that Close
    | Other(e: Event)           // a step of another thread

  function Target(w: World): nat
    requires w.s.once.Closing?
  {
    if w.s.once.left == [] then w.queue else w.s.once.left[|w.s.once.left| - 1]
  }

  predicate Allowed(w: World, m: Move) {
    && w.closer < |w.p.ts|
    && match m
       case Adopt(c) => c < |w.p.topo| && w.p.topo[c].kind.Child?
       case Late(u, c) =>
         && c in w.s.late && u != w.closer && Off(w.p.topo, w.queue, c)
         && Enabled(w.p, Start(u, CloseHandle(c)))
       case Begin => w.s.once.Unstarted?
       case TakeAll => w.s.once.Started?
       case Turn => w.s.once.Closing? && w.p.ts[w.closer] == [] && Enabled(w.p, Start(w.closer, CloseHandle(Target(w))))
       case Own(outcome) => Enabled(w.p, Run(w.closer, outcome))
       case Other(e) => Enabled(w.p, e) && !Runs(e, w.closer) && QuietEvent(w.p.topo, w.queue, e)
  }

  /** The section that the closer runs next refuses the Close. */
  predicate Refuses(w: World) {
    && Ready(w.p, w.closer) && w.p.ts[w.closer][0].Close?
    && var h := w.p.ts[w.closer][0].h;
       h < |w.p.hs| == |w.p.topo| && CloseRefused(w.p.topo[h].kind, w.p.hs[h]).Some?
  }

  function After(w: World, m: Move): World
    requires Allowed(w, m)
  {
    match m
    case Adopt(c) => w.(s := Sessions.Next(w.s, Sessions.Adopt(c)))
    case Late(u, c) => w.(p := Next(w.p, Start(u, CloseHandle(c))), s := Sessions.Next(w.s, Sessions.CloseLate(c)))
    case Begin => w.(s := Sessions.Next(w.s, Sessions.Begin))
    case TakeAll => w.(s := Sessions.Next(w.s, Sessions.TakeAll))
    case Turn =>
      var step := if w.s.once.left == [] then Sessions.ClosePrimary else Sessions.CloseMember;
      w.(p := Next(w.p, Start(w.closer, CloseHandle(Target(w)))), s := Sessions.Next(w.s, step))
    case Own(outcome) =>
      w.(p := Next(w.p, Run(w.closer, outcome)), refused := w.refused + if Refuses(w) then 1 else 0)
    case Other(e) => w.(p := Next(w.p, e))
  }

  predicate Course(w: World, ms: seq<Move>, z: World)
    decreases |ms|
  {
    if ms == [] then w == z else Allowed(w, ms[0]) && Course(After(w, ms[0]), ms[1..], z)
  }

  // ----- what every move keeps -----

  /** The members whose Close has not been called. */
  function Left(s: Sessions.State): seq<nat> {
    match s.once
    case Closing(left) => left
    case Finished => []
    case _ => s.streams
  }

  predicate Tidying(fs: Thread) { forall f | f in fs :: f.Free? || f.Drop? || f.Delete? }

  /** The thread is about to run the Close section of h. */
  predicate Closes(w: World, h: nat) { w.closer < |w.p.ts| && w.p.ts[w.closer] == [Close(h)] }

  predicate MembersOk(w: World) { forall c | c in w.s.adopted :: c < |w.p.topo| && w.p.topo[c].kind.Child? }

  predicate CloserOk(w: World)
    requires w.queue < |w.p.hs|
  {
    && w.closer < |w.p.ts|
    && (Tidying(w.p.ts[w.closer])
        || (w.s.once.Finished? && Closes(w, w.queue))
        || (w.s.once.Closing? && exists c | c in w.s.adopted :: Closes(w, c)))
    && (w.s.once.Finished? ==> Closes(w, w.queue) || w.p.hs[w.queue].closed)
  }

  /** Every open child of the queue is still to be closed. */
  predicate Covered(w: World)
    requires |w.p.topo| == |w.p.hs|
  {
    forall c | c in OpenChildren(w.p.topo, w.p.hs, w.queue) :: c in Left(w.s) || Closes(w, c)
  }

  /** Every other member is closed. */
  predicate ClosedSoFar(w: World) {
    forall c | c in w.s.adopted && c < |w.p.hs| :: c in Left(w.s) || Closes(w, c) || w.p.hs[c].closed
  }

  predicate OnCourse(w: World)
    requires w.queue < |w.p.hs| == |w.p.topo|
  {
    MembersOk(w) && CloserOk(w) && Covered(w) && ClosedSoFar(w)
  }

  ghost predicate Standing(w: World) {
    && Inv(w.p) && Sessions.Inv(w.s)
    && IsQueue(w.p.topo, w.queue) && OthersQuiet(w.p, w.closer, w.queue)
    && OnCourse(w) && w.refused == 0
  }

  /** No step opens a closed handle, gives an object back, or renames a handle, and quiet ones give the queue
      no child. */
  predicate Worn(s: State, z: State, q: nat) {
    && |s.topo| == |s.hs| <= |z.hs| == |z.topo|
    && (forall h | 0 <= h < |s.hs| :: z.topo[h] == s.topo[h])
    && (forall h | 0 <= h < |s.hs| :: (s.hs[h].closed ==> z.hs[h].closed) && (z.hs[h].ptr ==> s.hs[h].ptr))
    && (forall h | |s.hs| <= h < |z.hs| :: z.topo[h] != Node(Child, Some(q)))
  }

  lemma StepWears(s: State, e: Event, q: nat)
    requires Inv(s) && Enabled(s, e)
    requires e.Create? || QuietThread(s.topo, q, s.ts[e.t])
    ensures Worn(s, Next(s, e), q)
  {
    QuietBirth(s, e, q);
    if !e.Create? { NextModest(s, e); }
  }

  lemma ChildrenShrink(s: State, z: State, q: nat)
    requires Worn(s, z, q)
    ensures OpenChildren(z.topo, z.hs, q) <= OpenChildren(s.topo, s.hs, q)
  {}

  /** w and z differ by a step of the protocol that the session's list has no part in. */
  predicate SameList(w: World, z: World) {
    && z.queue == w.queue && z.closer == w.closer < |z.p.ts|
    && z.s.once == w.s.once && z.s.adopted == w.s.adopted && z.s.streams == w.s.streams
    && Worn(w.p, z.p, w.queue)
  }

  lemma OtherOnCourse(w: World, z: World)
    requires w.queue < |w.p.hs| == |w.p.topo| && OnCourse(w) && SameList(w, z)
    requires z.p.ts[z.closer] == w.p.ts[w.closer]
    ensures OnCourse(z)
  {
    ChildrenShrink(w.p, z.p, w.queue);
  }

  /** The closer and the session's list stay as they are while another thread runs. */
  lemma OtherKeeps(w: World, e: Event, z: World)
    requires Standing(w) && Enabled(w.p, e) && !Runs(e, w.closer) && QuietEvent(w.p.topo, w.queue, e)
    requires z.(s := w.s) == w.(p := Next(w.p, e))
    requires Sessions.Inv(z.s) && z.s.once == w.s.once && z.s.adopted == w.s.adopted && z.s.streams == w.s.streams
    ensures Standing(z)
  {
    NextKeeps(w.p, e);
    if !e.Create? { NextModest(w.p, e); }
    StepWears(w.p, e, w.queue);
    OtherOnCourse(w, z);
    OthersStayQuiet(w.p, e, w.closer, w.queue);
  }

  /** Adopting, entering the once and taking the list change nothing but the session. */
  lemma SessionKeeps(w: World, m: Move)
    requires Standing(w) && Allowed(w, m) && (m.Adopt? || m.Begin? || m.TakeAll?)
    ensures Standing(After(w, m))
  {
    var z := After(w, m);
    match m
    case Adopt(c) => Sessions.NextKeeps(w.s, Sessions.Adopt(c));
    case Begin => Sessions.NextKeeps(w.s, Sessions.Begin);
    case TakeAll => Sessions.NextKeeps(w.s, Sessions.TakeAll);
    assert forall c | c in Left(w.s) :: c in Left(z.s);
  }

  lemma LeftIsAdopted(w: World, c: nat)
    requires Sessions.Inv(w.s) && c in Left(w.s)
    ensures c in w.s.adopted
  {
    if w.s.once.Closing? { assert c in w.s.once.left + Sessions.Reverse(w.s.log); }
  }

  lemma LastOrBefore<T>(xs: seq<T>)
    requires xs != []
    ensures forall x | x in xs :: x in xs[..|xs| - 1] || x == xs[|xs| - 1]
  {
    assert xs == xs[..|xs| - 1] + [xs[|xs| - 1]];
  }

  lemma MemberOnCourse(w: World, z: World)
    requires w.queue < |w.p.hs| == |w.p.topo| && OnCourse(w) && Sessions.Inv(w.s)
    requires Allowed(w, Turn) && w.s.once.left != [] && z == After(w, Turn)
    ensures OnCourse(z)
  {
    assert Closes(z, Target(w));
    LeftIsAdopted(w, Target(w));
    LastOrBefore(w.s.once.left);
  }

  lemma QueueOnCourse(w: World, z: World)
    requires w.queue < |w.p.hs| == |w.p.topo| && OnCourse(w)
    requires Allowed(w, Turn) && w.s.once.left == [] && z == After(w, Turn)
    ensures OnCourse(z)
  {
    assert Closes(z, w.queue);
  }

  lemma TurnKeeps(w: World)
    requires Standing(w) && Allowed(w, Turn)
    ensures Standing(After(w, Turn))
  {
    var e := Start(w.closer, CloseHandle(Target(w)));
    NextKeeps(w.p, e);
    OthersStayQuiet(w.p, e, w.closer, w.queue);
    Sessions.NextKeeps(w.s, if w.s.once.left == [] then Sessions.ClosePrimary else Sessions.CloseMember);
    if w.s.once.left == [] { QueueOnCourse(w, After(w, Turn)); } else { MemberOnCourse(w, After(w, Turn)); }
  }

  // ----- the sections of the closer -----

  lemma ClosingHoldsNo(topo: Topology, h: nat, k: Token)
    ensures Held(topo, [Close(h)], k) == 0
  {
    var fs: Thread := [Close(h)];
    assert fs[1..] == [];
    assert Deferred(topo, fs, k) == FrameTokens(topo, fs[0], k) + Deferred(topo, fs[1..], k);
  }

  /** While the closer is at a Close section there is no reservation on the queue in flight and nobody is inside
      a child of it. */
  lemma QuietHolds(w: World, h: nat, c: nat)
    requires IsQueue(w.p.topo, w.queue) && OthersQuiet(w.p, w.closer, w.queue) && Closes(w, h)
    ensures Threads(w.p.topo, w.p.ts, ResTok(w.queue)) == 0
    ensures c < |w.p.topo| && w.p.topo[c] == Node(Child, Some(w.queue)) ==> Threads(w.p.topo, w.p.ts, PinTok(c)) == 0
  {
    forall u | 0 <= u < |w.p.ts|
      ensures u != w.closer ==> Held(w.p.topo, w.p.ts[u], ResTok(w.queue)) == 0
      ensures u != w.closer && c < |w.p.topo| && w.p.topo[c] == Node(Child, Some(w.queue)) ==>
                Held(w.p.topo, w.p.ts[u], PinTok(c)) == 0
    {
      if u != w.closer { ThreadHoldsNo(w.p.topo, w.queue, w.p.ts[u], c); }
    }
    ClosingHoldsNo(w.p.topo, h, ResTok(w.queue));
    ClosingHoldsNo(w.p.topo, h, PinTok(c));
    OnlyThread(w.p.topo, w.p.ts, w.closer, ResTok(w.queue));
    if c < |w.p.topo| && w.p.topo[c] == Node(Child, Some(w.queue)) {
      OnlyThread(w.p.topo, w.p.ts, w.closer, PinTok(c));
    }
  }

  /** What Session.Close reports, in any state and whatever the other threads are at: a member never refuses,
      and an open queue refuses exactly while a child of it is open or a reservation on it in flight. */
  lemma RefusesExactly(w: World, h: nat)
    requires Inv(w.p) && Closes(w, h) && h < |w.p.topo| && (w.p.topo[h].kind.Child? || w.p.topo[h].kind.Queue?)
    ensures Refuses(w) <==>
            && w.p.topo[h].kind.Queue? && !w.p.hs[h].closed
            && (Threads(w.p.topo, w.p.ts, ResTok(h)) > 0 || OpenChildren(w.p.topo, w.p.hs, h) != {})
  {
    if !w.p.hs[h].closed { CloseRefusedExactly(w.p, h); }
  }

  /** No member and no queue refuses. */
  lemma NoneRefuses(w: World)
    requires Standing(w) && Ready(w.p, w.closer) && w.p.ts[w.closer][0].Close?
    ensures !Refuses(w) && Closes(w, w.p.ts[w.closer][0].h)
  {
    var h := w.p.ts[w.closer][0].h;
    assert w.p.ts[w.closer][0] in w.p.ts[w.closer];
    if w.s.once.Finished? {
      QuietHolds(w, h, h);
      forall c | 0 <= c < |w.p.hs| && w.p.topo[c] == Node(Child, Some(w.queue)) ensures !w.p.hs[c].ptr {
        assert c !in Left(w.s) && !Closes(w, c);
        assert c !in OpenChildren(w.p.topo, w.p.hs, w.queue);
      }
      DrainedQueueCloses(w.p, w.queue);
    }
  }

  /** A closed child of the queue is taken at once, for nobody is inside it. */
  lemma ChildTaken(w: World, c: nat)
    requires Standing(w) && Closes(w, c) && c < |w.p.topo| && w.p.topo[c] == Node(Child, Some(w.queue))
    ensures !RunClose(w.p, w.closer).hs[c].ptr
  {
    QuietHolds(w, c, c);
    CountersIn(w.p, c);
    assert HandleOk(w.p.topo[c], w.p.hs[c]);
  }

  lemma {:induction false} DeletesTidy(slots: seq<nat>)
    ensures Tidying(DeleteFrames(slots))
  {
    if slots != [] { DeletesTidy(slots[1..]); }
  }

  lemma CleanupTidies(h: nat, taken: Taken)
    ensures Tidying(Cleanup(h, taken))
  {
    if taken.Taken? { DeletesTidy(taken.slots); }
  }

  lemma CloseOnCourse(w: World, z: World, h: nat)
    requires w.queue < |w.p.hs| == |w.p.topo| && OnCourse(w) && Closes(w, h) && h < |w.p.hs| && SameList(w, z)
    requires Tidying(z.p.ts[z.closer]) && z.p.hs[h].closed
    requires h in OpenChildren(w.p.topo, w.p.hs, w.queue) ==> !z.p.hs[h].ptr
    ensures OnCourse(z)
  {
    ChildrenShrink(w.p, z.p, w.queue);
  }

  lemma CloseSection(s: State, t: nat, h: nat)
    requires |s.topo| == |s.hs| && t < |s.ts| && s.ts[t] == [Close(h)] && h < |s.hs|
    requires CloseRefused(s.topo[h].kind, s.hs[h]).None?
    ensures var z := RunClose(s, t);
            && z.topo == s.topo && |z.hs| == |s.hs| && |z.ts| == |s.ts| && z.hs[h].closed && Tidying(z.ts[t])
  {
    CleanupTidies(h, Closed(s.topo[h].kind, s.hs[h]).1);
  }

  lemma CloseKeeps(w: World, outcome: Outcome)
    requires Standing(w) && Allowed(w, Own(outcome)) && w.p.ts[w.closer][0].Close?
    ensures Standing(After(w, Own(outcome)))
  {
    var z, e, h := After(w, Own(outcome)), Run(w.closer, outcome), w.p.ts[w.closer][0].h;
    NoneRefuses(w);
    NextKeeps(w.p, e);
    NextModest(w.p, e);
    CloseSection(w.p, w.closer, h);
    OthersStayQuiet(w.p, e, w.closer, w.queue);
    if h in OpenChildren(w.p.topo, w.p.hs, w.queue) { ChildTaken(w, h); }
    CloseOnCourse(w, z, h);
  }

  lemma TidyOnCourse(w: World, z: World)
    requires w.queue < |w.p.hs| == |w.p.topo| && OnCourse(w) && SameList(w, z)
    requires w.p.ts[w.closer] != [] && !w.p.ts[w.closer][0].Close? && z.p.ts[z.closer] == w.p.ts[w.closer][1..]
    ensures OnCourse(z)
  {
    ChildrenShrink(w.p, z.p, w.queue);
  }

  lemma TidySection(s: State, t: nat, outcome: Outcome, q: nat)
    requires Enabled(s, Run(t, outcome)) && (s.ts[t][0].Free? || s.ts[t][0].Drop? || s.ts[t][0].Delete?)
    ensures var z := Next(s, Run(t, outcome));
            z.topo == s.topo && Worn(s, z, q) && z.ts == s.ts[t := s.ts[t][1..]]
  {}

  lemma TidyKeeps(w: World, outcome: Outcome)
    requires Standing(w) && Allowed(w, Own(outcome)) && !w.p.ts[w.closer][0].Close?
    ensures Standing(After(w, Own(outcome)))
  {
    var z, e := After(w, Own(outcome)), Run(w.closer, outcome);
    assert w.p.ts[w.closer][0] in w.p.ts[w.closer];
    NextKeeps(w.p, e);
    TidySection(w.p, w.closer, outcome, w.queue);
    OthersStayQuiet(w.p, e, w.closer, w.queue);
    TidyOnCourse(w, z);
  }

  lemma MoveKeeps(w: World, m: Move)
    requires Standing(w) && Allowed(w, m)
    ensures Standing(After(w, m))
  {
    match m
    case Late(u, c) =>
      Sessions.NextKeeps(w.s, Sessions.CloseLate(c));
      OtherKeeps(w, Start(u, CloseHandle(c)), After(w, m));
    case Turn => TurnKeeps(w);
    case Own(outcome) =>
      if w.p.ts[w.closer][0].Close? { CloseKeeps(w, outcome); } else { TidyKeeps(w, outcome); }
    case Other(e) => OtherKeeps(w, e, After(w, m));
    case _ => SessionKeeps(w, m);
  }

  lemma {:induction false} CourseKeeps(w: World, ms: seq<Move>, z: World)
    requires Standing(w) && Course(w, ms, z)
    ensures Standing(z) && z.queue == w.queue && z.closer == w.closer
    decreases |ms|
  {
    if ms != [] {
      MoveKeeps(w, ms[0]);
      CourseKeeps(After(w, ms[0]), ms[1..], z);
    }
  }

  // ----- Session.Close -----

  /** What Session.Close can ask for: the open children of the queue are all adopted, and no other thread is
      inside a child, has a reservation in flight, or is about to. */
  ghost predicate Prepared(w: World) {
    && Inv(w.p) && Sessions.Inv(w.s) && !w.s.closed
    && IsQueue(w.p.topo, w.queue) && MembersOk(w) && OthersQuiet(w.p, w.closer, w.queue)
    && w.closer < |w.p.ts| && w.p.ts[w.closer] == []
    && (forall c | c in OpenChildren(w.p.topo, w.p.hs, w.queue) :: c in w.s.streams)
    && w.refused == 0
  }

  /** Whatever the other threads do elsewhere, no member and no queue refuses, so Session.Close returns nil; and
      when it does, each member and the queue is closed, each member once and most recent first, and no
      child of the queue is open. */
  lemma SessionCloses(w: World, ms: seq<Move>, z: World)
    requires Prepared(w) && Course(w, ms, z)
    ensures z.refused == 0 && z.queue < |z.p.hs| == |z.p.topo| && z.closer < |z.p.ts|
    ensures z.s.once.Finished? && z.p.ts[z.closer] == [] ==>
              && z.p.hs[z.queue].closed && z.s.log == Sessions.Reverse(z.s.adopted)
              && (forall c | c in z.s.adopted :: c < |z.p.hs| && z.p.hs[c].closed)
              && OpenChildren(z.p.topo, z.p.hs, z.queue) == {}
  {
    CourseKeeps(w, ms, z);
    if z.s.once.Finished? { Sessions.ReverseTwice(z.s.log); }
  }

  // ----- and it returns -----

  /** A bound on the steps the closer has yet to take. */
  function Remaining(w: World): nat
    requires w.closer < |w.p.ts|
  {
    (if w.s.once.Finished? then 0 else 7 * (|Left(w.s)| + 1)) + Rank(w.p.topo, w.p.ts[w.closer])
  }

  function OwnMoves(ms: seq<Move>): nat {
    if ms == [] then 0 else (if ms[0].Turn? || ms[0].Own? then 1 else 0) + OwnMoves(ms[1..])
  }

  lemma TurnCounts(w: World)
    requires Standing(w) && Allowed(w, Turn)
    ensures After(w, Turn).closer < |After(w, Turn).p.ts| && After(w, Turn).s.closed
    ensures 1 + Remaining(After(w, Turn)) <= Remaining(w)
  {
    RankCons(w.p.topo, Close(Target(w)), []);
    assert After(w, Turn).p.ts[w.closer] == [Close(Target(w))] + [];
  }

  lemma OwnCounts(w: World, outcome: Outcome)
    requires Standing(w) && Allowed(w, Own(outcome))
    ensures After(w, Own(outcome)).closer < |After(w, Own(outcome)).p.ts|
    ensures 1 + Remaining(After(w, Own(outcome))) <= Remaining(w)
  {
    assert w.p.ts[w.closer][0] in w.p.ts[w.closer];
    SectionDescends(w.p, w.closer, outcome);
    NextModest(w.p, Run(w.closer, outcome));
  }

  lemma MoveCounts(w: World, m: Move)
    requires Standing(w) && Allowed(w, m) && w.s.closed
    ensures After(w, m).closer < |After(w, m).p.ts| && After(w, m).s.closed
    ensures (if m.Turn? || m.Own? then 1 else 0) + Remaining(After(w, m)) <= Remaining(w)
  {
    match m
    case Turn => TurnCounts(w);
    case Own(outcome) => OwnCounts(w, outcome);
    case Late(u, c) => RankStays(w.p, Start(u, CloseHandle(c)), w.closer);
    case Other(e) => RankStays(w.p, e, w.closer);
    case _ =>
  }

  /** Until it has returned the closer can always take its next step, and however the run interleaves it takes
      at most Remaining of them. */
  lemma {:induction false} SessionFinishes(w: World, ms: seq<Move>, z: World)
    requires Standing(w) && Course(w, ms, z) && w.s.closed
    ensures z.closer < |z.p.ts| && OwnMoves(ms) + Remaining(z) <= Remaining(w)
    ensures (z.s.once.Finished? && z.p.ts[z.closer] == []) || Allowed(z, Turn) || Allowed(z, Own(Returned))
    decreases |ms|
  {
    if ms == [] {
      CloserCanMove(z);
    } else {
      MoveCounts(w, ms[0]);
      MoveKeeps(w, ms[0]);
      SessionFinishes(After(w, ms[0]), ms[1..], z);
    }
  }

  lemma CloserCanMove(w: World)
    requires Standing(w) && w.s.closed
    ensures (w.s.once.Finished? && w.p.ts[w.closer] == []) || Allowed(w, Turn) || Allowed(w, Own(Returned))
  {
    if w.p.ts[w.closer] != [] {
      assert ThreadOk(w.p.topo, w.p.ts[w.closer]) && w.p.ts[w.closer][0] in w.p.ts[w.closer];
    } else if w.s.once.Closing? && w.s.once.left != [] {
      LeftIsAdopted(w, Target(w));
    }
  }
}
