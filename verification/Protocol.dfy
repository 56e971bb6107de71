/** The handle protocol as a transition system.
    A thread is a list of frames, the next one first: every frame is one section still to run, a
    deferred release, or a native call in progress.  Threads interleave section by section. */
module Protocol {
  import opened Wrappers
  import opened Sections

  /** What never changes about a handle: its kind and the parent it was created with. */
  datatype Node = Node(kind: Kind, born: Option<nat>)
  type Topology = seq<Node>

  datatype Shape = Call | Merge(source: nat) | Merged(receiver: nat) | NewChild | NewView | Observe | Clone

  datatype Frame =
    | ReadLink(h: nat, reserve: bool)                  // first section of acquiring a View or a Child
    | Pin(h: nat, parent: Option<nat>, reserve: bool, res: Option<nat>)  // the section that pins
    | Want(h: nat, shape: Shape)                       // the caller waiting for the acquire to return
    | Native(h: nat, shape: Shape, res: Option<nat>, cb: nat)  // inside the native call
    | Build(cb: nat)                                   // inside the native constructor of a Queue
    | Swap(h: nat, cb: nat)                            // replaces the observer slot
    | Poison(h: nat, cause: Cause)
    | Unpin(h: nat)                                    // deferred release
    | Close(h: nat)
    | Free(h: nat)                                     // runs the native destructor
    | Drop(h: nat)                                     // gives a reservation back
    | Delete(cb: nat)                                  // deletes a callback handle

  type Thread = seq<Frame>

  /** `freed`, `deleted` and `abandoned` record how often each native object was destroyed, each
      callback handle deleted, and which callback handles a rethrown panic left behind.  Callback
      handles are numbered 1..made.  `crashed` is set by indexing a missing slot. */
  datatype State = State(topo: Topology, hs: seq<Handle>, ts: seq<Thread>, freed: multiset<nat>,
                         made: nat, deleted: multiset<nat>, abandoned: multiset<nat>, crashed: bool)

  /** How a native call ended: with a result, with an error code, with a native panic, or with a
      callback panic that is rethrown. */
  datatype Outcome = Returned | Failed | Panicked(cause: Cause) | Rethrown

  datatype Op = Invoke(h: nat, shape: Shape) | CloseHandle(h: nat) | NewQueue

  datatype Event =
    | Create(kind: Kind)
    | Start(t: nat, op: Op)
    | Run(t: nat, outcome: Outcome)
    | Collect(t: nat, h: nat)

  // ----- the frames an operation leaves to run -----

  predicate CanReserve(kind: Kind) { kind.Queue? || kind.Box? || kind.View? }

  function Enter(topo: Topology, h: nat, reserve: bool): Frame
    requires h < |topo|
  {
    if Linked(topo[h].kind) then ReadLink(h, reserve) else Pin(h, None, reserve, None)
  }

  /** The acquires still waiting return the error, and so does the call. */
  function Abort(rest: Thread): Thread {
    if rest == [] then []
    else if rest[0].Pin? then Abort(rest[1..])
    else if rest[0].Want? then rest[1..]
    else rest
  }

  predicate TakesCallback(shape: Shape) { shape.Observe? || shape.Clone? }

  /** A successful acquire returns, with its reservation, to the acquire or call that waits for it. */
  function Handoff(topo: Topology, rest: Thread, res: Option<nat>, next: nat): Thread {
    if rest == [] then []
    else match rest[0]
      case Pin(h, p, reserve, _) => [Pin(h, p, reserve, res)] + rest[1..]
      case Want(h, Merge(source)) =>
        if source < |topo| then [Enter(topo, source, false), Want(source, Merged(h)), Unpin(h)] + rest[1..]
        else [Unpin(h)] + rest[1..]
      case Want(h, shape) => [Native(h, shape, res, if TakesCallback(shape) then next else 0)] + rest[1..]
      case _ => rest
  }

  predicate HandoffMakes(rest: Thread) { rest != [] && rest[0].Want? && TakesCallback(rest[0].shape) }

  function DropFrames(parent: Option<nat>): Thread { if parent.Some? then [Drop(parent.value)] else [] }

  function UnpinFrames(parent: Option<nat>): Thread { if parent.Some? then [Unpin(parent.value)] else [] }

  function DeleteFrames(slots: seq<nat>): Thread {
    if slots == [] then []
    else (if slots[0] == 0 then [] else [Delete(slots[0])]) + DeleteFrames(slots[1..])
  }

  /** The cleanup of what a section took: destructor, callback handles, parent reservation. */
  function Cleanup(h: nat, taken: Taken): Thread {
    match taken
    case Nothing => []
    case Taken(free, parent, slots) => (if free then [Free(h)] else []) + DropFrames(parent) + DeleteFrames(slots)
  }

  function PoisonFrames(h: nat, shape: Shape, outcome: Outcome): Thread {
    if !outcome.Panicked? then []
    else (if shape.Merged? then [Poison(shape.receiver, outcome.cause)] else []) + [Poison(h, outcome.cause)]
  }

  /** What is left of a call once its native part has returned. */
  function AfterNative(h: nat, shape: Shape, res: Option<nat>, cb: nat, outcome: Outcome): Thread {
    var poison := PoisonFrames(h, shape, outcome);
    match shape
    case NewChild => poison + [Unpin(h)] + (if outcome.Returned? then [] else DropFrames(res))
    case Observe => if outcome.Returned? then [Swap(h, cb), Unpin(h)] else poison + [Delete(cb), Unpin(h)]
    case Clone =>
      if outcome.Returned? || outcome.Rethrown? then [Unpin(h)] else [Delete(cb)] + poison + [Unpin(h)]
    case _ => poison + [Unpin(h)]
  }

  // ----- one step -----

  predicate Ready(s: State, t: nat) { t < |s.ts| && s.ts[t] != [] }

  function SetThread(s: State, t: nat, fs: Thread): State
    requires t < |s.ts|
  {
    s.(ts := s.ts[t := fs])
  }

  function SetHandle(s: State, h: nat, x: Handle): State
    requires h < |s.hs|
  {
    s.(hs := s.hs[h := x])
  }

  function Born(s: State, node: Node, slots: seq<nat>): State {
    s.(topo := s.topo + [node], hs := s.hs + [Fresh(node.kind, node.born, slots)])
  }

  function RunReadLink(s: State, t: nat): State
    requires Ready(s, t) && s.ts[t][0].ReadLink? && s.ts[t][0].h < |s.hs|
  {
    var ReadLink(h, reserve), rest := s.ts[t][0], s.ts[t][1..];
    match s.hs[h].link
    case None => SetThread(s, t, [Pin(h, None, reserve, None)] + rest)
    case Some(p) =>
      if p >= |s.topo| || (reserve && !CanReserve(s.topo[p].kind)) then SetThread(s, t, Abort(rest))
      else SetThread(s, t, [Enter(s.topo, p, reserve), Pin(h, Some(p), reserve, None)] + rest)
  }

  function RunPin(s: State, t: nat): State
    requires Ready(s, t) && s.ts[t][0].Pin? && s.ts[t][0].h < |s.hs|
  {
    var Pin(h, parent, reserve, res), rest := s.ts[t][0], s.ts[t][1..];
    if Refused(s.hs[h]).Some? then
      SetThread(s, t, UnpinFrames(parent) + DropFrames(res) + Abort(rest))
    else
      var here := reserve && parent.None?;
      var s1 := SetHandle(s, h, Pinned(s.hs[h], here));
      var s2 := if HandoffMakes(rest) then s1.(made := s.made + 1) else s1;
      SetThread(s2, t, Handoff(s.topo, rest, if here then Some(h) else res, s.made + 1))
  }

  function RunNative(s: State, t: nat, outcome: Outcome): State
    requires Ready(s, t) && s.ts[t][0].Native?
  {
    var Native(h, shape, res, cb), rest := s.ts[t][0], s.ts[t][1..];
    var s1 := SetThread(s, t, AfterNative(h, shape, res, cb, outcome) + rest);
    match shape
    case NewChild => if outcome.Returned? then Born(s1, Node(Child, res), []) else s1
    case NewView => if outcome.Returned? then Born(s1, Node(View, Some(h)), []) else s1
    case Clone =>
      if outcome.Returned? then Born(s1, Node(Queue, None), [0, cb, 0])
      else if outcome.Rethrown? then s1.(abandoned := s.abandoned + multiset{cb})
      else s1
    case _ => s1
  }

  function RunBuild(s: State, t: nat, outcome: Outcome): State
    requires Ready(s, t) && s.ts[t][0].Build?
  {
    var Build(cb), rest := s.ts[t][0], s.ts[t][1..];
    match outcome
    case Returned => Born(SetThread(s, t, rest), Node(Queue, None), [cb, 0, 0])
    case Rethrown => SetThread(s, t, rest).(abandoned := s.abandoned + multiset{cb})
    case _ => SetThread(s, t, [Delete(cb)] + rest)
  }

  function RunSwap(s: State, t: nat): State
    requires Ready(s, t) && s.ts[t][0].Swap? && s.ts[t][0].h < |s.hs|
  {
    var Swap(h, cb), rest := s.ts[t][0], s.ts[t][1..];
    var slots := s.hs[h].slots;
    if |slots| <= 2 then SetThread(s, t, rest).(crashed := true)
    else SetThread(SetHandle(s, h, s.hs[h].(slots := slots[2 := cb])), t, DeleteFrames([slots[2]]) + rest)
  }

  function RunPoison(s: State, t: nat): State
    requires Ready(s, t) && s.ts[t][0].Poison? && s.ts[t][0].h < |s.hs|
  {
    var Poison(h, cause), rest := s.ts[t][0], s.ts[t][1..];
    var up := if s.hs[h].link.Some? then [Poison(s.hs[h].link.value, cause)] else [];
    SetThread(SetHandle(s, h, Poisoned(s.hs[h], cause)), t, up + rest)
  }

  function RunUnpin(s: State, t: nat): State
    requires Ready(s, t) && s.ts[t][0].Unpin? && s.ts[t][0].h < |s.hs| == |s.topo|
  {
    var Unpin(h), rest := s.ts[t][0], s.ts[t][1..];
    var (x, taken) := Unpinned(s.topo[h].kind, s.hs[h]);
    SetThread(SetHandle(s, h, x), t, Cleanup(h, taken) + UnpinFrames(s.hs[h].link) + rest)
  }

  function RunClose(s: State, t: nat): State
    requires Ready(s, t) && s.ts[t][0].Close? && s.ts[t][0].h < |s.hs| == |s.topo|
  {
    var Close(h), rest := s.ts[t][0], s.ts[t][1..];
    var (x, taken) := Closed(s.topo[h].kind, s.hs[h]);
    SetThread(SetHandle(s, h, x), t, Cleanup(h, taken) + rest)
  }

  function RunFree(s: State, t: nat): State
    requires Ready(s, t) && s.ts[t][0].Free?
  {
    SetThread(s, t, s.ts[t][1..]).(freed := s.freed + multiset{s.ts[t][0].h})
  }

  function RunDrop(s: State, t: nat): State
    requires Ready(s, t) && s.ts[t][0].Drop? && s.ts[t][0].h < |s.hs|
  {
    var h := s.ts[t][0].h;
    SetThread(SetHandle(s, h, Dropped(s.hs[h])), t, s.ts[t][1..])
  }

  function RunDelete(s: State, t: nat): State
    requires Ready(s, t) && s.ts[t][0].Delete?
  {
    SetThread(s, t, s.ts[t][1..]).(deleted := s.deleted + multiset{s.ts[t][0].cb})
  }

  /** Go code runs in an idle thread and in the callbacks of a native call. */
  predicate GoCode(fs: Thread) { fs == [] || fs[0].Native? || fs[0].Build? }

  predicate OpOk(topo: Topology, op: Op) {
    match op
    case Invoke(h, shape) =>
      && h < |topo|
      && !shape.Merged?
      && (shape.NewChild? ==> CanReserve(topo[h].kind))
      && (TakesCallback(shape) ==> topo[h].kind.Queue?)
      && (shape.Merge? ==> shape.source < |topo|)
    case CloseHandle(h) => h < |topo|
    case NewQueue => true
  }

  function StartOp(s: State, t: nat, op: Op): State
    requires t < |s.ts| && OpOk(s.topo, op)
  {
    match op
    case Invoke(h, shape) => SetThread(s, t, [Enter(s.topo, h, shape.NewChild?), Want(h, shape)] + s.ts[t])
    case CloseHandle(h) => SetThread(s, t, [Close(h)] + s.ts[t])
    case NewQueue => SetThread(s, t, [Build(s.made + 1)] + s.ts[t]).(made := s.made + 1)
  }

  function RunCollect(s: State, t: nat, h: nat): State
    requires t < |s.ts| && h < |s.hs|
  {
    var (x, taken) := Collected(s.hs[h]);
    SetThread(SetHandle(s, h, x), t, Cleanup(h, taken))
  }

  predicate Targeted(f: Frame) { !f.Want? && !f.Native? && !f.Build? && !f.Free? && !f.Delete? }

  predicate Enabled(s: State, e: Event) {
    && |s.topo| == |s.hs|
    && match e
       case Create(kind) => kind.Box? || kind.Terminal?
       case Start(t, op) => t < |s.ts| && GoCode(s.ts[t]) && OpOk(s.topo, op)
       case Run(t, _) =>
         Ready(s, t) && !s.ts[t][0].Want? && (Targeted(s.ts[t][0]) ==> s.ts[t][0].h < |s.hs|)
       case Collect(t, h) => t < |s.ts| && s.ts[t] == [] && h < |s.hs| && Collectable(s.hs[h])
  }

  /** One step; no step makes or ends a thread. */
  function Next(s: State, e: Event): (z: State)
    requires Enabled(s, e)
    ensures |z.ts| == |s.ts|
  {
    match e
    case Create(kind) => Born(s, Node(kind, None), [])
    case Start(t, op) => StartOp(s, t, op)
    case Collect(t, h) => RunCollect(s, t, h)
    case Run(t, outcome) =>
      match s.ts[t][0]
      case ReadLink(_, _) => RunReadLink(s, t)
      case Pin(_, _, _, _) => RunPin(s, t)
      case Want(_, _) => assert false; s
      case Native(_, _, _, _) => RunNative(s, t, outcome)
      case Build(_) => RunBuild(s, t, outcome)
      case Swap(_, _) => RunSwap(s, t)
      case Poison(_, _) => RunPoison(s, t)
      case Unpin(_) => RunUnpin(s, t)
      case Close(_) => RunClose(s, t)
      case Free(_) => RunFree(s, t)
      case Drop(_) => RunDrop(s, t)
      case Delete(_) => RunDelete(s, t)
  }

  /** No handles yet, and any number of idle threads. */
  predicate Initial(s: State) {
    && s.topo == [] && s.hs == []
    && (forall t | 0 <= t < |s.ts| :: s.ts[t] == [])
    && s.freed == s.deleted == s.abandoned == multiset{}
    && s.made == 0 && !s.crashed
  }

  /** `Path(s, es, z)`: the events es, one after the other, lead from s to z. */
  predicate Path(s: State, es: seq<Event>, z: State)
    decreases |es|
  {
    if es == [] then s == z else Enabled(s, es[0]) && Path(Next(s, es[0]), es[1..], z)
  }

  ghost predicate Reachable(z: State) {
    exists s, es :: Initial(s) && Path(s, es, z)
  }
}
