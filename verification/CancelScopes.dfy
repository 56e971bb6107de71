/** Cancel flags when calls overlap: calls made from callbacks of other calls, calls of other goroutines, and
    contexts that become done at any time.  A step is one access to memory that goroutines share: the handle
    table, the global map of flags, the flag in a callback state, or a flag itself. */
module CancelScopes {
  type Handle = nat

  /** How far a call is: its variable declared, its handle made, the flag stored in the map, the flag stored in
      the state as well, which is when native code runs, the map entry deleted, the flag in the state cleared,
      the handle deleted, and the context no longer watched. */
  datatype Place = Opened | Made | Mapped | Live | Unmapped | Cleared | Gone | Closed

  /** `watching` says that the context is watched and not done, `due` that it became done and the function
      waiting for that has yet to run; it may run as late as after the call. */
  datatype Call = Call(place: Place, handle: Handle, watching: bool, due: bool)

  /** `table` holds the handles that are valid, `cancel` what the states behind the handles hold, `cancels` the
      global map.  The flag of a call is named by the place of the call in `calls`. */
  datatype State = State(calls: seq<Call>, issued: Handle, table: set<Handle>, cancel: map<Handle, nat>,
                         cancels: map<Handle, nat>, raised: set<nat>)

  const START := State([], 0, {}, map[], map[], {})

  datatype Event =
    | Begin(up: bool)            // a call declares its flag; `up` says that its context is done already
    | Make(i: nat)
    | Other                      // a handle for a callback that has no flag
    | MapStore(i: nat)
    | StateStore(i: nat)
    | MapDelete(i: nat)
    | StateClear(i: nat)
    | Delete(i: nat)
    | Stop(i: nat)               // stops watching the context; a call without a callback does only that
    | ContextDone(i: nat)
    | Wake(i: nat)               // the function waiting for the context raises the flag
    | FailKnown(h: Handle)       // a trampoline that has found the state of h raises the flag in it, if any
    | FailUnknown(h: Handle)     // one that has not found it raises the flag in the map, if any

  predicate At(s: State, i: nat, place: Place) { i < |s.calls| && s.calls[i].place == place }

  predicate Enabled(s: State, e: Event) {
    match e
    case Begin(_) => true
    case Make(i) => At(s, i, Opened)
    case Other => true
    case MapStore(i) => At(s, i, Made)
    case StateStore(i) => At(s, i, Mapped)
    case MapDelete(i) => At(s, i, Live)
    case StateClear(i) => At(s, i, Unmapped)
    case Delete(i) => At(s, i, Cleared)
    case Stop(i) => At(s, i, Opened) || At(s, i, Gone)
    case ContextDone(i) => i < |s.calls| && s.calls[i].watching
    case Wake(i) => i < |s.calls| && s.calls[i].due
    case FailKnown(_) => true
    case FailUnknown(h) => h !in s.table
  }

  function Moved(s: State, i: nat, c: Call): State
    requires i < |s.calls|
  {
    s.(calls := s.calls[i := c])
  }

  function Next(s: State, e: Event): State
    requires Enabled(s, e)
  {
    match e
    case Begin(up) =>
      s.(calls := s.calls + [Call(Opened, 0, !up, false)], raised := s.raised + if up then {|s.calls|} else {})
    case Make(i) =>
      var h := s.issued + 1;
      Moved(s, i, s.calls[i].(place := Made, handle := h)).(issued := h, table := s.table + {h})
    case Other => s.(issued := s.issued + 1, table := s.table + {s.issued + 1})
    case MapStore(i) => Moved(s, i, s.calls[i].(place := Mapped)).(cancels := s.cancels[s.calls[i].handle := i])
    case StateStore(i) => Moved(s, i, s.calls[i].(place := Live)).(cancel := s.cancel[s.calls[i].handle := i])
    case MapDelete(i) => Moved(s, i, s.calls[i].(place := Unmapped)).(cancels := s.cancels - {s.calls[i].handle})
    case StateClear(i) => Moved(s, i, s.calls[i].(place := Cleared)).(cancel := s.cancel - {s.calls[i].handle})
    case Delete(i) => Moved(s, i, s.calls[i].(place := Gone)).(table := s.table - {s.calls[i].handle})
    case Stop(i) => Moved(s, i, s.calls[i].(place := Closed, watching := false))
    case ContextDone(i) => Moved(s, i, s.calls[i].(watching := false, due := true))
    case Wake(i) => Moved(s, i, s.calls[i].(due := false)).(raised := s.raised + {i})
    case FailKnown(h) => s.(raised := s.raised + if h in s.cancel then {s.cancel[h]} else {})
    case FailUnknown(h) => s.(raised := s.raised + if h in s.cancels then {s.cancels[h]} else {})
  }

  predicate Path(s: State, es: seq<Event>, z: State)
    decreases |es|
  {
    if es == [] then s == z else Enabled(s, es[0]) && Path(Next(s, es[0]), es[1..], z)
  }

  // ----- what the memory holds -----

  predicate HasHandle(c: Call) { !c.place.Opened? && !c.place.Closed? && !c.place.Gone? }

  /** The two places that can hold the flag of a call: the global map, and the state behind its handle. */
  datatype Holder = Map | States

  predicate Attached(c: Call, where: Holder) {
    c.place.Live? || (if where.Map? then c.place.Mapped? else c.place.Unmapped?)
  }

  /** A call that has a handle has one of its own, and it is valid. */
  predicate HandlesOk(calls: seq<Call>, issued: Handle, table: set<Handle>) {
    && (forall h | h in table :: h <= issued)
    && (forall i | 0 <= i < |calls| && HasHandle(calls[i]) :: calls[i].handle in table)
    && (forall i, j | 0 <= i < j < |calls| && HasHandle(calls[i]) && HasHandle(calls[j]) ::
          calls[i].handle != calls[j].handle)
  }

  /** A holder has the flag of a call exactly while the call is where it should be. */
  predicate FlagsOk(calls: seq<Call>, m: map<Handle, nat>, where: Holder) {
    && (forall h | h in m :: m[h] < |calls| && Attached(calls[m[h]], where) && calls[m[h]].handle == h)
    && (forall i | 0 <= i < |calls| && Attached(calls[i], where) :: calls[i].handle in m && m[calls[i].handle] == i)
  }

  predicate RaisedOk(s: State) { forall i | i in s.raised :: i < |s.calls| }

  predicate Inv(s: State) {
    && HandlesOk(s.calls, s.issued, s.table) && RaisedOk(s)
    && FlagsOk(s.calls, s.cancels, Map) && FlagsOk(s.calls, s.cancel, States)
  }

  lemma MappedIsValid(s: State, h: Handle)
    requires Inv(s) && h in s.cancels
    ensures h in s.table
  {
    assert HasHandle(s.calls[s.cancels[h]]);
  }

  lemma FlagsMoved(calls: seq<Call>, m: map<Handle, nat>, where: Holder, i: nat, c: Call)
    requires FlagsOk(calls, m, where) && i < |calls|
    requires Attached(c, where) == Attached(calls[i], where)
    requires Attached(c, where) ==> c.handle == calls[i].handle
    ensures FlagsOk(calls[i := c], m, where)
  {}

  lemma FlagsBegun(calls: seq<Call>, m: map<Handle, nat>, where: Holder, c: Call)
    requires FlagsOk(calls, m, where) && !Attached(c, where)
    ensures FlagsOk(calls + [c], m, where)
  {}

  lemma FlagsStored(calls: seq<Call>, m: map<Handle, nat>, where: Holder, i: nat, c: Call)
    requires FlagsOk(calls, m, where) && i < |calls|
    requires Attached(c, where) && !Attached(calls[i], where) && c.handle !in m
    ensures FlagsOk(calls[i := c], m[c.handle := i], where)
  {}

  lemma FlagsDeleted(calls: seq<Call>, m: map<Handle, nat>, where: Holder, i: nat, c: Call)
    requires FlagsOk(calls, m, where) && i < |calls|
    requires !Attached(c, where) && Attached(calls[i], where)
    ensures FlagsOk(calls[i := c], m - {calls[i].handle}, where)
  {}

  /** The holder that has not taken the flag of a call yet has no other flag under the same handle. */
  lemma NotYetStored(s: State, m: map<Handle, nat>, where: Holder, i: nat)
    requires HandlesOk(s.calls, s.issued, s.table) && FlagsOk(s.calls, m, where)
    requires i < |s.calls| && HasHandle(s.calls[i]) && !Attached(s.calls[i], where)
    ensures s.calls[i].handle !in m
  {
    forall h | h in m ensures h != s.calls[i].handle { assert HasHandle(s.calls[m[h]]); }
  }

  lemma NextMap(s: State, e: Event)
    requires Inv(s) && Enabled(s, e)
    ensures FlagsOk(Next(s, e).calls, Next(s, e).cancels, Map)
  {
    var calls := Next(s, e).calls;
    match e
    case Begin(up) => FlagsBegun(s.calls, s.cancels, Map, calls[|s.calls|]);
    case MapStore(i) =>
      NotYetStored(s, s.cancels, Map, i);
      FlagsStored(s.calls, s.cancels, Map, i, calls[i]);
    case MapDelete(i) => FlagsDeleted(s.calls, s.cancels, Map, i, calls[i]);
    case Other =>
    case FailKnown(_) =>
    case FailUnknown(_) =>
    case _ => FlagsMoved(s.calls, s.cancels, Map, e.i, calls[e.i]);
  }

  lemma NextStates(s: State, e: Event)
    requires Inv(s) && Enabled(s, e)
    ensures FlagsOk(Next(s, e).calls, Next(s, e).cancel, States)
  {
    var calls := Next(s, e).calls;
    match e
    case Begin(up) => FlagsBegun(s.calls, s.cancel, States, calls[|s.calls|]);
    case StateStore(i) =>
      NotYetStored(s, s.cancel, States, i);
      FlagsStored(s.calls, s.cancel, States, i, calls[i]);
    case StateClear(i) => FlagsDeleted(s.calls, s.cancel, States, i, calls[i]);
    case Other =>
    case FailKnown(_) =>
    case FailUnknown(_) =>
    case _ => FlagsMoved(s.calls, s.cancel, States, e.i, calls[e.i]);
  }

  lemma HandlesMoved(calls: seq<Call>, issued: Handle, table: set<Handle>, i: nat, c: Call)
    requires HandlesOk(calls, issued, table) && i < |calls|
    requires HasHandle(c) ==> HasHandle(calls[i]) && c.handle == calls[i].handle
    ensures HandlesOk(calls[i := c], issued, table)
  {}

  lemma HandlesMade(calls: seq<Call>, issued: Handle, table: set<Handle>, i: nat, c: Call)
    requires HandlesOk(calls, issued, table) && i < |calls| && c.handle == issued + 1
    ensures HandlesOk(calls[i := c], issued + 1, table + {issued + 1})
  {}

  lemma HandlesDeleted(calls: seq<Call>, issued: Handle, table: set<Handle>, i: nat, c: Call)
    requires HandlesOk(calls, issued, table) && i < |calls| && HasHandle(calls[i]) && !HasHandle(c)
    ensures HandlesOk(calls[i := c], issued, table - {calls[i].handle})
  {}

  lemma NextHandles(s: State, e: Event)
    requires Inv(s) && Enabled(s, e)
    ensures HandlesOk(Next(s, e).calls, Next(s, e).issued, Next(s, e).table)
  {
    var calls := Next(s, e).calls;
    match e
    case Begin(_) =>
    case Make(i) => HandlesMade(s.calls, s.issued, s.table, i, calls[i]);
    case Delete(i) => HandlesDeleted(s.calls, s.issued, s.table, i, calls[i]);
    case Other =>
    case FailKnown(_) =>
    case FailUnknown(_) =>
    case _ => HandlesMoved(s.calls, s.issued, s.table, e.i, calls[e.i]);
  }

  lemma NextRaised(s: State, e: Event)
    requires Inv(s) && Enabled(s, e)
    ensures RaisedOk(Next(s, e))
  {}

  lemma NextKeeps(s: State, e: Event)
    requires Inv(s) && Enabled(s, e)
    ensures Inv(Next(s, e))
  {
    NextHandles(s, e);
    NextRaised(s, e);
    NextMap(s, e);
    NextStates(s, e);
  }

  lemma {:induction false} PathKeeps(s: State, es: seq<Event>, z: State)
    requires Inv(s) && Path(s, es, z)
    ensures Inv(z)
    decreases |es|
  {
    if es != [] {
      NextKeeps(s, es[0]);
      PathKeeps(Next(s, es[0]), es[1..], z);
    }
  }

  // ----- what raises a flag -----

  /** The step is a reason for the flag of call i, told by where the call is and not by what memory holds: its
      context was done at the start, or woke the function waiting for it, or a crossing into the call's own
      callback failed between attaching the flag and clearing it. */
  predicate Reason(s: State, e: Event, i: nat) {
    || (e == Begin(true) && i == |s.calls|)
    || e == Wake(i)
    || (e.FailKnown? && i < |s.calls| && Attached(s.calls[i], States) && e.h == s.calls[i].handle)
  }

  predicate Reasoned(s: State, es: seq<Event>, i: nat)
    decreases |es|
  {
    es != [] && Enabled(s, es[0]) && (Reason(s, es[0], i) || Reasoned(Next(s, es[0]), es[1..], i))
  }

  lemma StepRaises(s: State, e: Event, i: nat)
    requires Inv(s) && Enabled(s, e)
    ensures i in Next(s, e).raised <==> i in s.raised || Reason(s, e, i)
  {
    forall h | h in s.cancels ensures h in s.table { MappedIsValid(s, h); }
  }

  lemma {:induction false} RunRaises(s: State, es: seq<Event>, z: State, i: nat)
    requires Inv(s) && Path(s, es, z)
    ensures i in z.raised <==> i in s.raised || Reasoned(s, es, i)
    decreases |es|
  {
    if es != [] {
      StepRaises(s, es[0], i);
      NextKeeps(s, es[0]);
      RunRaises(Next(s, es[0]), es[1..], z, i);
    }
  }

  /** However calls overlap or nest, the flag of a call is raised exactly when there was a reason of its own.
      It is never lowered, and no crossing of another call raises it. */
  lemma FlagExactly(es: seq<Event>, z: State, i: nat)
    requires Path(START, es, z)
    ensures i in z.raised <==> Reasoned(START, es, i)
  {
    RunRaises(START, es, z, i);
  }

  /** Flags are scoped to their calls: outside of a call neither the map nor a state holds its flag, attaching
      and detaching always find the handle valid, and a trampoline that does not find its state never finds a
      flag in the map. */
  lemma FlagsAreScoped(es: seq<Event>, z: State, i: nat)
    requires Path(START, es, z) && i < |z.calls|
    ensures !HasHandle(z.calls[i]) ==> i !in z.cancels.Values && i !in z.cancel.Values
    ensures HasHandle(z.calls[i]) ==> z.calls[i].handle in z.table
    ensures forall h | h !in z.table :: h !in z.cancels
  {
    PathKeeps(START, es, z);
    forall h | h in z.cancels ensures h in z.table { MappedIsValid(z, h); }
  }

  /** A context that is done before the call stops watching it raises the flag in the end: either it has, or
      the function that does is on its way; and it is on its way for no other reason. */
  lemma ContextReachesFlag(s: State, es: seq<Event>, z: State, i: nat)
    requires Inv(s) && Path(s, es, z) && i < |s.calls| && s.calls[i].due
    ensures i < |z.calls| && (z.calls[i].due || i in z.raised)
    decreases |es|
  {
    if es != [] {
      NextKeeps(s, es[0]);
      if es[0] == Wake(i) {
        StaysRaised(Next(s, es[0]), es[1..], z, i);
      } else {
        ContextReachesFlag(Next(s, es[0]), es[1..], z, i);
      }
    }
  }

  lemma {:induction false} StaysRaised(s: State, es: seq<Event>, z: State, i: nat)
    requires Path(s, es, z) && i in s.raised && i < |s.calls|
    ensures i in z.raised && i < |z.calls|
    decreases |es|
  {
    if es != [] { StaysRaised(Next(s, es[0]), es[1..], z, i); }
  }
}
