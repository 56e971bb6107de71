/** The callback runtime of one process: what trampolines record while native code runs, and what the
    generated call takes out again when it has returned. */
module Callbacks {
  import opened Wrappers

  type Handle = nat
  type Value = int
  type Error = int
  type Flag = nat

  /** What a Go callback leaves behind until its caller takes it. */
  datatype RawState = RawState(panic: Option<Value>, err: Option<Error>, cancel: Option<Flag>)

  const EMPTY := RawState(None, None, None)

  /** How one crossing into a Go callback ended. */
  datatype Ending = Fine | Errs(err: Error) | Panics(value: Value)

  /** One crossing during a native call; None is the callback the call itself was given. */
  datatype Crossing = Crossing(target: Option<Handle>, ending: Ending)

  /** How a generated call ends, in the order of priority. */
  datatype Result =
    | NilCallback
    | Rethrown(value: Value)
    | CallbackFailed(err: Error)
    | ContextDone
    | Failed(code: int)
    | Returned

  // ----- what a sequence of crossings leaves in one state -----

  function Of(cs: seq<Crossing>, target: Option<Handle>): seq<Ending> {
    if cs == [] then [] else (if cs[0].target == target then [cs[0].ending] else []) + Of(cs[1..], target)
  }

  function FirstPanic(es: seq<Ending>): Option<Value> {
    if es == [] then None else if es[0].Panics? then Some(es[0].value) else FirstPanic(es[1..])
  }

  function FirstError(es: seq<Ending>): Option<Error> {
    if es == [] then None else if es[0].Errs? then Some(es[0].err) else FirstError(es[1..])
  }

  predicate AllFine(es: seq<Ending>) { forall e | e in es :: e.Fine? }

  function Or<T>(a: Option<T>, b: Option<T>): Option<T> { if a.Some? then a else b }

  /** The first panic and the first error win; what was not taken yet counts as earlier. */
  function Recorded(s: RawState, es: seq<Ending>): RawState {
    s.(panic := Or(s.panic, FirstPanic(es)), err := Or(s.err, FirstError(es)))
  }

  function Record(s: RawState, e: Ending): RawState {
    match e
    case Fine => s
    case Errs(err) => if s.err.None? then s.(err := Some(err)) else s
    case Panics(value) => if s.panic.None? then s.(panic := Some(value)) else s
  }

  lemma {:induction false} FirstAppend(es: seq<Ending>, e: Ending)
    ensures FirstPanic(es + [e]) == Or(FirstPanic(es), FirstPanic([e]))
    ensures FirstError(es + [e]) == Or(FirstError(es), FirstError([e]))
  {
    if es == [] {
      assert es + [e] == [e];
    } else {
      assert (es + [e])[1..] == es[1..] + [e];
      FirstAppend(es[1..], e);
    }
  }

  /** The first panic is the one no panic comes before, and so for errors. */
  lemma {:induction false} FirstPanicExactly(es: seq<Ending>, v: Value)
    ensures FirstPanic(es) == Some(v) <==>
            exists i :: 0 <= i < |es| && es[i] == Panics(v) && forall j | 0 <= j < i :: !es[j].Panics?
    ensures FirstPanic(es).None? <==> forall i | 0 <= i < |es| :: !es[i].Panics?
  {
    if es != [] && !es[0].Panics? {
      var rest := es[1..];
      FirstPanicExactly(rest, v);
      assert forall i | 0 < i < |es| :: es[i] == rest[i - 1];
      if i :| 0 <= i < |rest| && rest[i] == Panics(v) && forall j | 0 <= j < i :: !rest[j].Panics? {
        assert es[i + 1] == Panics(v);
      }
      if i :| 0 <= i < |es| && es[i] == Panics(v) && forall j | 0 <= j < i :: !es[j].Panics? {
        assert rest[i - 1] == Panics(v) && forall j | 0 <= j < i - 1 :: rest[j] == es[j + 1];
      }
    }
  }

  lemma {:induction false} FirstErrorExactly(es: seq<Ending>, e: Error)
    ensures FirstError(es) == Some(e) <==>
            exists i :: 0 <= i < |es| && es[i] == Errs(e) && forall j | 0 <= j < i :: !es[j].Errs?
    ensures FirstError(es).None? <==> forall i | 0 <= i < |es| :: !es[i].Errs?
  {
    if es != [] && !es[0].Errs? {
      var rest := es[1..];
      FirstErrorExactly(rest, e);
      assert forall i | 0 < i < |es| :: es[i] == rest[i - 1];
      if i :| 0 <= i < |rest| && rest[i] == Errs(e) && forall j | 0 <= j < i :: !rest[j].Errs? {
        assert es[i + 1] == Errs(e);
      }
      if i :| 0 <= i < |es| && es[i] == Errs(e) && forall j | 0 <= j < i :: !es[j].Errs? {
        assert rest[i - 1] == Errs(e) && forall j | 0 <= j < i - 1 :: rest[j] == es[j + 1];
      }
    }
  }

  lemma RecordedNext(s: RawState, es: seq<Ending>, e: Ending)
    ensures Recorded(s, es + [e]) == Record(Recorded(s, es), e)
  {
    FirstAppend(es, e);
    assert [e][1..] == [];
  }

  lemma {:induction false} OfAppend(cs: seq<Crossing>, c: Crossing, target: Option<Handle>)
    ensures Of(cs + [c], target) == Of(cs, target) + if c.target == target then [c.ending] else []
  {
    if cs == [] {
      assert cs + [c] == [c] && [c][1..] == [];
    } else {
      assert (cs + [c])[1..] == cs[1..] + [c];
      OfAppend(cs[1..], c, target);
      var first := if cs[0].target == target then [cs[0].ending] else [];
      var last := if c.target == target then [c.ending] else [];
      assert first + (Of(cs[1..], target) + last) == (first + Of(cs[1..], target)) + last;
    }
  }

  // ----- the table -----

  type Table = map<Handle, RawState>

  function Untaken(t: Table): set<Handle> { set h | h in t && t[h].panic.Some? }

  /** The slot whose panic is rethrown: the first in the order of the sweep. */
  function Swept(t: Table, slots: seq<Handle>): Option<Handle> {
    if slots == [] then None
    else if slots[0] in t && t[slots[0]].panic.Some? then Some(slots[0])
    else Swept(t, slots[1..])
  }

  function Cleared(t: Table, h: Option<Handle>): Table {
    if h.Some? && h.value in t then t[h.value := t[h.value].(panic := None)] else t
  }

  lemma {:induction false} SweptIsUntaken(t: Table, slots: seq<Handle>)
    ensures Swept(t, slots).Some? <==> exists h :: h in slots && h in Untaken(t)
    ensures Swept(t, slots).Some? ==> Swept(t, slots).value in slots && Swept(t, slots).value in Untaken(t)
  {
    if slots != [] {
      SweptIsUntaken(t, slots[1..]);
      if Swept(t, slots).Some? { assert Swept(t, slots).value in slots; }
    }
  }

  /** The slot taken is the first that holds a panic: no slot before it does. */
  lemma {:induction false} SweptIsFirst(t: Table, slots: seq<Handle>)
    ensures Swept(t, slots).Some? ==>
            exists i :: 0 <= i < |slots| && Swept(t, slots) == Some(slots[i]) && slots[i] in Untaken(t)
                        && forall j | 0 <= j < i :: slots[j] !in Untaken(t)
    ensures Swept(t, slots).None? ==> forall i | 0 <= i < |slots| :: slots[i] !in Untaken(t)
  {
    if slots != [] {
      if slots[0] in Untaken(t) {
        assert Swept(t, slots) == Some(slots[0]);
      } else {
        var rest := slots[1..];
        SweptIsFirst(t, rest);
        assert forall i | 0 < i < |slots| :: slots[i] == rest[i - 1];
        if Swept(t, rest).Some? {
          var i :| 0 <= i < |rest| && Swept(t, rest) == Some(rest[i]) && rest[i] in Untaken(t)
                   && forall j | 0 <= j < i :: rest[j] !in Untaken(t);
          assert Swept(t, slots) == Some(slots[i + 1]);
        }
      }
    }
  }

  /** The panic the sweep takes. */
  function SweptPanic(t: Table, slots: seq<Handle>): Option<Value> {
    var h := Swept(t, slots);
    if h.Some? && h.value in t then t[h.value].panic else None
  }

  function Flags(cancels: map<Handle, Flag>, h: Handle): set<Flag> { if h in cancels then {cancels[h]} else {} }

  /** The flag a crossing raises when it goes wrong: the one in the state, or, with the state gone, in the map. */
  function FlagOf(t: Table, cancels: map<Handle, Flag>, h: Handle): set<Flag> {
    if h !in t then Flags(cancels, h) else if t[h].cancel.Some? then {t[h].cancel.value} else {}
  }

  /** A flag is attached in the map and in the state, or in neither. */
  predicate Attached(t: Table, cancels: map<Handle, Flag>, flags: Flag) {
    && (forall h | h in t :: h in cancels <==> t[h].cancel.Some?)
    && (forall h | h in cancels :: h in t && t[h].cancel == Some(cancels[h]) && cancels[h] < flags)
  }

  /** The table after a crossing into the callback behind h. */
  function Crossed(t: Table, h: Handle, ending: Ending): Table {
    if h in t then t[h := Record(t[h], ending)] else t
  }

  /** While the map and the states agree on the flags, a crossing raises the one in the map. */
  lemma CrossedAgrees(t: Table, cancels: map<Handle, Flag>, flags: Flag, h: Handle, ending: Ending)
    requires Attached(t, cancels, flags)
    ensures Attached(Crossed(t, h, ending), cancels, flags)
    ensures h !in t || !ending.Fine? ==> FlagOf(t, cancels, h) == Flags(cancels, h)
    ensures h !in t ==> Flags(cancels, h) == {}
    ensures forall f | f in Flags(cancels, h) :: f < flags
  {}

  class Runtime {
    /** cgo's handle table, the global map of cancel flags, the flags that are raised, and the counters
        pendingCallbackPanics and zigoActiveCallbackHandles. */
    var states: Table
    var cancels: map<Handle, Flag>
    var raised: set<Flag>
    var pending: int
    var live: int
    /** cgo numbers its handles from 1 on and never gives a number out twice; so do the flags here. */
    var issued: Handle
    var flags: Flag
    /** Panics that nobody had taken when their handle was deleted: the counter keeps them. */
    ghost var orphans: nat

    /** The counters count what they are for. */
    ghost predicate Counted()
      reads this
    {
      && pending == |Untaken(states)| + orphans && live == |states|
      && (forall h :: h in states ==> 0 < h <= issued)
    }

    ghost predicate Valid()
      reads this
    {
      Counted() && Attached(states, cancels, flags) && forall f :: f in raised ==> f < flags
    }

    constructor ()
      ensures Valid() && states == map[] && cancels == map[] && raised == {} && orphans == 0
    {
      states, cancels, raised, pending, live, issued, flags, orphans := map[], map[], {}, 0, 0, 0, 0, 0;
      new;
      assert Untaken(states) == {};
    }

    method NewHandle() returns (h: Handle)
      requires Valid()
      modifies this`states, this`live, this`issued
      ensures Valid() && h == issued == old(issued) + 1 && h !in old(states) && states == old(states)[h := EMPTY]
    {
      issued := issued + 1;
      h := issued;
      states := states[h := EMPTY];
      live := live + 1;
      assert Untaken(states) == Untaken(old(states));
    }

    /** The cancel variable of one call. */
    method NewFlag(up: bool) returns (flag: Flag)
      requires Valid()
      modifies this`flags, this`raised
      ensures Valid() && flag == old(flags) && flags == flag + 1 && flag !in old(raised)
      ensures raised == old(raised) + if up then {flag} else {}
    {
      flag := flags;
      flags := flags + 1;
      if up { raised := raised + {flag}; }
    }

    method DeleteHandle(h: Handle)
      requires Valid() && (h != 0 ==> h in states && h !in cancels)
      modifies this`states, this`live, this`orphans
      ensures Valid() && states == old(states) - {h}
      ensures orphans == old(orphans) + if h in old(states) && old(states)[h].panic.Some? then 1 else 0
    {
      if h == 0 { assert states - {h} == states; return; }
      assert Untaken(states - {h}) == Untaken(states) - {h};
      if states[h].panic.Some? { orphans := orphans + 1; }
      states := states - {h};
      live := live - 1;
      assert states.Keys == old(states).Keys - {h};
    }

    method SetCancel(h: Handle, flag: Option<Flag>)
      requires Valid() && h in states && (flag.Some? ==> flag.value < flags)
      modifies this`states, this`cancels
      ensures Valid() && states == old(states)[h := old(states)[h].(cancel := flag)]
      ensures cancels == if flag.Some? then old(cancels)[h := flag.value] else old(cancels) - {h}
    {
      if flag.None? { cancels := cancels - {h}; } else { cancels := cancels[h := flag.value]; }
      states := states[h := states[h].(cancel := flag)];
      assert Untaken(states) == Untaken(old(states));
    }

    /** Keeps the first panic, and raises the flag of the call the callback belongs to. */
    method RecordPanic(h: Handle, value: Value)
      requires Counted() && h in states
      modifies this`states, this`raised, this`pending
      ensures Counted() && states == old(states)[h := Record(old(states)[h], Panics(value))]
      ensures raised == old(raised) + FlagOf(old(states), cancels, h)
    {
      TripCancel(h);
      if states[h].panic.Some? { assert states[h := states[h]] == states; return; }
      states := states[h := states[h].(panic := Some(value))];
      pending := pending + 1;
      assert Untaken(states) == Untaken(old(states)) + {h};
    }

    /** Keeps the first error; errors are not counted. */
    method RecordError(h: Handle, err: Error)
      requires Counted() && h in states
      modifies this`states, this`raised
      ensures Counted() && states == old(states)[h := Record(old(states)[h], Errs(err))]
      ensures raised == old(raised) + FlagOf(old(states), cancels, h)
    {
      TripCancel(h);
      if states[h].err.None? { states := states[h := states[h].(err := Some(err))]; }
      assert states == old(states)[h := Record(old(states)[h], Errs(err))];
      assert Untaken(states) == Untaken(old(states));
    }

    method TripCancel(h: Handle)
      requires h in states
      modifies this`raised
      ensures raised == old(raised) + FlagOf(states, cancels, h)
    {
      if states[h].cancel.Some? { raised := raised + {states[h].cancel.value}; }
    }

    /** A trampoline: native code calls the callback behind h, which ends as `ending` says.  A handle that
        is not in the table raises the flag the global map still has for it. */
    method Trampoline(h: Handle, ending: Ending)
      requires Counted()
      modifies this`states, this`raised, this`pending
      ensures Counted()
      ensures states == Crossed(old(states), h, ending)
      ensures raised == old(raised) + if h in old(states) && ending.Fine? then {} else FlagOf(old(states), cancels, h)
    {
      if h !in states {
        if h in cancels { raised := raised + {cancels[h]}; }
        return;
      }
      match ending {
        case Fine => assert states[h := states[h]] == states;
        case Errs(err) => RecordError(h, err);
        case Panics(value) => RecordPanic(h, value);
      }
    }

    method TakePanic(h: Handle) returns (value: Option<Value>)
      requires Valid() && h in states
      modifies this`states, this`pending
      ensures Valid() && value == old(states)[h].panic && states == Cleared(old(states), Some(h))
    {
      value := states[h].panic;
      if value.None? { assert Cleared(states, Some(h)) == states; return; }
      states := states[h := states[h].(panic := None)];
      pending := pending - 1;
      assert Untaken(states) == Untaken(old(states)) - {h};
    }

    method TakeError(h: Handle) returns (err: Option<Error>)
      requires Valid() && h in states
      modifies this`states
      ensures Valid() && err == old(states)[h].err && states == old(states)[h := old(states)[h].(err := None)]
    {
      err := states[h].err;
      states := states[h := states[h].(err := None)];
      assert Untaken(states) == Untaken(old(states));
    }

    /** Sweeping every slot, slot 0 being empty: the first panic found is rethrown, later ones stay. */
    method Sweep(slots: seq<Handle>) returns (value: Option<Value>)
      requires Valid() && forall h | h in slots :: h == 0 || h in states
      modifies this`states, this`pending
      ensures Valid() && states == Cleared(old(states), Swept(old(states), slots))
      ensures value == SweptPanic(old(states), slots)
    {
      for i := 0 to |slots|
        invariant Valid() && states == old(states)
        invariant Swept(states, slots) == Swept(states, slots[i..])
      {
        if slots[i] != 0 {
          value := TakePanic(slots[i]);
          if value.Some? { return; }
        }
        assert slots[i..][1..] == slots[i + 1..];
      }
      return None;
    }

    /** The generated form: one look at the counter, and the sweep only when it is not zero. */
    method FastSweep(slots: seq<Handle>) returns (value: Option<Value>)
      requires Valid() && forall h | h in slots :: h == 0 || h in states
      modifies this`states, this`pending
      ensures Valid() && states == Cleared(old(states), Swept(old(states), slots))
      ensures value == SweptPanic(old(states), slots)
    {
      if pending != 0 {
        value := Sweep(slots);
      } else {
        SweptIsUntaken(states, slots);
        assert Untaken(states) == {};
        return None;
      }
    }

    method RaiseWhen(done: bool, flag: Flag)
      requires Valid() && (done ==> flag < flags)
      modifies this`raised
      ensures Valid() && raised == old(raised) + if done then {flag} else {}
    {
      if done { raised := raised + {flag}; }
    }

    /** One crossing while every flag is attached on both sides: map and state then agree on the flag.  The
        context may become done just before it. */
    method Cross(own: Handle, c: Crossing, woken: bool, flag: Flag)
      requires Valid() && (woken ==> flag < flags)
      modifies this`states, this`raised, this`pending
      ensures Valid()
      ensures states == Crossed(old(states), Target(c, own), c.ending)
      ensures raised == (old(raised) + if woken then {flag} else {})
                        + if c.ending.Fine? then {} else Flags(cancels, Target(c, own))
    {
      RaiseWhen(woken, flag);
      CrossedAgrees(states, cancels, flags, Target(c, own), c.ending);
      Trampoline(Target(c, own), c.ending);
    }

    /** A native call: it crosses into Go any number of times before it returns.  When `at` crossings are
        over the context of the call becomes done, and the function waiting for that raises the flag. */
    method RunNative(own: Handle, cs: seq<Crossing>, at: Option<nat>, flag: Flag)
      requires Valid() && (at.Some? ==> at.value <= |cs| && flag < flags)
      requires forall c | c in cs && c.target.Some? :: c.target.value != own
      modifies this`states, this`raised, this`pending
      ensures Valid() && states == After(old(states), cs, own)
      ensures raised == (old(raised) + Raised(cancels, cs, own)) + if at.Some? then {flag} else {}
    {
      CrossAll(own, cs, at, flag);
      FirstAll(old(states), old(raised), cancels, cs, own, at, flag);
      RaiseWhen(at == Some(|cs|), flag);
    }

    method CrossAll(own: Handle, cs: seq<Crossing>, at: Option<nat>, flag: Flag)
      requires Valid() && (at.Some? ==> flag < flags)
      requires forall c | c in cs && c.target.Some? :: c.target.value != own
      modifies this`states, this`raised, this`pending
      ensures Valid() && states == AfterFirst(old(states), cs, |cs|, own)
      ensures raised == RaisedFirst(old(raised), cancels, cs, |cs|, own, at, flag)
    {
      ghost var t, r := states, raised;
      NoneYet(t, r, cancels, cs, own, at, flag);
      for i := 0 to |cs|
        invariant Valid() && states == AfterFirst(t, cs, i, own)
        invariant raised == RaisedFirst(r, cancels, cs, i, own, at, flag)
      {
        FirstNext(t, r, cancels, cs, i, own, at, flag);
        Cross(own, cs[i], at == Some(i), flag);
      }
    }
  }

  function AfterFirst(t: Table, cs: seq<Crossing>, i: nat, own: Handle): Table
    requires i <= |cs|
  {
    After(t, cs[..i], own)
  }

  function RaisedFirst(r: set<Flag>, cancels: map<Handle, Flag>, cs: seq<Crossing>, i: nat, own: Handle,
                       at: Option<nat>, flag: Flag): set<Flag>
    requires i <= |cs|
  {
    (r + Raised(cancels, cs[..i], own)) + Woken(at, flag, i)
  }

  lemma FirstAll(t: Table, r: set<Flag>, cancels: map<Handle, Flag>, cs: seq<Crossing>, own: Handle,
                 at: Option<nat>, flag: Flag)
    requires at.Some? ==> at.value <= |cs|
    ensures AfterFirst(t, cs, |cs|, own) == After(t, cs, own)
    ensures RaisedFirst(r, cancels, cs, |cs|, own, at, flag) + (if at == Some(|cs|) then {flag} else {})
            == (r + Raised(cancels, cs, own)) + if at.Some? then {flag} else {}
  {
    Whole(cs);
  }

  lemma FirstNext(t: Table, r: set<Flag>, cancels: map<Handle, Flag>, cs: seq<Crossing>, i: nat, own: Handle,
                  at: Option<nat>, flag: Flag)
    requires i < |cs| && (cs[i].target.Some? ==> cs[i].target.value != own)
    ensures AfterFirst(t, cs, i + 1, own) == Crossed(AfterFirst(t, cs, i, own), Target(cs[i], own), cs[i].ending)
    ensures RaisedFirst(r, cancels, cs, i + 1, own, at, flag)
            == (RaisedFirst(r, cancels, cs, i, own, at, flag) + if at == Some(i) then {flag} else {})
               + if cs[i].ending.Fine? then {} else Flags(cancels, Target(cs[i], own))
  {
    Grow(cs, i);
    AfterNext(t, cs[..i], cs[i], own);
    WokenNext(r, cancels, cs[..i], cs[i], own, at, flag);
  }

  /** The flag that the context has raised when i crossings have begun. */
  function Woken(at: Option<nat>, flag: Flag, i: nat): set<Flag> { if at.Some? && at.value < i then {flag} else {} }

  /** The crossings of a call that reach the callback behind h. */
  function Hits(cs: seq<Crossing>, own: Handle, h: Handle): seq<Ending> { Of(cs, if h == own then None else Some(h)) }

  /** The table after a native call: every callback keeps its own first panic and first error. */
  function After(t: Table, cs: seq<Crossing>, own: Handle): Table {
    map h | h in t :: Recorded(t[h], Hits(cs, own, h))
  }

  /** The flags a native call raises: of every callback that did not end fine. */
  function Raised(cancels: map<Handle, Flag>, cs: seq<Crossing>, own: Handle): set<Flag> {
    set h | h in cancels && !AllFine(Hits(cs, own, h)) :: cancels[h]
  }

  function Target(c: Crossing, own: Handle): Handle { if c.target.Some? then c.target.value else own }

  lemma HitsNext(cs: seq<Crossing>, c: Crossing, own: Handle, h: Handle)
    requires c.target.Some? ==> c.target.value != own
    ensures Hits(cs + [c], own, h) == Hits(cs, own, h) + if h == Target(c, own) then [c.ending] else []
    ensures h != Target(c, own) ==> Hits(cs + [c], own, h) == Hits(cs, own, h)
  {
    OfAppend(cs, c, if h == own then None else Some(h));
    assert Hits(cs, own, h) + [] == Hits(cs, own, h);
  }

  lemma AfterNext(t: Table, cs: seq<Crossing>, c: Crossing, own: Handle)
    requires c.target.Some? ==> c.target.value != own
    ensures After(t, cs + [c], own) == Crossed(After(t, cs, own), Target(c, own), c.ending)
  {
    forall h | h in t
      ensures var before := After(t, cs, own)[h];
              After(t, cs + [c], own)[h] == if h == Target(c, own) then Record(before, c.ending) else before
    {
      HitsNext(cs, c, own, h);
      RecordedNext(t[h], Hits(cs, own, h), c.ending);
    }
  }

  lemma RaisedNext(r: set<Flag>, cancels: map<Handle, Flag>, cs: seq<Crossing>, c: Crossing, own: Handle)
    requires c.target.Some? ==> c.target.value != own
    ensures r + Raised(cancels, cs + [c], own)
            == (r + Raised(cancels, cs, own)) + if c.ending.Fine? then {} else Flags(cancels, Target(c, own))
  {
    forall h ensures AllFine(Hits(cs + [c], own, h)) <==>
                     AllFine(Hits(cs, own, h)) && (h == Target(c, own) ==> c.ending.Fine?) {
      HitsNext(cs, c, own, h);
    }
  }

  lemma Regroup(before: set<Flag>, more: set<Flag>, now: set<Flag>, next: set<Flag>)
    ensures (before + more) + (now + next) == ((before + now) + next) + more
  {}

  lemma WokenNext(r: set<Flag>, cancels: map<Handle, Flag>, cs: seq<Crossing>, c: Crossing, own: Handle,
                  at: Option<nat>, flag: Flag)
    requires c.target.Some? ==> c.target.value != own
    ensures (r + Raised(cancels, cs + [c], own)) + Woken(at, flag, |cs| + 1)
            == (((r + Raised(cancels, cs, own)) + Woken(at, flag, |cs|)) + if at == Some(|cs|) then {flag} else {})
               + if c.ending.Fine? then {} else Flags(cancels, Target(c, own))
  {
    RaisedNext(r, cancels, cs, c, own);
    var before, more := r + Raised(cancels, cs, own), if c.ending.Fine? then {} else Flags(cancels, Target(c, own));
    var now, next := Woken(at, flag, |cs|), if at == Some(|cs|) then {flag} else {};
    assert Woken(at, flag, |cs| + 1) == now + next;
    Regroup(before, more, now, next);
  }

  lemma NoneYet(t: Table, r: set<Flag>, cancels: map<Handle, Flag>, cs: seq<Crossing>, own: Handle,
                at: Option<nat>, flag: Flag)
    ensures AfterFirst(t, cs, 0, own) == t && RaisedFirst(r, cancels, cs, 0, own, at, flag) == r
  {}

  lemma Grow<T>(xs: seq<T>, i: nat)
    requires i < |xs|
    ensures xs[..i + 1] == xs[..i] + [xs[i]]
  {}

  lemma Whole<T>(xs: seq<T>)
    ensures xs[..|xs|] == xs
  {}
}
