/** Generated calls that hand a Go callback to native code: what they return, and what they leave behind. */
module CallbackCalls {
  import opened Wrappers
  import opened Callbacks

  /** A callback panic goes before a callback error, and that before the native code. */
  function Verdict(s: RawState, code: int, contextDone: bool): Result {
    if s.panic.Some? then Rethrown(s.panic.value)
    else if s.err.Some? then CallbackFailed(s.err.value)
    else if code == 0 then Returned
    else if contextDone then ContextDone
    else Failed(code)
  }

  /** The result tells how the crossings es and the native code ended, with no case left over: the first panic,
      or else the first error, or else success on code 0, or else the context's error or the code's. */
  ghost predicate Tells(r: Result, es: seq<Ending>, code: int, contextDone: bool) {
    && (forall v :: r == Rethrown(v) <==> FirstPanic(es) == Some(v))
    && (forall e :: r == CallbackFailed(e) <==> FirstPanic(es).None? && FirstError(es) == Some(e))
    && (r.Returned? <==> AllFine(es) && code == 0)
    && (forall c :: r == Failed(c) <==> AllFine(es) && c == code != 0 && !contextDone)
    && (r.ContextDone? <==> AllFine(es) && code != 0 && contextDone)
    && !r.NilCallback?
  }

  lemma VerdictTells(es: seq<Ending>, code: int, contextDone: bool)
    ensures Tells(Verdict(Recorded(EMPTY, es), code, contextDone), es, code, contextDone)
  {
    FirstNone(es);
  }

  /** When the context of a call becomes done: before the call, after so many crossings of the native call,
      between its return and the look at the context, on the way out while the flag is still watched, or
      not before the watch is stopped.  A context does not come undone. */
  datatype Moment = Before | During(crossings: nat) | Back | Leaving | Never

  /** The context is done when the call looks at it. */
  predicate SeenDone(moment: Moment) { moment.Before? || moment.During? || moment.Back? }

  /** Native code reaches, besides the call's own callback, only callbacks it was given earlier. */
  predicate Earlier(cs: seq<Crossing>, issued: Handle) {
    forall c | c in cs && c.target.Some? :: c.target.value <= issued
  }

  /** The sweep and the error check that follow a native call with the callback behind h. */
  method Conclude(rt: Runtime, h: Handle, code: int, contextDone: bool) returns (r: Result)
    requires rt.Valid() && h in rt.states
    modifies rt`states, rt`pending
    ensures rt.Valid() && r == Verdict(old(rt.states)[h], code, contextDone)
    ensures h in rt.states && rt.states[h].panic.None? && rt.states - {h} == old(rt.states) - {h}
    ensures rt.states[h].cancel == old(rt.states)[h].cancel
  {
    var panic := rt.FastSweep([h]);
    if panic.Some? { return Rethrown(panic.value); }
    var err := rt.TakeError(h);
    if err.Some? { return CallbackFailed(err.value); }
    if code == 0 { return Returned; }
    return if contextDone then ContextDone else Failed(code);
  }

  method Attach(rt: Runtime, cancel: Flag) returns (h: Handle)
    requires rt.Valid() && cancel < rt.flags
    modifies rt`states, rt`cancels, rt`live, rt`issued
    ensures rt.Valid() && h == rt.issued == old(rt.issued) + 1 && h !in old(rt.states) && h !in old(rt.cancels)
    ensures h in rt.states && rt.states[h] == EMPTY.(cancel := Some(cancel)) && rt.states - {h} == old(rt.states)
    ensures rt.cancels == old(rt.cancels)[h := cancel] && rt.live == old(rt.live) + 1
  {
    h := rt.NewHandle();
    rt.SetCancel(h, Some(cancel));
    PutThenTake(old(rt.states), h, EMPTY.(cancel := Some(cancel)));
    assert rt.states == old(rt.states)[h := EMPTY.(cancel := Some(cancel))];
  }

  /** The deferred calls, last one first: the flag goes before the handle. */
  method Detach(rt: Runtime, h: Handle)
    requires rt.Valid() && h in rt.states && h != 0 && rt.states[h].panic.None?
    modifies rt`states, rt`cancels, rt`live, rt`orphans
    ensures rt.Valid() && rt.states == old(rt.states) - {h} && rt.cancels == old(rt.cancels) - {h}
    ensures rt.live == old(rt.live) - 1 && rt.orphans == old(rt.orphans)
  {
    ghost var t := rt.states;
    rt.SetCancel(h, None);
    rt.DeleteHandle(h);
    assert rt.states == t - {h};
  }

  lemma FlagRaised(cancels: map<Handle, Flag>, cs: seq<Crossing>, h: Handle, flag: Flag)
    requires h in cancels && cancels[h] == flag && forall k | k in cancels && k != h :: cancels[k] != flag
    ensures flag in Raised(cancels, cs, h) <==> !AllFine(Of(cs, None))
  {
    assert Hits(cs, h, h) == Of(cs, None);
  }

  lemma OthersAfter(t: Table, u: Table, cs: seq<Crossing>, h: Handle)
    requires h !in t && h in u && u - {h} == t
    ensures After(u, cs, h) - {h} == After(t, cs, h)
    ensures After(u, cs, h)[h] == Recorded(u[h], Of(cs, None))
  {
    forall k | k in t ensures k in u && u[k] == t[k] {
      assert k in u - {h};
    }
  }

  lemma PutThenTake<V>(t: map<Handle, V>, h: Handle, v: V)
    requires h !in t
    ensures t[h := v] - {h} == t
  {}

  /** Native code runs with a new handle h, and the call takes out what its callback left. */
  method Enter(rt: Runtime, h: Handle, cs: seq<Crossing>, at: Option<nat>, flag: Flag, code: int, done: bool)
    returns (r: Result)
    requires rt.Valid() && h in rt.states && rt.states[h].panic.None? && rt.states[h].err.None?
    requires forall c | c in cs && c.target.Some? :: c.target.value != h
    requires at.Some? ==> at.value <= |cs| && flag < rt.flags
    modifies rt`states, rt`raised, rt`pending
    ensures rt.Valid() && h in rt.states && rt.states[h].panic.None?
    ensures r == Verdict(Recorded(EMPTY, Of(cs, None)), code, done)
    ensures rt.states - {h} == After(old(rt.states) - {h}, cs, h)
    ensures rt.raised == (old(rt.raised) + Raised(rt.cancels, cs, h)) + if at.Some? then {flag} else {}
  {
    ghost var t := rt.states;
    OthersAfter(t - {h}, t, cs, h);
    rt.RunNative(h, cs, at, flag);
    r := Conclude(rt, h, code, done);
  }

  method EnterFlagged(rt: Runtime, h: Handle, cancel: Flag, cs: seq<Crossing>, code: int, canceled: bool,
                      moment: Moment) returns (r: Result)
    requires rt.Valid() && h in rt.states && rt.states[h] == EMPTY.(cancel := Some(cancel))
    requires h in rt.cancels && rt.cancels[h] == cancel && cancel < rt.flags
    requires forall k | k in rt.cancels && k != h :: rt.cancels[k] != cancel
    requires forall c | c in cs && c.target.Some? :: c.target.value != h
    requires moment.During? ==> moment.crossings <= |cs|
    modifies rt`states, rt`raised, rt`pending
    ensures rt.Valid() && h in rt.states && rt.states[h].panic.None?
    ensures r == Verdict(Recorded(EMPTY, Of(cs, None)), code, canceled && SeenDone(moment))
    ensures rt.states - {h} == After(old(rt.states) - {h}, cs, h)
    ensures cancel in rt.raised <==> cancel in old(rt.raised) || moment.During? || !AllFine(Of(cs, None))
  {
    FlagRaised(rt.cancels, cs, h, cancel);
    var at := if moment.During? then Some(moment.crossings) else None;
    r := Enter(rt, h, cs, at, cancel, code, canceled && SeenDone(moment));
  }

  method ApplyGiven(rt: Runtime, cancel: Flag, cs: seq<Crossing>, code: int, canceled: bool, moment: Moment)
    returns (r: Result)
    requires rt.Valid() && Earlier(cs, rt.issued) && cancel < rt.flags && (moment.During? ==> moment.crossings <= |cs|)
    requires forall k | k in rt.cancels :: rt.cancels[k] != cancel
    modifies rt`states, rt`cancels, rt`raised, rt`pending, rt`live, rt`issued, rt`orphans
    ensures rt.Valid() && rt.live == old(rt.live) && rt.cancels == old(rt.cancels) && rt.orphans == old(rt.orphans)
    ensures r == Verdict(Recorded(EMPTY, Of(cs, None)), code, canceled && SeenDone(moment))
    ensures rt.states == After(old(rt.states), cs, old(rt.issued) + 1)
    ensures cancel in rt.raised <==> cancel in old(rt.raised) || moment.During? || !AllFine(Of(cs, None))
  {
    assert rt.issued + 1 !in rt.cancels;
    PutThenTake(rt.cancels, rt.issued + 1, cancel);
    var h := Attach(rt, cancel);
    r := EnterFlagged(rt, h, cancel, cs, code, canceled, moment);
    Detach(rt, h);
  }

  /** The call with its callback, and the context that becomes done on the way out. */
  method ApplyWatched(rt: Runtime, cancel: Flag, cs: seq<Crossing>, code: int, canceled: bool, moment: Moment)
    returns (r: Result)
    requires rt.Valid() && Earlier(cs, rt.issued) && cancel < rt.flags && (moment.During? ==> moment.crossings <= |cs|)
    requires (forall k | k in rt.cancels :: rt.cancels[k] != cancel) && (cancel in rt.raised <==> moment.Before?)
    modifies rt`states, rt`cancels, rt`raised, rt`pending, rt`live, rt`issued, rt`orphans
    ensures rt.Valid() && rt.live == old(rt.live) && rt.cancels == old(rt.cancels) && rt.orphans == old(rt.orphans)
    ensures r == Verdict(Recorded(EMPTY, Of(cs, None)), code, canceled && SeenDone(moment))
    ensures rt.states == After(old(rt.states), cs, old(rt.issued) + 1)
    ensures cancel in rt.raised <==> !moment.Never? || !AllFine(Of(cs, None))
  {
    r := ApplyGiven(rt, cancel, cs, code, canceled, moment);
    rt.RaiseWhen(moment.Back? || moment.Leaving?, cancel);
  }

  method ApplyCallback(rt: Runtime, cs: seq<Crossing>, code: int, canceled: bool, moment: Moment)
    returns (r: Result, ghost flag: Flag)
    requires rt.Valid() && Earlier(cs, rt.issued) && (moment.During? ==> moment.crossings <= |cs|)
    modifies rt
    ensures rt.Valid() && rt.live == old(rt.live) && rt.cancels == old(rt.cancels) && rt.orphans == old(rt.orphans)
    ensures r == Verdict(Recorded(EMPTY, Of(cs, None)), code, canceled && SeenDone(moment))
    ensures rt.states == After(old(rt.states), cs, old(rt.issued) + 1)
    ensures flag !in old(rt.raised) && (flag in rt.raised <==> !moment.Never? || !AllFine(Of(cs, None)))
  {
    var cancel := rt.NewFlag(moment.Before?);
    r := ApplyWatched(rt, cancel, cs, code, canceled, moment);
    flag := cancel;
  }

  /** `canceled` says that `code` is the one of ErrCanceled.  Other callbacks keep what they recorded; of this
      call nothing stays.  On every exit its flag was raised exactly when the context became done before the
      watch was stopped, or one of the call's own crossings did not end fine. */
  method ApplyUntilCancelled(rt: Runtime, given: bool, cs: seq<Crossing>, code: int, canceled: bool, moment: Moment)
    returns (r: Result, ghost flag: Flag)
    requires rt.Valid() && Earlier(cs, rt.issued) && (moment.During? ==> moment.crossings <= |cs|)
    modifies rt
    ensures rt.Valid() && rt.live == old(rt.live) && rt.cancels == old(rt.cancels) && rt.orphans == old(rt.orphans)
    ensures !given ==> r == NilCallback && rt.states == old(rt.states)
    ensures given ==> Tells(r, Of(cs, None), code, canceled && (moment.Before? || moment.During? || moment.Back?))
    ensures given ==> rt.states == After(old(rt.states), cs, old(rt.issued) + 1)
    ensures flag !in old(rt.raised)
    ensures flag in rt.raised <==> !moment.Never? || (given && !AllFine(Of(cs, None)))
  {
    if given {
      r, flag := ApplyCallback(rt, cs, code, canceled, moment);
      VerdictTells(Of(cs, None), code, canceled && SeenDone(moment));
    } else {
      var cancel := rt.NewFlag(moment.Before?);
      rt.RaiseWhen(!moment.Never?, cancel);
      r, flag := NilCallback, cancel;
    }
  }

  /** The context's own error is returned exactly when native code gave up with ErrCanceled, no callback
      panicked or failed, and the context was done by then; and then the flag had been raised. */
  lemma ContextErrorExactly(cs: seq<Crossing>, code: int, canceled: bool, moment: Moment)
    requires code != 0
    ensures Verdict(Recorded(EMPTY, Of(cs, None)), code, canceled && SeenDone(moment)).ContextDone?
            <==> canceled && !moment.Leaving? && !moment.Never? && AllFine(Of(cs, None))
    ensures SeenDone(moment) ==> !moment.Never?
  {
    FirstNone(Of(cs, None));
  }

  lemma {:induction false} FirstNone(es: seq<Ending>)
    ensures FirstPanic(es).None? && FirstError(es).None? <==> AllFine(es)
  {
    if es != [] {
      FirstNone(es[1..]);
      assert es[0] in es && forall e :: e in es <==> e == es[0] || e in es[1..];
    }
  }

  method NewGiven(rt: Runtime, cs: seq<Crossing>, code: int) returns (r: Result, h: Handle)
    requires rt.Valid() && Earlier(cs, rt.issued)
    modifies rt`states, rt`raised, rt`pending, rt`live, rt`issued
    ensures rt.Valid() && h == old(rt.issued) + 1 && h in rt.states && rt.states[h].panic.None?
    ensures r == Verdict(Recorded(EMPTY, Of(cs, None)), code, false)
    ensures rt.states - {h} == After(old(rt.states), cs, h) && rt.live == old(rt.live) + 1 && h !in rt.cancels
  {
    h := rt.NewHandle();
    PutThenTake(old(rt.states), h, EMPTY);
    r := Enter(rt, h, cs, None, 0, code, false);
  }

  /** The constructor keeps the handle for its context when it succeeds, and leaves it to nobody when it
      rethrows a callback panic: only an error deletes it. */
  method NewCallbackContext(rt: Runtime, given: bool, cs: seq<Crossing>, code: int) returns (r: Result, h: Handle)
    requires rt.Valid() && Earlier(cs, rt.issued)
    modifies rt
    ensures rt.Valid() && rt.cancels == old(rt.cancels) && rt.orphans == old(rt.orphans)
    ensures !given ==> r == NilCallback && rt.states == old(rt.states) && rt.live == old(rt.live)
    ensures given ==> Tells(r, Of(cs, None), code, false) && h == old(rt.issued) + 1
    ensures given ==> rt.states - {h} == After(old(rt.states), cs, h)
    ensures given ==> (h in rt.states <==> r.Returned? || r.Rethrown?)
    ensures given ==> rt.live == old(rt.live) + if r.Returned? || r.Rethrown? then 1 else 0
  {
    if !given { return NilCallback, 0; }
    r, h := NewGiven(rt, cs, code);
    VerdictTells(Of(cs, None), code, false);
    if r.CallbackFailed? || r.Failed? {
      rt.DeleteHandle(h);
      assert rt.states - {h} == rt.states;
    }
  }
}
