/** A session adopts handles until it is closed, and closes each of them once, under any interleaving of
    AddStream and Close.  A step is one mutex section of the session, or one call of a member's Close. */
module Sessions {

  type Handle = nat

  /** How far the body that sync.Once runs has come.  A later Close waits for Finished. */
  datatype Once = Unstarted | Started | Closing(left: seq<Handle>) | Finished

  /** `late` are the handles AddStream was given after Close and has yet to close itself.  The rest records
      the run: the handles in the order of adoption, the calls Close made to their Close, in order, the calls
      AddStream made, and how often the primary was closed. */
  datatype State = State(streams: seq<Handle>, closed: bool, once: Once, late: multiset<Handle>,
                         adopted: seq<Handle>, log: seq<Handle>, lateLog: multiset<Handle>, primary: nat)

  const START := State([], false, Unstarted, multiset{}, [], [], multiset{}, 0)

  datatype Event =
    | Adopt(h: Handle)      // one round of AddStream's loop
    | CloseLate(h: Handle)
    | Begin                 // the first Close enters the once
    | TakeAll               // its section: marks the session closed and takes the list
    | CloseMember           // closes the most recent handle left
    | ClosePrimary

  predicate Enabled(s: State, e: Event) {
    match e
    case Adopt(_) => true
    case CloseLate(h) => h in s.late
    case Begin => s.once.Unstarted?
    case TakeAll => s.once.Started?
    case CloseMember => s.once.Closing? && s.once.left != []
    case ClosePrimary => s.once.Closing? && s.once.left == []
  }

  function Next(s: State, e: Event): State
    requires Enabled(s, e)
  {
    match e
    case Adopt(h) =>
      if s.closed then s.(late := s.late + multiset{h})
      else s.(streams := s.streams + [h], adopted := s.adopted + [h])
    case CloseLate(h) => s.(late := s.late - multiset{h}, lateLog := s.lateLog + multiset{h})
    case Begin => s.(once := Started)
    case TakeAll => s.(closed := true, once := Closing(s.streams), streams := [])
    case CloseMember =>
      var n := |s.once.left| - 1;
      s.(once := Closing(s.once.left[..n]), log := s.log + [s.once.left[n]])
    case ClosePrimary => s.(once := Finished, primary := s.primary + 1)
  }

  predicate Path(s: State, es: seq<Event>, z: State)
    decreases |es|
  {
    if es == [] then s == z else Enabled(s, es[0]) && Path(Next(s, es[0]), es[1..], z)
  }

  /** How often AddStream was given h in a run. */
  function Given(es: seq<Event>, h: Handle): nat {
    if es == [] then 0 else (if es[0] == Adopt(h) then 1 else 0) + Given(es[1..], h)
  }

  function Count(s: seq<Handle>, h: Handle): nat {
    if s == [] then 0 else (if s[0] == h then 1 else 0) + Count(s[1..], h)
  }

  lemma {:induction false} CountAppend(s: seq<Handle>, x: Handle, h: Handle)
    ensures Count(s + [x], h) == Count(s, h) + if x == h then 1 else 0
  {
    if s == [] {
      assert s + [x] == [x] && [x][1..] == [];
    } else {
      assert (s + [x])[1..] == s[1..] + [x];
      CountAppend(s[1..], x, h);
    }
  }

  function Reverse(s: seq<Handle>): seq<Handle> { if s == [] then [] else Reverse(s[1..]) + [s[0]] }

  lemma {:induction false} ReverseAppend(s: seq<Handle>, h: Handle)
    ensures Reverse(s + [h]) == [h] + Reverse(s)
  {
    if s == [] {
      assert s + [h] == [h] && [h][1..] == [];
    } else {
      assert (s + [h])[1..] == s[1..] + [h];
      ReverseAppend(s[1..], h);
    }
  }

  lemma {:induction false} ReverseTwice(s: seq<Handle>)
    ensures Reverse(Reverse(s)) == s
  {
    if s != [] {
      ReverseTwice(s[1..]);
      ReverseAppend(Reverse(s[1..]), s[0]);
      assert s == [s[0]] + s[1..];
    }
  }

  lemma {:induction false} CountReverse(s: seq<Handle>, h: Handle)
    ensures Count(Reverse(s), h) == Count(s, h)
  {
    if s != [] {
      CountReverse(s[1..], h);
      CountAppend(Reverse(s[1..]), s[0], h);
    }
  }

  predicate Inv(s: State) {
    && (s.closed <==> s.once.Closing? || s.once.Finished?)
    && (!s.closed ==> s.streams == s.adopted && s.log == [] && s.late == multiset{} && s.lateLog == multiset{})
    && (s.closed ==> s.streams == [])
    && (s.once.Closing? ==> s.adopted == s.once.left + Reverse(s.log))
    && (s.once.Finished? ==> s.adopted == Reverse(s.log))
    && s.primary == if s.once.Finished? then 1 else 0
  }

  /** How often h was given to AddStream, by what became of it. */
  function Booked(s: State, h: Handle): nat { Count(s.adopted, h) + s.late[h] + s.lateLog[h] }

  lemma NextBooks(s: State, e: Event, h: Handle)
    requires Enabled(s, e)
    ensures Booked(Next(s, e), h) == Booked(s, h) + if e == Adopt(h) then 1 else 0
  {
    if e.Adopt? && !s.closed { CountAppend(s.adopted, e.h, h); }
  }

  lemma NextKeeps(s: State, e: Event)
    requires Inv(s) && Enabled(s, e)
    ensures Inv(Next(s, e))
  {
    match e
    case CloseMember =>
      var n := |s.once.left| - 1;
      var h := s.once.left[n];
      ReverseAppend(s.log, h);
      assert s.once.left == s.once.left[..n] + [h];
      assert s.once.left[..n] + ([h] + Reverse(s.log)) == s.once.left + Reverse(s.log);
    case TakeAll => assert s.streams + Reverse([]) == s.streams;
    case ClosePrimary => assert [] + Reverse(s.log) == Reverse(s.log);
    case _ =>
  }

  lemma {:induction false} PathKeeps(s: State, es: seq<Event>, z: State)
    requires Inv(s) && Path(s, es, z)
    ensures Inv(z)
    decreases |es|
  {
    if es != [] {
      NextKeeps(s, es[0]);
      PathKeeps(Next(s, es[0]), es[1..], z);
    }
  }

  lemma {:induction false} PathBooks(s: State, es: seq<Event>, z: State, h: Handle)
    requires Path(s, es, z)
    ensures Booked(z, h) == Booked(s, h) + Given(es, h)
    decreases |es|
  {
    if es != [] {
      NextBooks(s, es[0], h);
      PathBooks(Next(s, es[0]), es[1..], z, h);
    }
  }

  /** Close calls the adopted handles' Close most recent first, each once, and then the primary's, once. */
  lemma ClosesInReverse(es: seq<Event>, z: State)
    requires Path(START, es, z)
    ensures z.once.Finished? ==> z.log == Reverse(z.adopted) && z.streams == [] && z.primary == 1
    ensures !z.once.Finished? ==> z.primary == 0
  {
    PathKeeps(START, es, z);
    ReverseTwice(z.log);
  }

  /** Once Close has returned and no late handle is left, every handle has been closed exactly as often as it
      was given to AddStream: by Close, or by AddStream itself when it came late. */
  lemma EveryAdoptionClosedOnce(es: seq<Event>, z: State, h: Handle)
    requires Path(START, es, z) && z.once.Finished? && z.late == multiset{}
    ensures Count(z.log, h) + z.lateLog[h] == Given(es, h)
  {
    PathKeeps(START, es, z);
    PathBooks(START, es, z, h);
    CountReverse(z.log, h);
  }
}
