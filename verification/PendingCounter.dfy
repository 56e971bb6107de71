/** The counter in front of the sweep, under concurrency.
    Recording and taking a panic each change the state first and the counter second, under the state's
    mutex; the look at the counter takes no mutex and may fall in between. */
module PendingCounter {

  datatype Phase = Idle | Adding | Removing

  /** One callback state: whether it holds a panic nobody has taken, and how far its mutex section is. */
  datatype Cell = Cell(panicked: bool, phase: Phase)

  /** `recorded` and `taken` count finished sections.  Deleting a handle touches none of this: a panic its
      state holds stays counted. */
  datatype State = State(cells: seq<Cell>, pending: int, recorded: nat, taken: nat)

  datatype Event =
    | New
    | Record(i: nat)   // locks the state and sets the panic, unless one is held already
    | Add(i: nat)      // counts it and unlocks
    | Take(i: nat)     // locks the state and clears the panic, if one is held
    | Remove(i: nat)   // uncounts it and unlocks

  predicate Enabled(s: State, e: Event) {
    match e
    case New => true
    case Record(i) => i < |s.cells| && s.cells[i].phase.Idle?
    case Add(i) => i < |s.cells| && s.cells[i].phase.Adding?
    case Take(i) => i < |s.cells| && s.cells[i].phase.Idle?
    case Remove(i) => i < |s.cells| && s.cells[i].phase.Removing?
  }

  function Next(s: State, e: Event): State
    requires Enabled(s, e)
  {
    match e
    case New => s.(cells := s.cells + [Cell(false, Idle)])
    case Record(i) => if s.cells[i].panicked then s else s.(cells := s.cells[i := Cell(true, Adding)])
    case Add(i) => s.(cells := s.cells[i := s.cells[i].(phase := Idle)], pending := s.pending + 1, recorded := s.recorded + 1)
    case Take(i) => if s.cells[i].panicked then s.(cells := s.cells[i := Cell(false, Removing)]) else s
    case Remove(i) => s.(cells := s.cells[i := s.cells[i].(phase := Idle)], pending := s.pending - 1, taken := s.taken + 1)
  }

  const START := State([], 0, 0, 0)

  predicate Path(s: State, es: seq<Event>, z: State)
    decreases |es|
  {
    if es == [] then s == z else Enabled(s, es[0]) && Path(Next(s, es[0]), es[1..], z)
  }

  ghost predicate Reachable(z: State) { exists es :: Path(START, es, z) }

  /** What a state adds to the counter: a panic that is set and counted, or cleared and still counted. */
  function Share(c: Cell): nat { if (c.panicked && !c.phase.Adding?) || c.phase.Removing? then 1 else 0 }

  function Shares(cs: seq<Cell>): nat { if cs == [] then 0 else Share(cs[0]) + Shares(cs[1..]) }

  predicate CellOk(c: Cell) { (c.phase.Adding? ==> c.panicked) && (c.phase.Removing? ==> !c.panicked) }

  predicate Inv(s: State) {
    && s.pending == Shares(s.cells) && s.pending == s.recorded - s.taken
    && forall i | 0 <= i < |s.cells| :: CellOk(s.cells[i])
  }

  lemma {:induction false} SharesUpdate(cs: seq<Cell>, i: nat, c: Cell)
    requires i < |cs|
    ensures Shares(cs[i := c]) == Shares(cs) - Share(cs[i]) + Share(c)
  {
    if i == 0 {
      assert cs[0 := c][1..] == cs[1..];
    } else {
      assert cs[i := c][1..] == cs[1..][i - 1 := c];
      SharesUpdate(cs[1..], i - 1, c);
    }
  }

  lemma {:induction false} SharesAppend(cs: seq<Cell>, c: Cell)
    ensures Shares(cs + [c]) == Shares(cs) + Share(c)
  {
    if cs == [] {
      assert cs + [c] == [c] && [c][1..] == [];
    } else {
      assert (cs + [c])[1..] == cs[1..] + [c];
      SharesAppend(cs[1..], c);
    }
  }

  lemma {:induction false} ShareBelow(cs: seq<Cell>, i: nat)
    requires i < |cs|
    ensures Share(cs[i]) <= Shares(cs)
  {
    if i > 0 { ShareBelow(cs[1..], i - 1); }
  }

  lemma NextKeeps(s: State, e: Event)
    requires Inv(s) && Enabled(s, e)
    ensures Inv(Next(s, e))
  {
    match e
    case New => SharesAppend(s.cells, Cell(false, Idle));
    case Record(i) => SharesUpdate(s.cells, i, Cell(true, Adding));
    case Add(i) => SharesUpdate(s.cells, i, s.cells[i].(phase := Idle));
    case Take(i) => SharesUpdate(s.cells, i, Cell(false, Removing));
    case Remove(i) => SharesUpdate(s.cells, i, s.cells[i].(phase := Idle));
  }

  lemma {:induction false} PathKeeps(s: State, es: seq<Event>, z: State)
    requires Inv(s) && Path(s, es, z)
    ensures Inv(z)
    decreases |es|
  {
    if es != [] {
      NextKeeps(s, es[0]);
      PathKeeps(Next(s, es[0]), es[1..], z);
    }
  }

  lemma {:induction false} ReachableInv(z: State)
    requires Reachable(z)
    ensures Inv(z)
  {
    var es :| Path(START, es, z);
    StartInv();
    PathKeeps(START, es, z);
  }

  lemma StartInv()
    ensures Inv(START)
  {}

  /** The counter is never negative, and counts what was recorded and not taken. */
  lemma {:induction false} CounterExact(z: State)
    requires Reachable(z)
    ensures z.pending == Shares(z.cells) == z.recorded - z.taken >= 0
  {
    ReachableInv(z);
  }

  /** A panic whose recording is finished is never missed: while it is untaken the counter is not zero, so a
      caller that reads zero would have found nothing to rethrow in any state it had finished recording. */
  lemma {:induction false} FastPathMissesNothing(z: State, i: nat)
    requires Reachable(z) && i < |z.cells| && z.cells[i].panicked && !z.cells[i].phase.Adding?
    ensures z.pending > 0
  {
    CounterExact(z);
    ShareBelow(z.cells, i);
  }

  /** While no section is open the counter is zero exactly when no state holds a panic. */
  lemma {:induction false} ZeroExactly(z: State)
    requires Reachable(z) && forall i | 0 <= i < |z.cells| :: z.cells[i].phase.Idle?
    ensures z.pending == 0 <==> forall i | 0 <= i < |z.cells| :: !z.cells[i].panicked
  {
    CounterExact(z);
    if z.pending == 0 {
      forall i | 0 <= i < |z.cells| ensures !z.cells[i].panicked { ShareBelow(z.cells, i); }
    } else if forall i | 0 <= i < |z.cells| :: !z.cells[i].panicked {
      NoShares(z.cells);
    }
  }

  lemma {:induction false} NoShares(cs: seq<Cell>)
    requires forall i | 0 <= i < |cs| :: Share(cs[i]) == 0
    ensures Shares(cs) == 0
  {
    if cs != [] { NoShares(cs[1..]); }
  }
}
