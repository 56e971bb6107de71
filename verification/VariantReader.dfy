/** Reading a tagged union through two separate native calls, while setters and a Close run in between.
    The first call returns a tag.  The second returns a status and a bare payload, which says nothing of the
    tag it belongs to; the variant is put together in Go from the tag of the one and the payload of the other. */
module VariantReader {

  datatype Tag =
    | NoneTag | IntegerTag | FlagTag | ModeTag | SamplesTag | ChildTag | MutableSamplesTag
    | UnknownTag(code: nat)

  /** A bare payload; a child is the address of its object. */
  datatype Payload = Nothing | Word(i: int) | Bool(b: bool) | Number(n: nat) | List(s: seq<int>) | Address(a: nat)

  /** What the union holds, and what the reader puts together: a tag beside a payload, of whatever origin. */
  datatype Variant = Variant(tag: Tag, payload: Payload)

  datatype Status = Success | Mismatched | Broken

  datatype Reply = Got(v: Variant) | Mismatch | Refused

  predicate Known(tag: Tag) { !tag.UnknownTag? }

  /** The value a payload reader returns beside a false match. */
  function Zero(tag: Tag): Payload {
    match tag
    case IntegerTag => Word(0)
    case FlagTag => Bool(false)
    case ModeTag => Number(0)
    case SamplesTag => List([])
    case MutableSamplesTag => List([])
    case ChildTag => Address(0)
    case _ => Nothing
  }

  /** A union holds one variant at a time; without a tag there is no payload. */
  predicate Sound(u: Variant) { u.tag.NoneTag? ==> u.payload == Nothing }

  /** The native projection for `tag`: what it leaves in its result on a mismatch is anyone's guess. */
  function Project(tag: Tag, u: Variant, stray: Payload, fails: bool): (Status, Payload) {
    if fails then (Broken, stray) else if u.tag == tag then (Success, u.payload) else (Mismatched, stray)
  }

  /** A payload reader: the payload, whether it matched, and whether it failed. */
  function ReadAs(tag: Tag, u: Variant, stray: Payload, fails: bool): (Payload, bool, bool) {
    match Project(tag, u, stray, fails)
    case (Success, payload) => (payload, true, false)
    case (Mismatched, _) => (Zero(tag), false, false)
    case (Broken, _) => (Zero(tag), false, true)
  }

  /** Where one reader is: before the tag read, between the reads, or returned. */
  datatype Reader = Start | Between(tag: Tag) | Ended(reply: Reply)

  /** `history` lists what the union has held, the present variant last; `tagAt` and `endAt` are the places
      in it at which the reader read the tag and returned. */
  datatype State = State(history: seq<Variant>, closed: bool, reader: Reader, tagAt: nat, endAt: nat)

  datatype Event = Set(u: Variant) | Close | Read(fails: bool, stray: Payload)

  function Now(s: State): Variant
    requires s.history != []
  {
    s.history[|s.history| - 1]
  }

  function ReadTag(s: State): State
    requires s.history != []
  {
    var here, tag := |s.history| - 1, Now(s).tag;
    if tag.NoneTag? then s.(reader := Ended(Got(Variant(NoneTag, Nothing))), tagAt := here, endAt := here)
    else if !Known(tag) then s.(reader := Ended(Mismatch), tagAt := here, endAt := here)
    else s.(reader := Between(tag), tagAt := here)
  }

  /** `tested` is the test of the match, which the reader makes. */
  function ReadPayload(s: State, tag: Tag, fails: bool, stray: Payload, tested: bool): State
    requires s.history != []
  {
    var (payload, matched, failed) := ReadAs(tag, Now(s), stray, fails);
    s.(endAt := |s.history| - 1,
       reader := Ended(if failed then Refused
                       else if tested && !matched then Mismatch
                       else Got(Variant(tag, payload))))
  }

  function Next(s: State, e: Event, tested: bool): State
    requires s.history != []
  {
    match e
    case Set(u) => s.(history := s.history + [u])
    case Close => s.(closed := true)
    case Read(fails, stray) =>
      match s.reader
      case Start => if s.closed || fails then s.(reader := Ended(Refused)) else ReadTag(s)
      case Between(tag) => if s.closed then s.(reader := Ended(Refused)) else ReadPayload(s, tag, fails, stray, tested)
      case Ended(_) => s
  }

  function Run(s: State, es: seq<Event>, tested: bool): (z: State)
    requires s.history != []
    ensures z.history != []
    decreases |es|
  {
    if es == [] then s else Run(Next(s, es[0], tested), es[1..], tested)
  }

  predicate SoundEvents(es: seq<Event>) { forall e | e in es && e.Set? :: Sound(e.u) }

  function Begin(u: Variant): State { State([u], false, Start, 0, 0) }

  predicate Inv(s: State) {
    && s.history != [] && (forall u | u in s.history :: Sound(u))
    && (s.reader.Between? ==>
          s.tagAt < |s.history| && s.history[s.tagAt].tag == s.reader.tag && Known(s.reader.tag) && !s.reader.tag.NoneTag?)
    && (s.reader.Ended? && !s.reader.reply.Refused? ==> s.tagAt <= s.endAt < |s.history|)
    && (s.reader.Ended? && s.reader.reply.Got? ==> s.reader.reply.v == s.history[s.endAt])
    && (s.reader.Ended? && s.reader.reply.Mismatch? ==>
          !Known(s.history[s.tagAt].tag) || s.history[s.tagAt].tag != s.history[s.endAt].tag)
  }

  lemma NextKeeps(s: State, e: Event)
    requires Inv(s) && (e.Set? ==> Sound(e.u))
    ensures Inv(Next(s, e, true))
  {
    assert Now(s) in s.history && Sound(Now(s));
    if e.Read? && s.reader.Between? && Now(s).tag == s.reader.tag {
      assert Now(s) == Variant(s.reader.tag, Now(s).payload);
    }
  }

  lemma {:induction false} RunKeeps(s: State, es: seq<Event>)
    requires Inv(s) && SoundEvents(es)
    ensures Inv(Run(s, es, true))
    decreases |es|
  {
    if es != [] {
      assert es[0] in es;
      NextKeeps(s, es[0]);
      RunKeeps(Next(s, es[0], true), es[1..]);
    }
  }

  /** Whatever setters run in between: the variant put together is the one the union held at the read that
      returned it, tag and payload; a mismatch says that no known tag was there at both reads. */
  lemma VariantLinearizes(u: Variant, es: seq<Event>)
    requires Sound(u) && SoundEvents(es)
    ensures var z := Run(Begin(u), es, true);
            && (z.reader.Ended? && z.reader.reply.Got? ==>
                  z.tagAt <= z.endAt < |z.history| && z.reader.reply.v == z.history[z.endAt])
            && (z.reader.Ended? && z.reader.reply.Mismatch? ==>
                  && z.tagAt <= z.endAt < |z.history|
                  && (!Known(z.history[z.tagAt].tag) || z.history[z.tagAt].tag != z.history[z.endAt].tag))
  {
    RunKeeps(Begin(u), es);
  }

  /** The test of the match is what keeps them together: without it one setter between the reads is enough
      for a variant that the union never held. */
  lemma UntestedMixes(stray: Payload)
    ensures var z := Run(Begin(Variant(IntegerTag, Word(7))),
                         [Read(false, stray), Set(Variant(FlagTag, Bool(true))), Read(false, stray)], false);
            && z.reader.Ended? && z.reader.reply.Got? && z.reader.reply.v !in z.history
            && z.reader.reply.v == Variant(IntegerTag, Zero(IntegerTag))
  {
    var s, r, w := Begin(Variant(IntegerTag, Word(7))), Read(false, stray), Set(Variant(FlagTag, Bool(true)));
    assert [r, w, r][1..] == [w, r] && [w, r][1..] == [r] && [r][1..] == [];
    var s1 := Next(s, r, false);
    var s2 := Next(s1, w, false);
    var s3 := Next(s2, r, false);
    assert Run(s, [r, w, r], false) == Run(s1, [w, r], false) == Run(s2, [r], false) == Run(s3, [], false) == s3;
    assert s3.history == [Variant(IntegerTag, Word(7)), Variant(FlagTag, Bool(true))];
  }

  // ----- every reply, exactly -----

  predicate NoRead(es: seq<Event>) { forall e | e in es :: !e.Read? }

  /** What the union holds after setters and a Close. */
  function Held(u: Variant, es: seq<Event>): Variant
    decreases |es|
  {
    if es == [] then u else Held(if es[0].Set? then es[0].u else u, es[1..])
  }

  /** The reply of the reader when the union is u at its first read and v at its second, and the handle is shut
      at the first or at the second. */
  function ReplyOf(u: Variant, v: Variant, shut: bool, fails: bool, shutLater: bool, failsLater: bool): Reply {
    if shut || fails then Refused
    else if u.tag.NoneTag? then Got(Variant(NoneTag, Nothing))
    else if !Known(u.tag) then Mismatch
    else if shutLater || failsLater then Refused
    else if v.tag == u.tag then Got(v)
    else Mismatch
  }

  lemma {:induction false} RunQuiet(s: State, es: seq<Event>)
    requires s.history != [] && NoRead(es)
    ensures var z := Run(s, es, true);
            && z.reader == s.reader && (z.closed <==> s.closed || Close in es) && Now(z) == Held(Now(s), es)
    decreases |es|
  {
    if es != [] {
      assert es[0] in es;
      RunQuiet(Next(s, es[0], true), es[1..]);
    }
  }

  lemma {:induction false} RunJoin(s: State, a: seq<Event>, b: seq<Event>)
    requires s.history != []
    ensures Run(s, a + b, true) == Run(Run(s, a, true), b, true)
    decreases |a|
  {
    if a == [] {
      assert a + b == b;
    } else {
      assert (a + b)[1..] == a[1..] + b;
      RunJoin(Next(s, a[0], true), a[1..], b);
    }
  }

  lemma RunRead(s: State, fails: bool, stray: Payload)
    requires s.history != []
    ensures Run(s, [Read(fails, stray)], true) == Next(s, Read(fails, stray), true)
  {
    assert [Read(fails, stray)][1..] == [];
  }

  /** The reply for any setters and Close before the first read and between the two: the variant when the handle
      is open and the tags of both reads agree, a mismatch when they do not or the tag is unknown, and a
      refusal exactly when a read it came to found the handle closed or failed. */
  lemma RepliesExactly(u: Variant, pre: seq<Event>, mid: seq<Event>, f: bool, x: Payload, g: bool, y: Payload)
    requires NoRead(pre) && NoRead(mid)
    ensures var at := Held(u, pre);
            Run(Begin(u), pre + ([Read(f, x)] + (mid + [Read(g, y)])), true).reader
            == Ended(ReplyOf(at, Held(at, mid), Close in pre, f, Close in pre || Close in mid, g))
  {
    var r, l := [Read(f, x)], [Read(g, y)];
    var s1 := Run(Begin(u), pre, true);
    RunQuiet(Begin(u), pre);
    RunJoin(Begin(u), pre, r + (mid + l));
    RunJoin(s1, r, mid + l);
    RunRead(s1, f, x);
    var s2 := Next(s1, r[0], true);
    RunJoin(s2, mid, l);
    RunQuiet(s2, mid);
    var s3 := Run(s2, mid, true);
    RunRead(s3, g, y);
    if s2.reader.Between? { assert Now(s3) == Variant(Now(s3).tag, Now(s3).payload); }
  }

  /** Two reads that nothing comes between return what the union holds, whenever the binding knows its tag. */
  lemma QuietRead(u: Variant, stray: Payload)
    requires Sound(u)
    ensures Run(Begin(u), [Read(false, stray), Read(false, stray)], true).reader
            == Ended(if Known(u.tag) then Got(u) else Mismatch)
  {
    var s, e := Begin(u), Read(false, stray);
    assert [e, e][1..] == [e] && [e][1..] == [];
    assert Run(s, [e, e], true) == Run(Next(s, e, true), [e], true);
    assert Run(Next(s, e, true), [e], true) == Run(Next(Next(s, e, true), e, true), [], true);
  }
}
