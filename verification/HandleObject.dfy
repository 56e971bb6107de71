/** A generated handle as the object it is: fields updated in place under the handle's own mutex.
    Each method is one critical section.  It is proved to be the section function the protocol steps with,
    so what the protocol proves of every interleaving holds of these bodies. */
module HandleObject {
  import opened Wrappers
  import Sections
  import opened ProtocolInvariant
  import opened Protocol

  type Kind = Sections.Kind

  class HandleObject {
    const id: nat
    const kind: Kind
    /** The parent the handle was created with; `link` is this until the handle lets go of it. */
    const born: HandleObject?
    var ptr: bool
    var active: int
    var children: int
    var closed: bool
    var poison: Option<Sections.Cause>
    var link: HandleObject?
    var slots: seq<nat>
    var armed: bool

    static function IdOf(o: HandleObject?): Option<nat> { if o == null then None else Some(o.id) }

    ghost function Fields(): Sections.Handle
      reads this
    {
      Sections.Handle(ptr, active, children, closed, poison, IdOf(link), slots, armed)
    }

    /** What every section finds and leaves: the per-handle part of the protocol's invariant. */
    ghost predicate Valid()
      reads this
    {
      && HandleOk(Node(kind, IdOf(born)), Fields()) && (Sections.Linked(kind) <==> born != null)
      && (link == born || link == null) && 0 <= active && 0 <= children
    }

    constructor (id: nat, kind: Kind, parent: HandleObject?, slots: seq<nat>)
      requires Sections.Linked(kind) <==> parent != null
      requires |slots| == if kind.Queue? then 3 else 0
      ensures Valid() && Fields() == Sections.Fresh(kind, IdOf(parent), slots)
      ensures this.id == id && this.kind == kind && born == parent
    {
      this.id, this.kind, this.born := id, kind, parent;
      ptr, active, children, closed, poison := true, 0, 0, false, None;
      link, this.slots, armed := parent, slots, Sections.Owned(kind);
    }

    /** The section of an acquire that pins.  A view is asked to keep a reservation itself only once it has
        lost its owner, and it is refused then. */
    method Pin(reserve: bool) returns (refusal: Option<Sections.Refusal>)
      requires Valid() && (reserve ==> Sections.Reserves(kind) || (kind.View? && link == null))
      modifies this
      ensures Valid() && (refusal.None? <==> !old(closed) && old(ptr) && old(poison).None?)
      ensures refusal == Some(Sections.Invalid) <==> old(closed) || !old(ptr)
      ensures refusal.Some? && !old(closed) && old(ptr) ==> refusal == Some(Sections.Unusable(old(poison).value))
      ensures refusal.Some? ==> Fields() == old(Fields())
      ensures refusal.None? ==> active == old(active) + 1 && children == old(children) + if reserve then 1 else 0
      ensures refusal.None? ==> Fields() == old(Fields()).(active := active, children := children)
      ensures refusal == Sections.Refused(old(Fields()))
      ensures refusal.None? ==> Fields() == Sections.Pinned(old(Fields()), reserve)
    {
      if closed || !ptr { return Some(Sections.Invalid); }
      if poison.Some? { return Some(Sections.Unusable(poison.value)); }
      active := active + 1;
      if reserve { children := children + 1; }
      return None;
    }

    /** Hands out what is left to release; the caller holds the mutex and owns an object. */
    method TakeLocked() returns (taken: Sections.Taken)
      requires Sections.Owned(kind)
      modifies this
      ensures taken.Taken? <==> old(closed) && old(active) == 0 && old(ptr)
      ensures taken.Taken? ==> taken == Sections.Taken(old(poison).None?, IdOf(old(link)), old(slots))
      ensures taken.Taken? ==> link == null && Fields() == old(Fields()).(ptr := false, link := None, slots := [])
      ensures !taken.Taken? ==> link == old(link) && Fields() == old(Fields())
      ensures (Fields(), taken) == Sections.TakeLocked(kind, old(Fields()))
    {
      if !closed || active != 0 || !ptr { return Sections.Nothing; }
      taken := Sections.Taken(true, IdOf(link), slots);
      ptr, link, slots := false, null, [];
      if poison.Some? { taken := taken.(free := false); }
    }

    /** The section of a release, which also captures the parent to release next. */
    method Unpin() returns (parent: HandleObject?, taken: Sections.Taken)
      requires Valid() && active > 0
      modifies this
      ensures Valid() && parent == old(link) && parent == born && active == old(active) - 1
      ensures taken.Taken? <==> Sections.Owned(kind) && closed && active == 0
      ensures taken.Taken? ==> taken == Sections.Taken(old(poison).None?, IdOf(old(link)), old(slots))
      ensures Fields() == if taken.Taken? then old(Fields()).(active := 0, ptr := false, link := None, slots := [])
                          else old(Fields()).(active := active)
      ensures (Fields(), taken) == Sections.Unpinned(kind, old(Fields()))
    {
      active := active - 1;
      parent := link;
      taken := Sections.Nothing;
      if !kind.View? { taken := TakeLocked(); }
    }

    /** The section of a close.  A refused close changes nothing; an accepted one takes the object exactly
        when nobody is inside. */
    method Close() returns (refusal: Option<Sections.Refusal>, taken: Sections.Taken)
      requires Valid()
      modifies this
      ensures Valid() && (closed <==> refusal.None?) && active == old(active) && children == old(children)
      ensures refusal.Some? <==> !old(closed) && (((kind.Queue? || kind.Box?) && children != 0)
                                                  || ((kind.Box? || kind.View?) && active != 0))
      ensures refusal.Some? ==>
                refusal == Some(Sections.InUse(if kind.View? || children == 0 then active else children))
      ensures refusal.Some? || old(closed) ==> Fields() == old(Fields()) && taken.Nothing?
      ensures refusal.None? && !old(closed) ==>
                && !armed && poison == old(poison) && (ptr <==> old(ptr) && Sections.Owned(kind) && active != 0)
                && (taken.Taken? <==> Sections.Owned(kind) && old(ptr) && !ptr)
                && (taken.Taken? ==> taken == Sections.Taken(poison.None?, IdOf(old(link)), old(slots)))
                && link == (if kind.View? || taken.Taken? then null else old(link))
                && slots == (if taken.Taken? then [] else old(slots))
      ensures refusal == Sections.CloseRefused(kind, old(Fields()))
      ensures (Fields(), taken) == Sections.Closed(kind, old(Fields()))
    {
      refusal, taken := None, Sections.Nothing;
      if closed { return; }
      if (kind.Queue? || kind.Box?) && children != 0 { return Some(Sections.InUse(children)), taken; }
      if (kind.Box? || kind.View?) && active != 0 { return Some(Sections.InUse(active)), taken; }
      closed := true;
      if kind.View? {
        ptr, link := false, null;
      } else {
        armed := false;
        taken := TakeLocked();
      }
    }

    /** The section of a poisoning, which captures the parent to poison next. */
    method Poison(cause: Sections.Cause) returns (parent: HandleObject?)
      requires Valid()
      modifies this
      ensures Valid() && parent == old(link) && link == old(link)
      ensures poison == (if old(poison).Some? then old(poison) else Some(cause)) && !armed
      ensures Fields() == old(Fields()).(poison := poison, armed := false)
      ensures Fields() == Sections.Poisoned(old(Fields()), cause)
    {
      parent := link;
      if poison.None? {
        poison, armed := Some(cause), false;
      }
    }

    /** Gives one reservation back; the protocol shows that the section only runs with one outstanding. */
    method DropChild()
      requires Valid() && children > 0
      modifies this
      ensures Valid() && Fields() == old(Fields()).(children := old(children) - 1)
      ensures Fields() == Sections.Dropped(old(Fields()))
    {
      children := children - 1;
    }

    /** Swaps one callback slot; a pin keeps the slots from being taken. */
    method ReplaceSlot(slot: nat, handle: nat) returns (previous: nat)
      requires Valid() && kind.Queue? && active > 0 && slot < 3
      modifies this
      ensures Valid() && previous == old(slots)[slot]
      ensures Fields() == old(Fields()).(slots := old(slots)[slot := handle])
    {
      previous := slots[slot];
      slots := slots[slot := handle];
    }

    /** The first section of an acquire of a view or child. */
    method ReadLink() returns (parent: HandleObject?)
      requires Valid()
      ensures parent == link && (parent == null && born != null ==> !ptr)
    {
      parent := link;
    }
  }

  /** One uncontended call on a handle without a parent: the pin and its release cancel out. */
  method PinThenUnpin(h: HandleObject, reserve: bool) returns (refusal: Option<Sections.Refusal>)
    requires h.Valid() && (reserve ==> Sections.Reserves(h.kind))
    modifies h
    ensures refusal == Sections.Refused(old(h.Fields()))
    ensures h.Valid() && h.Fields() == old(h.Fields())
  {
    refusal := h.Pin(reserve);
    if refusal.Some? { return; }
    var parent, taken := h.Unpin();
    if reserve { h.DropChild(); }
  }
}
