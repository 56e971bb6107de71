/** The mutex-protected sections of the generated handles.
    Every operation on a handle is a series of short sections, each under that handle's own mutex and
    never under two.  One function per section maps the fields before it to the fields after it. */
module Sections {
  import opened Wrappers

  /** Queue, Box and Terminal own a native object and have no parent; a Child (Stream, BorrowChild)
      owns one and holds a reservation on its parent; a View borrows the object of its owner. */
  datatype Kind = Queue | Box | Terminal | View | Child

  predicate Owned(kind: Kind) { !kind.View? }

  predicate Linked(kind: Kind) { kind.View? || kind.Child? }

  /** The kinds on which a reservation can be recorded. */
  predicate Reserves(kind: Kind) { kind.Queue? || kind.Box? }

  type Cause = string

  /** The mutable fields of one handle.  `link` is the field `owner` of a View and `parent` of a
      Child, `armed` says that the garbage-collection cleanup has not been stopped, and slot value 0
      is the empty callback slot. */
  datatype Handle = Handle(ptr: bool, active: int, children: int, closed: bool, poison: Option<Cause>,
                           link: Option<nat>, slots: seq<nat>, armed: bool)

  datatype Refusal = Invalid | Unusable(cause: Cause) | InUse(count: int)

  /** What a section hands out for release after the mutex is dropped. */
  datatype Taken = Nothing | Taken(free: bool, parent: Option<nat>, slots: seq<nat>)

  function Fresh(kind: Kind, link: Option<nat>, slots: seq<nat>): Handle {
    Handle(true, 0, 0, false, None, link, slots, Owned(kind))
  }

  function Refused(h: Handle): Option<Refusal> {
    if h.closed || !h.ptr then Some(Invalid)
    else if h.poison.Some? then Some(Unusable(h.poison.value))
    else None
  }

  function Pinned(h: Handle, reserve: bool): Handle {
    h.(active := h.active + 1, children := if reserve then h.children + 1 else h.children)
  }

  function TakeLocked(kind: Kind, h: Handle): (Handle, Taken) {
    if !Owned(kind) || !h.closed || h.active != 0 || !h.ptr then (h, Nothing)
    else (h.(ptr := false, link := None, slots := []), Taken(h.poison.None?, h.link, h.slots))
  }

  function Unpinned(kind: Kind, h: Handle): (Handle, Taken) {
    TakeLocked(kind, h.(active := h.active - 1))
  }

  function CloseRefused(kind: Kind, h: Handle): Option<Refusal> {
    if h.closed then None
    else if Reserves(kind) && h.children != 0 then Some(InUse(h.children))
    else if (kind.Box? || kind.View?) && h.active != 0 then Some(InUse(h.active))
    else None
  }

  function Closed(kind: Kind, h: Handle): (Handle, Taken) {
    if h.closed || CloseRefused(kind, h).Some? then (h, Nothing)
    else if kind.View? then (h.(closed := true, ptr := false, link := None), Nothing)
    else TakeLocked(kind, h.(closed := true, armed := false))
  }

  function Poisoned(h: Handle, cause: Cause): Handle {
    if h.poison.None? then h.(poison := Some(cause), armed := false) else h
  }

  function Dropped(h: Handle): Handle { h.(children := h.children - 1) }

  /** The garbage collector reclaims a handle nobody closed; the cleanup receives what Close would
      have taken. */
  predicate Collectable(h: Handle) { h.armed && h.ptr && h.active == 0 && h.children == 0 }

  function Collected(h: Handle): (Handle, Taken) {
    (h.(ptr := false, link := None, slots := [], armed := false), Taken(true, h.link, h.slots))
  }
}
