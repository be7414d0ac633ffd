/**
  The single slot holding the cancellation source of the current run, and the
  cancel-before-replace discipline that keeps it.
 */
module RunHandles {

  import opened Optional

  /** A cancellation source handed to one run; `id` tells sources apart. */
  datatype Handle = Handle(id: nat, cancelled: bool)

  /** Requesting cancellation; on a handle already cancelled it changes nothing. */
  function Cancel(h: Handle): (r: Handle)
    ensures r.id == h.id && r.cancelled
    ensures h.cancelled ==> r == h
  {
    h.(cancelled := true)
  }

  /**
    The slot: the current handle if any (`_cts`, null before the first run),
    every handle that has been dropped from it, and the next fresh id.
   */
  datatype Slot = Slot(current: Option<Handle>, retired: set<Handle>, nextId: nat)

  const EmptySlot: Slot := Slot(None, {}, 0)

  /**
    Ids are allocated upwards, the current handle is newer than every retired
    one, and no handle was dropped without being cancelled first.
   */
  predicate Valid(slot: Slot) {
    && (forall h | h in slot.retired :: h.cancelled && h.id < slot.nextId)
    && (slot.current.Some? ==>
          && slot.current.value.id < slot.nextId
          && forall h | h in slot.retired :: h.id < slot.current.value.id)
  }

  /** `_cts?.Cancel()`: cancel the current handle if there is one. */
  function CancelCurrent(slot: Slot): (r: Slot)
    ensures r.retired == slot.retired && r.nextId == slot.nextId
    ensures r.current.Some? <==> slot.current.Some?
    ensures r.current.Some? ==> r.current.value.cancelled && r.current.value.id == slot.current.value.id
  {
    match slot.current
    case None => slot
    case Some(h) => slot.(current := Some(Cancel(h)))
  }

  /**
    `_cts = new CancellationTokenSource()`: drop the current handle, install a
    fresh one. The new id was never used; the slot stays valid only if the
    dropped handle had been cancelled first.
   */
  function Install(slot: Slot): (r: Slot)
    ensures r.current == Some(Handle(slot.nextId, false))
    ensures r.nextId == slot.nextId + 1
    ensures slot.current.None? ==> r.retired == slot.retired
    ensures slot.current.Some? ==> r.retired == slot.retired + {slot.current.value}
    ensures Valid(slot) ==>
              && (forall h | h in slot.retired :: h.id != r.current.value.id)
              && (slot.current.Some? ==> slot.current.value.id != r.current.value.id)
    ensures Valid(slot) && (slot.current.Some? ==> slot.current.value.cancelled) ==> Valid(r)
    ensures slot.current.Some? && !slot.current.value.cancelled ==> !Valid(r)
  {
    var dropped := match slot.current
      case None => {}
      case Some(h) => {h};
    Slot(Some(Handle(slot.nextId, false)), slot.retired + dropped, slot.nextId + 1)
  }

  /**
    Cancel, then install: afterwards exactly one current handle exists, it is
    not cancelled and its id was never used before, and the previous current
    handle, if any, has been cancelled and retired.
   */
  function Replace(slot: Slot): (r: Slot)
    ensures r.current.Some? && !r.current.value.cancelled
    ensures r.current.value.id == slot.nextId && r.nextId == slot.nextId + 1
    ensures slot.current.Some? ==> r.retired == slot.retired + {Cancel(slot.current.value)}
    ensures slot.current.None? ==> r.retired == slot.retired
    ensures Valid(slot) ==> Valid(r)
    ensures Valid(slot) ==> r.current.value !in r.retired
    ensures Valid(slot) ==> forall h | h in slot.retired :: h.id != r.current.value.id
    ensures Valid(slot) && slot.current.Some? ==> slot.current.value.id != r.current.value.id
  {
    Install(CancelCurrent(slot))
  }

  /** Cancelling twice is the same as cancelling once. */
  lemma CancelIdempotent(h: Handle)
    ensures Cancel(Cancel(h)) == Cancel(h)
  {
  }
}
