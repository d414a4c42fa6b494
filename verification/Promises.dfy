/** Promises for volumes being created, and the list that maps handles to them. */
module Promises {
  import opened Wrappers

  datatype Volume = Volume(handle: Handle, path: string)
  datatype Error = PromiseCanceled | CreationError(message: string)
  datatype PromiseError = Canceled | NotPending | StillPending

  /** The two fields of a promise; it is pending while neither is set. */
  datatype Cell = Cell(volume: Option<Volume>, err: Option<Error>) {
    predicate Pending() {
      volume.None? && err.None?
    }
  }

  const NEW_CELL := Cell(None, None)

  function FulfillCell(c: Cell, v: Volume): (Cell, Option<PromiseError>) {
    if c.Pending() then (c.(volume := Some(v)), None)
    else (c, Some(if c.err == Some(PromiseCanceled) then Canceled else NotPending))
  }

  function RejectCell(c: Cell, e: Error): (Cell, Option<PromiseError>) {
    if c.Pending() then (c.(err := Some(e)), None) else (c, Some(NotPending))
  }

  class Promise {
    var volume: Option<Volume>
    var err: Option<Error>

    ghost function View(): Cell
      reads this
    {
      Cell(volume, err)
    }

    constructor ()
      ensures View() == NEW_CELL
    {
      volume, err := None, None;
    }

    method IsPending() returns (r: bool)
      ensures r <==> View().Pending()
    {
      r := volume.None? && err.None?;
    }

    method GetValue() returns (v: Option<Volume>, e: Option<Error>, pe: Option<PromiseError>)
      ensures pe == if View().Pending() then Some(StillPending) else None
      ensures pe.None? ==> Cell(v, e) == View()
      ensures pe.Some? ==> v.None? && e.None?
    {
      var pending := IsPending();
      if pending {
        return None, None, Some(StillPending);
      }
      return volume, err, None;
    }

    /** The first settlement stands: a settled promise refuses and does not change. */
    method Fulfill(v: Volume) returns (pe: Option<PromiseError>)
      modifies this
      ensures (View(), pe) == FulfillCell(old(View()), v)
    {
      if volume.Some? || err.Some? {
        if err == Some(PromiseCanceled) {
          return Some(Canceled);
        }
        return Some(NotPending);
      }
      volume := Some(v);
      return None;
    }

    method Reject(e: Error) returns (pe: Option<PromiseError>)
      modifies this
      ensures (View(), pe) == RejectCell(old(View()), e)
    {
      if volume.Some? || err.Some? {
        return Some(NotPending);
      }
      err := Some(e);
      return None;
    }
  }

  /** The list keeps at most one promise for each handle. */
  class PromiseList {
    var promises: map<Handle, Promise>

    constructor ()
      ensures promises == map[]
    {
      promises := map[];
    }

    method AddPromise(handle: Handle, p: Promise) returns (added: bool)
      modifies this
      ensures added <==> handle !in old(promises)
      ensures promises == if added then old(promises)[handle := p] else old(promises)
    {
      added := handle !in promises;
      if added { promises := promises[handle := p]; }
    }

    method GetPromise(handle: Handle) returns (p: Promise?)
      ensures p == if handle in promises then promises[handle] else null
    {
      p := if handle in promises then promises[handle] else null;
    }

    method RemovePromise(handle: Handle)
      modifies this
      ensures promises == old(promises) - {handle}
    {
      promises := promises - {handle};
    }
  }
}
