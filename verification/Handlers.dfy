/** The handlers of asynchronous creation as they run undisturbed, on the promise list and the
    promises themselves.

    Module AsyncCreate cuts the same handlers into steps and interleaves them; `Shows` says when
    a state of that machine and the objects here agree on what is listed. */
module Handlers {
  import opened Wrappers
  import opened Promises
  import A = AsyncCreate
  import AsyncLimits

  class VolumeServer {
    const list: PromiseList

    constructor ()
      ensures Valid() && fresh(list) && Listed() == map[]
    {
      list := new PromiseList();
    }

    /** Each promise is listed under one handle only. */
    ghost predicate Valid()
      reads list
    {
      forall h, k | h in list.promises && k in list.promises && list.promises[h] == list.promises[k] :: h == k
    }

    ghost function Objects(): set<object>
      reads list
    {
      set h | h in list.promises :: list.promises[h]
    }

    /** The listed handles with the promises as they stand. */
    ghost function Listed(): map<Handle, Cell>
      reads list, Objects()
    {
      map h | h in list.promises :: list.promises[h].View()
    }

    /** A handle with a promise is refused; otherwise a pending promise is listed. */
    method CreateVolumeAsync(h: Handle) returns (p: Promise?)
      requires Valid()
      modifies list
      ensures Valid() && (p == null <==> h in old(Listed()))
      ensures p != null ==> fresh(p) && h in list.promises && list.promises[h] == p
      ensures Listed() == if p == null then old(Listed()) else old(Listed())[h := NEW_CELL]
    {
      var promise := new Promise();
      var added := list.AddPromise(h, promise);
      p := if added then promise else null;
    }

    /** Whoever still has the promise afterwards finds it settled, canceled if it was pending;
        nobody finds it in the list. */
    method CreateVolumeAsyncCancel(h: Handle) returns (r: A.Reply)
      requires Valid()
      modifies list, Objects()
      ensures Valid() && Listed() == old(Listed()) - {h}
      ensures r == if h in old(Listed()) then A.NoContent else A.NotFound
      ensures h in old(Listed()) ==>
        old(list.promises[h]).View() == if old(Listed())[h].Pending() then A.CANCELED_CELL else old(Listed())[h]
    {
      var promise := list.GetPromise(h);
      if promise == null {
        return A.NotFound;
      }
      var pending := promise.IsPending();
      if pending {
        var err := promise.Reject(PromiseCanceled);
        if err.Some? { return A.InternalError; }
      }
      list.RemovePromise(h);
      return A.NoContent;
    }

    method CreateVolumeAsyncCheck(h: Handle) returns (r: A.Reply)
      requires Valid()
      ensures r ==
        if h !in Listed() then A.NotFound
        else if Listed()[h].Pending() then A.NoContent
        else A.Settled(Listed()[h])
    {
      var promise := list.GetPromise(h);
      if promise == null {
        return A.NotFound;
      }
      var pending := promise.IsPending();
      if pending {
        return A.NoContent;
      }
      var v, e, pe := promise.GetValue();
      if pe.Some? {
        return A.InternalError;
      }
      return A.Settled(Cell(v, e));
    }
  }

  /** What is listed in a state of the interleaved machine. */
  function Shows(s: A.State): map<Handle, Cell> {
    map h | h in s.list :: A.CellAt(s, s.list[h])
  }

  lemma ListedOnce(s: A.State)
    requires AsyncLimits.Reachable(s)
    ensures forall h <- s.list :: s.list[h] in s.tasks && s.tasks[s.list[h]].h == h
  {
    var states, actions :| A.Run(states, actions) && states[|actions|] == s;
    forall h | h in s.list ensures s.list[h] in s.tasks && s.tasks[s.list[h]].h == h {
      A.ListedOnce(states, actions, |actions|, h);
    }
  }

  /** An uninterrupted submission in the machine lists what the handler lists. */
  lemma SubmitMatches(s: A.State, t: A.Tid, h: Handle) returns (s': A.State)
    requires AsyncLimits.Reachable(s) && t !in s.tasks && h !in s.list
    ensures AsyncLimits.Reachable(s') && Shows(s') == Shows(s)[h := NEW_CELL]
  {
    ListedOnce(s);
    s' := AsyncLimits.Submitted(s, t, h);
  }

  /** An uninterrupted cancel in the machine does what the handler does. */
  lemma CancelMatches(s: A.State, t: A.Tid, h: Handle) returns (s': A.State)
    requires AsyncLimits.Reachable(s) && t !in s.tasks
    ensures AsyncLimits.Reachable(s') && Shows(s') == Shows(s) - {h}
    ensures t in s'.tasks && s'.tasks[t] == A.Replied(h, if h in Shows(s) then A.NoContent else A.NotFound)
    ensures h in s.list ==>
      A.CellAt(s', s.list[h]) == if Shows(s)[h].Pending() then A.CANCELED_CELL else Shows(s)[h]
  {
    ListedOnce(s);
    s' := AsyncLimits.CancelAlone(s, t, h);
  }

  /** An uninterrupted check in the machine replies what the handler replies. */
  lemma CheckMatches(s: A.State, t: A.Tid, h: Handle) returns (s': A.State)
    requires AsyncLimits.Reachable(s) && t !in s.tasks
    ensures AsyncLimits.Reachable(s') && Shows(s') == Shows(s) && t in s'.tasks
    ensures s'.tasks[t] == A.Replied(h,
      if h !in Shows(s) then A.NotFound
      else if Shows(s)[h].Pending() then A.NoContent
      else A.Settled(Shows(s)[h]))
  {
    s' := AsyncLimits.CheckAlone(s, t, h);
  }
}
