/** When the promise of an asynchronous creation can be found.

    A cancel removes whatever promise its handle has at that time, which need not be the one it
    got and canceled. */
module AsyncLimits {
  import opened Wrappers
  import opened Promises
  import opened AsyncCreate

  /** The step by which a creation gets its promise listed. */
  predicate Accepts(s: State, a: Action, t: Tid, h: Handle) {
    a.Do? && a.t == t && t in s.tasks && s.tasks[t] == Submit(h) && h !in s.list
  }

  /** The last step of a cancel of a handle. */
  predicate Removes(s: State, a: Action, h: Handle) {
    a.Do? && a.t in s.tasks && s.tasks[a.t] == CancelRemove(h)
  }

  predicate Finds(s: State, h: Handle, t: Tid) {
    h in s.list && s.list[h] == t
  }

  lemma PastSubmitStays(s: State, a: Action, t: Tid)
    requires Enabled(s, a) && t in s.tasks && !s.tasks[t].Submit?
    ensures t in Apply(s, a).tasks && !Apply(s, a).tasks[t].Submit?
  {}

  lemma FindsAfter(s: State, a: Action, t: Tid, h: Handle)
    requires Enabled(s, a) && t in s.tasks && !s.tasks[t].Submit?
    ensures Finds(Apply(s, a), h, t) <==> Finds(s, h, t) && !Removes(s, a, h)
  {}

  lemma {:induction false} PastSubmit(states: seq<State>, actions: seq<Action>, k: nat, i: nat, t: Tid, h: Handle)
    requires Run(states, actions) && k < i < |states| && Accepts(states[k], actions[k], t, h)
    ensures t in states[i].tasks && !states[i].tasks[t].Submit?
    decreases i
  {
    if i > k + 1 {
      PastSubmit(states, actions, k, i - 1, t, h);
      PastSubmitStays(states[i - 1], actions[i - 1], t);
    }
  }

  /** The promise of an accepted creation is found under its handle exactly until some cancel of
      that handle gets to its last step, whichever promise that cancel has canceled. */
  lemma {:induction false} FoundExact(states: seq<State>, actions: seq<Action>, k: nat, i: nat, t: Tid, h: Handle)
    requires Run(states, actions) && k < i < |states| && Accepts(states[k], actions[k], t, h)
    ensures Finds(states[i], h, t) <==> forall j | k < j < i :: !Removes(states[j], actions[j], h)
    decreases i
  {
    if i > k + 1 {
      FoundExact(states, actions, k, i - 1, t, h);
      PastSubmit(states, actions, k, i - 1, t, h);
      FindsAfter(states[i - 1], actions[i - 1], t, h);
    }
  }

  /******* A cancel that nothing interrupts *******/

  /** What a cancel does on its own: the handle's promise is settled, by canceling it if it was
      pending, and no longer listed. */
  lemma CancelAlone(s: State, t: Tid, h: Handle) returns (s': State)
    requires Reachable(s) && t !in s.tasks
    ensures Reachable(s') && s'.live == s.live
    ensures h !in s.list ==> s'.list == s.list && s'.cells == s.cells && s'.tasks == s.tasks[t := Replied(h, NotFound)]
    ensures h in s.list ==>
      && s'.list == s.list - {h} && s'.tasks == s.tasks[t := Replied(h, NoContent)]
      && s'.cells == if CellAt(s, s.list[h]).Pending() then s.cells[s.list[h] := CANCELED_CELL] else s.cells
  {
    if h in s.list {
      s' := CancelGot(s, t, h);
      if CellAt(s, s.list[h]).Pending() {
        s' := CancelRejected(s', t, h, s.list[h]);
      } else {
        s' := CancelPassed(s', t, h, s.list[h]);
      }
      s' := CancelRemoved(s', t, h);
    } else {
      s' := CancelMissed(s, t, h);
    }
  }

  /** What a check replies on its own. */
  lemma CheckAlone(s: State, t: Tid, h: Handle) returns (s': State)
    requires Reachable(s) && t !in s.tasks
    ensures Reachable(s') && s'.live == s.live && s'.list == s.list && s'.cells == s.cells
    ensures s'.tasks == s.tasks[t := Replied(h,
      if h !in s.list then NotFound
      else if CellAt(s, s.list[h]).Pending() then NoContent
      else Settled(CellAt(s, s.list[h])))]
  {
    if h in s.list {
      var p := s.list[h];
      s' := CheckGot(s, t, h);
      if CellAt(s, p).Pending() {
        s' := Did(s', t, Read(p), Replied(h, NoContent));
      } else {
        s' := CheckSettled(s', t, h, p);
      }
    } else {
      s' := Checked(s, t, h);
    }
  }

  lemma CheckGot(s: State, u: Tid, h: Handle) returns (s': State)
    requires Reachable(s) && u !in s.tasks && h in s.list
    ensures Reachable(s') && s' == s.(tasks := s.tasks[u := CheckTest(h, s.list[h])])
  {
    StepReachable(s, StartCheck(u, h));
    s' := Did(Move(s, u, Quiet, CheckGet(h)), u, Quiet, CheckTest(h, s.list[h]));
  }

  lemma CheckSettled(s: State, u: Tid, h: Handle, p: Tid) returns (s': State)
    requires Reachable(s) && u in s.tasks && s.tasks[u] == CheckTest(h, p) && !CellAt(s, p).Pending()
    ensures Reachable(s') && s'.live == s.live && s'.list == s.list && s'.cells == s.cells
    ensures s'.tasks == s.tasks[u := Replied(h, Settled(CellAt(s, p)))]
  {
    s' := Did(s, u, Quiet, CheckRead(h, p));
    s' := Did(s', u, Read(p), Replied(h, Settled(CellAt(s, p))));
  }

  /******* A promise dropped by a late cancel *******/

  ghost predicate Reachable(s: State) {
    exists states, actions :: Run(states, actions) && states[|actions|] == s
  }

  lemma StepReachable(s: State, a: Action)
    requires Reachable(s) && Enabled(s, a)
    ensures Reachable(Apply(s, a))
  {
    var states, actions :| Run(states, actions) && states[|actions|] == s;
    var states', actions' := states + [Apply(s, a)], actions + [a];
    assert Run(states', actions') && states'[|actions'|] == Apply(s, a);
  }

  /** One call that goes through, told by its effect and the task after it. */
  lemma Did(s: State, t: Tid, e: Effect, task: Task) returns (s': State)
    requires Reachable(s) && t in s.tasks && Plan(s, t, s.tasks[t], true, "") == (e, task)
    ensures Reachable(s') && s' == Move(s, t, e, task)
  {
    StepReachable(s, Do(t, true, ""));
    s' := Move(s, t, e, task);
  }

  lemma Submitted(s: State, t: Tid, h: Handle) returns (s': State)
    requires Reachable(s) && t !in s.tasks && h !in s.list
    ensures Reachable(s')
    ensures s' == s.(cells := s.cells[t := NEW_CELL], list := s.list[h := t], tasks := s.tasks[t := CreateVolume(h)])
  {
    StepReachable(s, StartCreate(t, h));
    s' := Did(Move(s, t, Settle(t, NEW_CELL), Submit(h)), t, AddPromise(h), CreateVolume(h));
  }

  lemma CancelGot(s: State, u: Tid, h: Handle) returns (s': State)
    requires Reachable(s) && u !in s.tasks && h in s.list
    ensures Reachable(s') && s' == s.(tasks := s.tasks[u := CancelTest(h, s.list[h])])
  {
    StepReachable(s, StartCancel(u, h));
    s' := Did(Move(s, u, Quiet, CancelGet(h)), u, Quiet, CancelTest(h, s.list[h]));
  }

  lemma CancelMissed(s: State, u: Tid, h: Handle) returns (s': State)
    requires Reachable(s) && u !in s.tasks && h !in s.list
    ensures Reachable(s') && s' == s.(tasks := s.tasks[u := Replied(h, NotFound)])
  {
    StepReachable(s, StartCancel(u, h));
    s' := Did(Move(s, u, Quiet, CancelGet(h)), u, Quiet, Replied(h, NotFound));
  }

  lemma CancelRejected(s: State, u: Tid, h: Handle, p: Tid) returns (s': State)
    requires Reachable(s) && u in s.tasks && s.tasks[u] == CancelTest(h, p) && CellAt(s, p).Pending()
    ensures Reachable(s')
    ensures s' == s.(cells := s.cells[p := CANCELED_CELL], tasks := s.tasks[u := CancelRemove(h)])
  {
    s' := Did(s, u, Quiet, CancelReject(h, p));
    s' := Did(s', u, Settle(p, CANCELED_CELL), CancelRemove(h));
  }

  lemma CancelPassed(s: State, u: Tid, h: Handle, p: Tid) returns (s': State)
    requires Reachable(s) && u in s.tasks && s.tasks[u] == CancelTest(h, p) && !CellAt(s, p).Pending()
    ensures Reachable(s') && s' == s.(tasks := s.tasks[u := CancelRemove(h)])
  {
    s' := Did(s, u, Quiet, CancelRemove(h));
  }

  lemma CancelRemoved(s: State, u: Tid, h: Handle) returns (s': State)
    requires Reachable(s) && u in s.tasks && s.tasks[u] == CancelRemove(h)
    ensures Reachable(s') && s' == s.(list := s.list - {h}, tasks := s.tasks[u := Replied(h, NoContent)])
  {
    s' := Did(s, u, RemovePromise(h), Replied(h, NoContent));
  }

  lemma CreatedAndFulfilled(s: State, t: Tid, h: Handle) returns (s': State)
    requires Reachable(s) && t in s.tasks && s.tasks[t] == CreateVolume(h) && h !in s.live && CellAt(s, t) == NEW_CELL
    ensures Reachable(s')
    ensures s' == s.(cells := s.cells[t := Cell(Some(VolumeOf(h)), None)], live := s.live[h := t],
                     tasks := s.tasks[t := Ended(h, Fulfilled)])
  {
    s' := Did(s, t, Publish(h), FulfillPromise(h));
    s' := Did(s', t, Settle(t, Cell(Some(VolumeOf(h)), None)), Ended(h, Fulfilled));
  }

  lemma Checked(s: State, v: Tid, h: Handle) returns (s': State)
    requires Reachable(s) && v !in s.tasks && h !in s.list
    ensures Reachable(s') && s' == s.(tasks := s.tasks[v := Replied(h, NotFound)])
  {
    StepReachable(s, StartCheck(v, h));
    s' := Did(Move(s, v, Quiet, CheckGet(h)), v, Quiet, Replied(h, NotFound));
  }

  lemma BothGot(s: State, a: Tid, c: Tid, c': Tid, h: Handle) returns (s': State)
    requires Reachable(s) && h !in s.list && a !in s.tasks && c !in s.tasks && c' !in s.tasks
    requires a != c && a != c' && c != c'
    ensures Reachable(s') && s'.live == s.live && CellAt(s', a) == NEW_CELL
    ensures s'.tasks == s.tasks[a := CreateVolume(h)][c := CancelTest(h, a)][c' := CancelTest(h, a)]
  {
    s' := Submitted(s, a, h);
    s' := CancelGot(s', c, h);
    s' := CancelGot(s', c', h);
  }

  /** Two cancels that have both got the promise of a creation, one of them done and the other
      about to remove. */
  lemma TwoCancels(s: State, a: Tid, c: Tid, c': Tid, h: Handle) returns (s': State)
    requires Reachable(s) && c in s.tasks && c' in s.tasks && c != c' && CellAt(s, a) == NEW_CELL
    requires s.tasks[c] == CancelTest(h, a) && s.tasks[c'] == CancelTest(h, a)
    ensures Reachable(s') && s'.live == s.live && h !in s'.list
    ensures s'.tasks == s.tasks[c := Replied(h, NoContent)][c' := CancelRemove(h)]
  {
    s' := CancelRejected(s, c, h, a);
    s' := CancelRemoved(s', c, h);
    s' := CancelPassed(s', c', h, a);
  }

  /** A resubmission, fulfilled and live, whose promise a pending removal drops. */
  lemma Dropped(s: State, b: Tid, c': Tid, v: Tid, h: Handle) returns (s': State)
    requires Reachable(s) && h !in s.list && h !in s.live && b !in s.tasks && v !in s.tasks && b != v
    requires c' in s.tasks && s.tasks[c'] == CancelRemove(h)
    ensures Reachable(s') && b in s'.tasks && s'.tasks[b] == Ended(h, Fulfilled) && VolumeLive(s', b)
    ensures v in s'.tasks && s'.tasks[v] == Replied(h, NotFound)
  {
    s' := Submitted(s, b, h);
    s' := CreatedAndFulfilled(s', b, h);
    s' := CancelRemoved(s', c', h);
    s' := Checked(s', v, h);
  }

  /** From every reachable state, for every handle that is neither listed nor live: a creation is
      canceled twice and resubmitted, the resubmission is fulfilled and live, and the second
      cancel drops its promise, so that a check does not find it. */
  lemma PromiseDropped(s: State, a: Tid, c: Tid, c': Tid, b: Tid, v: Tid, h: Handle) returns (s': State)
    requires Reachable(s) && h !in s.list && h !in s.live
    requires a !in s.tasks && c !in s.tasks && c' !in s.tasks && b !in s.tasks && v !in s.tasks
    requires a != c && a != c' && a != b && a != v && c != c' && c != b && c != v && c' != b && c' != v && b != v
    ensures Reachable(s') && b in s'.tasks && s'.tasks[b] == Ended(h, Fulfilled) && VolumeLive(s', b)
    ensures v in s'.tasks && s'.tasks[v] == Replied(h, NotFound)
  {
    s' := BothGot(s, a, c, c', h);
    s' := TwoCancels(s', a, c, c', h);
    s' := Dropped(s', b, c', v, h);
  }
}
