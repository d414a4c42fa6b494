/** Destroying a list of volumes: one goroutine for each handle, and a buffered channel for
    their errors.

    The goroutines run concurrently, each under the lock of its handle, whose steps are those of
    module Locker; the list may repeat handles, and other clients destroy volumes meanwhile in
    the same way.  The request waits for its goroutines and then looks at the channel's length. */
module FanOut {
  import opened Wrappers
  import L = Locker

  datatype Result = Destroyed | DoesNotExist | Error

  /** The next step of a destruction. */
  datatype Task =
    | Register                   // Lock, under the manager's mutex
    | Acquire                    // Lock, sending on the channel
    | Lookup
    | Rename
    | Teardown
    | Unlock(result: Result)     // Unlock, under the manager's mutex
    | Release(result: Result)    // Unlock, receiving from the channel
    | Send                       // reporting the error
    | Finished(result: Result)

  /** The first `size` destructions are the request's own, the others those of other clients. */
  datatype State = State(
    handles: seq<Handle>, size: nat, lk: L.State, live: set<Handle>, tasks: seq<Task>, queued: nat, reply: Option<nat>)

  datatype Action = Do(i: nat, ok: bool, unused: L.EntryId) | Reply

  function Start(handles: seq<Handle>, others: seq<Handle>, live: set<Handle>): State {
    State(handles + others, |handles|, L.INITIAL, live, seq(|handles| + |others|, _ => Register), 0, None)
  }

  /** The lock step that a task performs, if any. */
  function LockStep(task: Task, i: nat, h: Handle, unused: L.EntryId): Option<L.Action> {
    match task
    case Register => Some(L.Register(i, h, unused))
    case Acquire => Some(L.Send(i))
    case Unlock(_) => Some(L.Unregister(i))
    case Release(_) => Some(L.Receive(i))
    case _ => None
  }

  /** The channel's capacity is the number of handles; a send on a full channel waits. */
  predicate Enabled(s: State, a: Action) {
    match a
    case Do(i, _, unused) =>
      && i < |s.tasks| && i < |s.handles|
      && var step := LockStep(s.tasks[i], i, s.handles[i], unused);
         && (step.Some? ==> L.Enabled(s.lk, step.value))
         && (s.tasks[i].Send? ==> s.queued < s.size)
    case Reply => s.reply.None? && forall i | 0 <= i < |s.tasks| && i < s.size :: s.tasks[i].Finished?
  }

  /** The task after a step; `reports` is whether errors go to the channel. */
  function After(task: Task, live: bool, ok: bool, reports: bool): Task {
    match task
    case Register => Acquire
    case Acquire => Lookup
    case Lookup => if !ok then Unlock(Error) else if live then Rename else Unlock(DoesNotExist)
    case Rename => if ok && live then Teardown else Unlock(Error)
    case Teardown => Unlock(if ok then Destroyed else Error)
    case Unlock(r) => Release(r)
    case Release(r) => if r.Error? && reports then Send else Finished(r)
    case Send => Finished(Error)
    case Finished(_) => task
  }

  function Apply(s: State, a: Action): State
    requires Enabled(s, a)
  {
    match a
    case Reply => s.(reply := Some(if s.queued > 0 then 500 else 204))
    case Do(i, ok, unused) =>
      var task, h := s.tasks[i], s.handles[i];
      var step := LockStep(task, i, h, unused);
      s.(lk := if step.Some? then L.Apply(s.lk, step.value) else s.lk,
         live := if task.Rename? && ok then s.live - {h} else s.live,
         tasks := s.tasks[i := After(task, h in s.live, ok, i < s.size)],
         queued := if task.Send? then s.queued + 1 else s.queued)
  }

  ghost predicate Run(
    states: seq<State>, actions: seq<Action>, handles: seq<Handle>, others: seq<Handle>, live: set<Handle>)
  {
    && |states| == |actions| + 1
    && states[0] == Start(handles, others, live)
    && forall k :: 0 <= k < |actions| ==>
      Enabled(states[k], actions[k]) && states[k + 1] == Apply(states[k], actions[k])
  }

  /** How many destructions have reported an error. */
  function Reported(tasks: seq<Task>): nat {
    if tasks == [] then 0
    else Reported(tasks[..|tasks| - 1]) + if tasks[|tasks| - 1] == Finished(Error) then 1 else 0
  }

  lemma {:induction false} ReportedUpdate(tasks: seq<Task>, i: nat, t: Task)
    requires i < |tasks| && tasks[i] != Finished(Error)
    ensures Reported(tasks[i := t]) == Reported(tasks) + if t == Finished(Error) then 1 else 0
  {
    var n := |tasks| - 1;
    if i == n {
      assert tasks[i := t][..n] == tasks[..n];
    } else {
      assert tasks[i := t][..n] == tasks[..n][i := t];
      ReportedUpdate(tasks[..n], i, t);
    }
  }

  lemma {:induction false} ReportedBound(tasks: seq<Task>)
    ensures Reported(tasks) <= |tasks|
    ensures Reported(tasks) == |tasks| ==> forall i | 0 <= i < |tasks| :: tasks[i] == Finished(Error)
    ensures Reported(tasks) == 0 <==> forall i | 0 <= i < |tasks| :: tasks[i] != Finished(Error)
  {
    if tasks != [] {
      var n := |tasks| - 1;
      ReportedBound(tasks[..n]);
      assert forall i | 0 <= i < n :: tasks[..n][i] == tasks[i];
    }
  }

  /******* The invariant *******/

  /** The lock session of a destruction is where its task says. */
  ghost predicate SessionOf(lk: L.State, i: nat, task: Task, h: Handle) {
    match task
    case Register => lk.At(i).Idle?
    case Acquire => lk.At(i).Queued? && lk.At(i).key == h
    case Release(_) => lk.At(i).Leaving?
    case Send => lk.At(i).Idle?
    case Finished(_) => lk.At(i).Idle?
    case _ => lk.At(i).Holding? && lk.At(i).key == h
  }

  ghost predicate Sessions(s: State) {
    && |s.tasks| == |s.handles|
    && (forall i | 0 <= i < |s.tasks| :: SessionOf(s.lk, i, s.tasks[i], s.handles[i]))
    && (forall t | t >= |s.tasks| :: s.lk.At(t).Idle?)
  }

  /** A destruction that will not end in an error has seen its handle leave live. */
  predicate Gone(t: Task) {
    || t.Teardown?
    || ((t.Unlock? || t.Release? || t.Finished?) && !t.result.Error?)
  }

  /** What a destruction has seen of its handle is still so. */
  ghost predicate SeenIsCurrent(s: State) {
    && |s.tasks| == |s.handles|
    && (forall i | 0 <= i < |s.tasks| && s.tasks[i].Rename? :: s.handles[i] in s.live)
    && (forall i | 0 <= i < |s.tasks| && Gone(s.tasks[i]) :: s.handles[i] !in s.live)
  }

  ghost predicate Counted(s: State) {
    && s.size <= |s.tasks| && s.queued == Reported(s.tasks[..s.size])
    && (forall i | 0 <= i < |s.tasks| && s.tasks[i].Send? :: i < s.size)
  }

  ghost predicate Replied(s: State) {
    s.reply.Some? ==>
      && (forall i | 0 <= i < |s.tasks| && i < s.size :: s.tasks[i].Finished?)
      && s.reply == Some(if s.queued > 0 then 500 else 204)
  }

  ghost predicate Inv(s: State) {
    L.Inv(s.lk) && Sessions(s) && SeenIsCurrent(s) && Counted(s) && Replied(s)
  }

  lemma OtherSessionStays(s: State, a: Action, t: L.Tid)
    requires Enabled(s, a) && (a.Do? ==> t != a.i)
    ensures Apply(s, a).lk.At(t) == s.lk.At(t)
  {}

  lemma OwnSessionMoves(s: State, i: nat, ok: bool, unused: L.EntryId)
    requires Enabled(s, Do(i, ok, unused)) && SessionOf(s.lk, i, s.tasks[i], s.handles[i])
    requires s.tasks[i].Unlock? ==> L.UnregisterIn(s.lk.sh, s.lk.At(i).key).Some?
    ensures var s' := Apply(s, Do(i, ok, unused)); SessionOf(s'.lk, i, s'.tasks[i], s.handles[i])
  {}

  lemma StepKeepsSessions(s: State, a: Action)
    requires L.Inv(s.lk) && Sessions(s) && Enabled(s, a)
    ensures Sessions(Apply(s, a))
  {
    var s' := Apply(s, a);
    forall i | 0 <= i < |s'.tasks| ensures SessionOf(s'.lk, i, s'.tasks[i], s'.handles[i]) { SessionKept(s, a, i); }
    forall t | t >= |s'.tasks| ensures s'.lk.At(t).Idle? { OtherSessionStays(s, a, t); }
  }

  lemma SessionKept(s: State, a: Action, i: nat)
    requires L.Inv(s.lk) && Enabled(s, a) && |s.tasks| == |s.handles| && i < |s.tasks|
    requires SessionOf(s.lk, i, s.tasks[i], s.handles[i])
    ensures var s' := Apply(s, a); |s'.tasks| == |s.tasks| && SessionOf(s'.lk, i, s'.tasks[i], s.handles[i])
  {
    if a.Do? && a.i == i {
      if s.tasks[i].Unlock? { L.HolderIsRegistered(s.lk, i); }
      OwnSessionMoves(s, i, a.ok, a.unused);
    } else {
      OtherSessionStays(s, a, i);
    }
  }

  /** Whoever could take a looked-up volume away would have to hold the same lock. */
  lemma StepKeepsSeen(s: State, a: Action)
    requires L.Inv(s.lk) && Sessions(s) && SeenIsCurrent(s) && Enabled(s, a)
    ensures SeenIsCurrent(Apply(s, a))
  {
    var s' := Apply(s, a);
    forall j | 0 <= j < |s'.tasks| && s'.tasks[j].Rename?
      ensures s'.handles[j] in s'.live
    {
      if a.Do? && s.tasks[a.i].Rename? && j != a.i && s.handles[j] == s.handles[a.i] {
        L.OneHolder(s.lk, j, a.i);
      }
    }
  }

  lemma StepKeepsCount(s: State, a: Action)
    requires Enabled(s, a) && Counted(s)
    ensures Counted(Apply(s, a))
  {
    var s' := Apply(s, a);
    if a.Do? && a.i < s.size && !s.tasks[a.i].Finished? {
      ReportedUpdate(s.tasks[..s.size], a.i, s'.tasks[a.i]);
      assert s'.tasks[..s.size] == s.tasks[..s.size][a.i := s'.tasks[a.i]];
    } else {
      assert s'.tasks[..s.size] == s.tasks[..s.size];
    }
  }

  lemma StepKeepsReply(s: State, a: Action)
    requires Enabled(s, a) && Counted(s) && Replied(s)
    ensures Replied(Apply(s, a))
  {}

  lemma StepKeepsInv(s: State, a: Action)
    requires Inv(s) && Enabled(s, a)
    ensures Inv(Apply(s, a))
  {
    if a.Do? && LockStep(s.tasks[a.i], a.i, s.handles[a.i], a.unused).Some? {
      L.StepKeepsInv(s.lk, LockStep(s.tasks[a.i], a.i, s.handles[a.i], a.unused).value);
    }
    StepKeepsSessions(s, a);
    StepKeepsSeen(s, a);
    StepKeepsCount(s, a);
    StepKeepsReply(s, a);
  }

  lemma {:induction false} RunKeepsInv(
    states: seq<State>, actions: seq<Action>, handles: seq<Handle>, others: seq<Handle>, live: set<Handle>, k: nat)
    requires Run(states, actions, handles, others, live) && k < |states|
    ensures Inv(states[k]) && states[k].handles == handles + others && states[k].size == |handles|
  {
    if k == 0 {
      ReportedBound(states[0].tasks[..|handles|]);
    } else {
      RunKeepsInv(states, actions, handles, others, live, k - 1);
      StepKeepsInv(states[k - 1], actions[k - 1]);
    }
  }

  /******* What the client is promised *******/

  lemma SendFits(s: State, i: nat, ok: bool, unused: L.EntryId)
    requires Counted(s) && |s.tasks| == |s.handles| && i < |s.tasks| && s.tasks[i].Send?
    ensures Enabled(s, Do(i, ok, unused))
  {
    ReportedBound(s.tasks[..s.size]);
    assert s.tasks[..s.size][i] == s.tasks[i];
  }

  /** No send on the error channel ever waits. */
  lemma SendNeverBlocks(
    states: seq<State>, actions: seq<Action>, handles: seq<Handle>, others: seq<Handle>, live: set<Handle>,
    k: nat, i: nat, ok: bool, unused: L.EntryId)
    requires Run(states, actions, handles, others, live) && k < |states|
    requires i < |states[k].tasks| && states[k].tasks[i].Send?
    ensures Enabled(states[k], Do(i, ok, unused))
  {
    RunKeepsInv(states, actions, handles, others, live, k);
    SendFits(states[k], i, ok, unused);
  }

  lemma {:induction false} UnusedEntry(es: set<L.EntryId>) returns (e: L.EntryId)
    ensures forall x <- es :: x < e
    decreases es
  {
    if es == {} {
      e := 0;
    } else {
      var x :| x in es;
      var e' := UnusedEntry(es - {x});
      e := if x < e' then e' else x + 1;
      forall y | y in es ensures y < e { assert y == x || y in es - {x}; }
    }
  }

  /** The request is never stuck: while a destruction is not finished, some unfinished one, its
      own or the one that holds the lock it waits for, can take its next step. */
  lemma SomeoneMoves(
    states: seq<State>, actions: seq<Action>, handles: seq<Handle>, others: seq<Handle>, live: set<Handle>,
    k: nat, i: nat) returns (j: nat, unused: L.EntryId)
    requires Run(states, actions, handles, others, live) && k < |states|
    requires i < |states[k].tasks| && !states[k].tasks[i].Finished?
    ensures j < |states[k].tasks| && !states[k].tasks[j].Finished? && forall ok :: Enabled(states[k], Do(j, ok, unused))
  {
    RunKeepsInv(states, actions, handles, others, live, k);
    j, unused := Mover(states[k], i);
  }

  lemma Mover(s: State, i: nat) returns (j: nat, unused: L.EntryId)
    requires Inv(s) && i < |s.tasks| && !s.tasks[i].Finished?
    ensures j < |s.tasks| && !s.tasks[j].Finished? && forall ok :: Enabled(s, Do(j, ok, unused))
  {
    j := i;
    unused := UnusedEntry(s.lk.sh.entries.Keys);
    assert SessionOf(s.lk, i, s.tasks[i], s.handles[i]);
    match s.tasks[i]
    case Acquire =>
      j := L.Obstacle(s.lk, i);
      if j != i { ObstacleMoves(s, i, j, unused); }
    case Release(_) =>
      L.LeaverReceives(s.lk, i);
    case Send =>
      forall ok ensures Enabled(s, Do(j, ok, unused)) { SendFits(s, i, ok, unused); }
    case _ =>
  }

  lemma ObstacleMoves(s: State, i: nat, j: nat, unused: L.EntryId)
    requires Sessions(s) && i < |s.tasks|
    requires L.Enabled(s.lk, L.Unregister(j)) || L.Enabled(s.lk, L.Receive(j))
    ensures j < |s.tasks| && !s.tasks[j].Finished? && forall ok :: Enabled(s, Do(j, ok, unused))
  {
    assert j < |s.tasks|;
    assert SessionOf(s.lk, j, s.tasks[j], s.handles[j]);
  }

  /** The reply is 204 exactly when each destruction of the request succeeded or found nothing,
      and then none of the listed handles is live. */
  lemma ReplyExact(
    states: seq<State>, actions: seq<Action>, handles: seq<Handle>, others: seq<Handle>, live: set<Handle>, k: nat)
    requires Run(states, actions, handles, others, live) && k < |states| && states[k].reply.Some?
    ensures
      var s := states[k];
      && |s.tasks| == |handles| + |others|
      && (s.reply == Some(204) <==>
            forall i | 0 <= i < |handles| :: s.tasks[i] == Finished(Destroyed) || s.tasks[i] == Finished(DoesNotExist))
      && (s.reply == Some(204) || s.reply == Some(500))
      && (s.reply == Some(204) ==> forall h <- handles :: h !in s.live)
  {
    RunKeepsInv(states, actions, handles, others, live, k);
    var s := states[k];
    var mine := s.tasks[..|handles|];
    ReportedBound(mine);
    forall i | 0 <= i < |handles|
      ensures mine[i] == s.tasks[i] && s.tasks[i].Finished?
      ensures mine[i] == Finished(Destroyed) || mine[i] == Finished(DoesNotExist) <==> mine[i] != Finished(Error)
    {
      assert s.tasks[i].result.Destroyed? || s.tasks[i].result.DoesNotExist? || s.tasks[i].result.Error?;
    }
    if s.reply == Some(204) {
      forall i | 0 <= i < |handles|
        ensures handles[i] !in s.live
      {
        assert Gone(s.tasks[i]) && s.handles[i] == handles[i];
      }
    }
  }

  predicate Harmless(t: Task) {
    && !t.Send?
    && ((t.Unlock? || t.Release? || t.Finished?) ==> !t.result.Error?)
  }

  lemma StepHarmless(s: State, a: Action)
    requires SeenIsCurrent(s) && Enabled(s, a) && (a.Do? ==> a.ok)
    requires forall i | 0 <= i < |s.tasks| :: Harmless(s.tasks[i])
    ensures var s' := Apply(s, a); forall i | 0 <= i < |s'.tasks| :: Harmless(s'.tasks[i])
  {}

  /** Without failing calls nobody reports an error, however often the list repeats a handle and
      whatever other clients destroy. */
  lemma {:induction false} RepeatsAreHarmless(
    states: seq<State>, actions: seq<Action>, handles: seq<Handle>, others: seq<Handle>, live: set<Handle>, k: nat)
    requires Run(states, actions, handles, others, live) && k < |states|
    requires forall j | 0 <= j < |actions| && actions[j].Do? :: actions[j].ok
    ensures forall i | 0 <= i < |states[k].tasks| :: Harmless(states[k].tasks[i])
  {
    if k > 0 {
      RepeatsAreHarmless(states, actions, handles, others, live, k - 1);
      RunKeepsInv(states, actions, handles, others, live, k - 1);
      StepHarmless(states[k - 1], actions[k - 1]);
    }
  }

  /******* Which volumes go *******/

  /** A destruction that has taken its volume out of live and has not failed since. */
  predicate Took(t: Task) {
    t.Teardown? || ((t.Unlock? || t.Release? || t.Finished?) && t.result.Destroyed?)
  }

  /** What has left live was there and was asked for, and each volume was taken by one destruction
      at most. */
  ghost predicate Accounted(s: State, live: set<Handle>) {
    && |s.tasks| == |s.handles| && s.live <= live
    && (forall h | h in live && h !in s.handles :: h in s.live)
    && (forall i | 0 <= i < |s.tasks| && Took(s.tasks[i]) :: s.handles[i] in live)
    && (forall i, j | 0 <= i < j < |s.tasks| && s.handles[i] == s.handles[j] :: !(Took(s.tasks[i]) && Took(s.tasks[j])))
  }

  /** What has left live was taken by a destruction that has not failed. */
  ghost predicate TakenBySomebody(s: State, live: set<Handle>) {
    |s.tasks| == |s.handles| &&
    forall h | h in live && h !in s.live :: exists i :: 0 <= i < |s.tasks| && s.handles[i] == h && Took(s.tasks[i])
  }

  lemma StepAccounted(s: State, a: Action, live: set<Handle>)
    requires Enabled(s, a) && SeenIsCurrent(s) && Accounted(s, live)
    ensures Accounted(Apply(s, a), live)
  {
    var s' := Apply(s, a);
    forall i, j | 0 <= i < j < |s'.tasks| && s'.handles[i] == s'.handles[j] && Took(s'.tasks[i]) && Took(s'.tasks[j])
      ensures false
    {
      assert Took(s.tasks[i]) ==> Gone(s.tasks[i]);
      assert Took(s.tasks[j]) ==> Gone(s.tasks[j]);
      assert false;
    }
  }

  lemma StepTaken(s: State, a: Action, live: set<Handle>)
    requires Enabled(s, a) && SeenIsCurrent(s) && (a.Do? ==> a.ok) && TakenBySomebody(s, live)
    ensures TakenBySomebody(Apply(s, a), live)
  {
    var s' := Apply(s, a);
    forall h | h in live && h !in s'.live
      ensures exists i :: 0 <= i < |s'.tasks| && s'.handles[i] == h && Took(s'.tasks[i])
    {
      if h in s.live {
        assert s'.handles[a.i] == h && Took(s'.tasks[a.i]);
      } else {
        var i :| 0 <= i < |s.tasks| && s.handles[i] == h && Took(s.tasks[i]);
        assert s'.handles[i] == h && Took(s'.tasks[i]);
      }
    }
  }

  /** In every run a volume that nobody asks to destroy stays, and no volume is destroyed twice. */
  lemma {:induction false} OnlyListedGo(
    states: seq<State>, actions: seq<Action>, handles: seq<Handle>, others: seq<Handle>, live: set<Handle>, k: nat)
    requires Run(states, actions, handles, others, live) && k < |states|
    ensures Accounted(states[k], live)
  {
    if k > 0 {
      OnlyListedGo(states, actions, handles, others, live, k - 1);
      RunKeepsInv(states, actions, handles, others, live, k - 1);
      StepAccounted(states[k - 1], actions[k - 1], live);
    }
  }

  /** Without failing calls a volume has left live exactly if one destruction of it reports, or will
      report, that it destroyed it. */
  lemma {:induction false} GoneExact(
    states: seq<State>, actions: seq<Action>, handles: seq<Handle>, others: seq<Handle>, live: set<Handle>, k: nat)
    requires Run(states, actions, handles, others, live) && k < |states|
    requires forall j | 0 <= j < |actions| && actions[j].Do? :: actions[j].ok
    ensures TakenBySomebody(states[k], live)
    ensures forall i | 0 <= i < |states[k].tasks| && Took(states[k].tasks[i]) ::
      states[k].handles[i] in live && states[k].handles[i] !in states[k].live
  {
    RunKeepsInv(states, actions, handles, others, live, k);
    OnlyListedGo(states, actions, handles, others, live, k);
    if k > 0 {
      GoneExact(states, actions, handles, others, live, k - 1);
      RunKeepsInv(states, actions, handles, others, live, k - 1);
      StepTaken(states[k - 1], actions[k - 1], live);
    }
  }

  /******* What each destruction reports *******/

  /** A call of a destruction fails. */
  predicate FailsAt(s: State, a: Action, i: nat) {
    a.Do? && a.i == i && i < |s.tasks| && !a.ok && (s.tasks[i].Lookup? || s.tasks[i].Rename? || s.tasks[i].Teardown?)
  }

  /** A destruction looks its volume up in vain. */
  predicate MissesAt(s: State, a: Action, i: nat) {
    && a.Do? && a.i == i && i < |s.tasks| && i < |s.handles|
    && a.ok && s.tasks[i].Lookup? && s.handles[i] !in s.live
  }

  predicate Failed(states: seq<State>, actions: seq<Action>, k: nat, i: nat)
    requires k < |states| && k <= |actions|
  {
    k > 0 && (Failed(states, actions, k - 1, i) || FailsAt(states[k - 1], actions[k - 1], i))
  }

  predicate Missed(states: seq<State>, actions: seq<Action>, k: nat, i: nat)
    requires k < |states| && k <= |actions|
  {
    k > 0 && (Missed(states, actions, k - 1, i) || MissesAt(states[k - 1], actions[k - 1], i))
  }

  predicate Tells(task: Task, failed: bool, missed: bool) {
    match task
    case Unlock(r) => r == Report(failed, missed)
    case Release(r) => r == Report(failed, missed)
    case Finished(r) => r == Report(failed, missed)
    case Send => failed
    case _ => !failed && !missed
  }

  function Report(failed: bool, missed: bool): Result {
    if failed then Error else if missed then DoesNotExist else Destroyed
  }

  lemma StepTells(s: State, a: Action, i: nat, failed: bool, missed: bool)
    requires Enabled(s, a) && SeenIsCurrent(s) && i < |s.tasks| && Tells(s.tasks[i], failed, missed)
    ensures Tells(Apply(s, a).tasks[i], failed || FailsAt(s, a, i), missed || MissesAt(s, a, i))
  {}

  /** A destruction that is over reports an error exactly if one of its calls failed, that there is
      no such volume exactly if none failed and it looked the volume up in vain, and otherwise
      that it destroyed the volume. */
  lemma {:induction false} ResultExact(
    states: seq<State>, actions: seq<Action>, handles: seq<Handle>, others: seq<Handle>, live: set<Handle>,
    k: nat, i: nat)
    requires Run(states, actions, handles, others, live) && k < |states| && i < |handles| + |others|
    ensures i < |states[k].tasks|
    ensures Tells(states[k].tasks[i], Failed(states, actions, k, i), Missed(states, actions, k, i))
  {
    if k > 0 {
      ResultExact(states, actions, handles, others, live, k - 1, i);
      RunKeepsInv(states, actions, handles, others, live, k - 1);
      StepTells(states[k - 1], actions[k - 1], i, Failed(states, actions, k - 1, i), Missed(states, actions, k - 1, i));
    }
  }
}
