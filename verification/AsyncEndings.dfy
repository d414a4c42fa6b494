/** Why an asynchronous creation ends the way it does.

    Each ending is traced to the one thing that happened on the way to it: a listed handle, a
    creation that failed, a cancel before the promise could be fulfilled, a destroy call that
    failed. */
module AsyncEndings {
  import opened Wrappers
  import opened Promises
  import opened AsyncCreate

  predicate Moves(s: State, a: Action, t: Tid) {
    a.Do? && a.t == t && t in s.tasks
  }

  /** The handle has a promise already. */
  predicate RefusedAt(s: State, a: Action, t: Tid) {
    Moves(s, a, t) && s.tasks[t].Submit? && s.tasks[t].h in s.list
  }

  /** CreateVolume fails, of itself or because the handle is live. */
  predicate FailsAt(s: State, a: Action, t: Tid) {
    Moves(s, a, t) && s.tasks[t].CreateVolume? && (!a.ok || s.tasks[t].h in s.live)
  }

  /** The promise is not pending any more when the creation comes to fulfill it. */
  predicate LateAt(s: State, a: Action, t: Tid) {
    Moves(s, a, t) && s.tasks[t].FulfillPromise? && !CellAt(s, t).Pending()
  }

  /** The destroy call of a canceled creation fails on a live handle. */
  predicate LeaksAt(s: State, a: Action, t: Tid) {
    Moves(s, a, t) && s.tasks[t].DestroyVolume? && !a.ok && s.tasks[t].h in s.live
  }

  /** A cancel settles the promise of a creation. */
  predicate CancelsAt(s: State, a: Action, p: Tid) {
    a.Do? && a.t in s.tasks && s.tasks[a.t].CancelReject? && s.tasks[a.t].p == p && CellAt(s, p).Pending()
  }

  /** What has happened to a creation so far. */
  datatype Story = Story(refused: bool, failed: bool, late: bool, leaked: bool, canceled: bool, message: string)

  function Later(y: Story, s: State, a: Action, t: Tid): Story {
    Story(y.refused || RefusedAt(s, a, t), y.failed || FailsAt(s, a, t), y.late || LateAt(s, a, t),
          y.leaked || LeaksAt(s, a, t), y.canceled || CancelsAt(s, a, t),
          if FailsAt(s, a, t) then a.message else y.message)
  }

  function Told(states: seq<State>, actions: seq<Action>, i: nat, t: Tid): Story
    requires i < |states| && i <= |actions|
  {
    if i == 0 then Story(false, false, false, false, false, "")
    else Later(Told(states, actions, i - 1, t), states[i - 1], actions[i - 1], t)
  }

  /** What a creation's stage says of its story. */
  predicate Fits(task: Task, y: Story) {
    match task
    case Submit(_) => !y.refused && !y.failed && !y.late && !y.leaked
    case CreateVolume(_) => !y.refused && !y.failed && !y.late && !y.leaked
    case FulfillPromise(_) => !y.refused && !y.failed && !y.late && !y.leaked
    case RejectPromise(_, err) => !y.refused && y.failed && !y.late && !y.leaked && err == CreationError(y.message)
    case DestroyVolume(_) => !y.refused && !y.failed && y.late && !y.leaked
    case Ended(_, how) =>
      (match how
       case Refused => y.refused && !y.failed && !y.late && !y.leaked
       case Fulfilled => !y.refused && !y.failed && !y.late && !y.leaked
       case Rejected => !y.refused && y.failed && !y.late && !y.leaked
       case Withdrawn => !y.refused && !y.failed && y.late && !y.leaked
       case Leaked => !y.refused && !y.failed && y.late && y.leaked
       case Unexpected => false)
    case _ => !y.refused && !y.failed && !y.late && !y.leaked
  }

  lemma OwnStep(s: State, t: Tid, ok: bool, message: string, y: Story)
    requires t in s.tasks && PromiseFits(s, t, s.tasks[t]) && Fits(s.tasks[t], y)
    ensures Fits(Plan(s, t, s.tasks[t], ok, message).1, Later(y, s, Do(t, ok, message), t))
  {}

  predicate Untold(y: Story) {
    !y.refused && !y.failed && !y.late && !y.leaked
  }

  lemma StoryGoesOn(s: State, a: Action, t: Tid, y: Story)
    requires Enabled(s, a) && (t in s.tasks ==> PromiseFits(s, t, s.tasks[t]) && Fits(s.tasks[t], y))
    requires t !in s.tasks ==> Untold(y)
    ensures t in Apply(s, a).tasks ==> Fits(Apply(s, a).tasks[t], Later(y, s, a, t))
    ensures t !in Apply(s, a).tasks ==> Untold(Later(y, s, a, t))
  {
    if a.Do? && a.t == t { OwnStep(s, t, a.ok, a.message, y); }
  }

  /** A canceled promise was canceled by somebody. */
  lemma CancelStep(s: State, a: Action, t: Tid)
    requires Enabled(s, a) && TasksFit(s) && t in Apply(s, a).cells
    requires Apply(s, a).cells[t].err == Some(PromiseCanceled)
    ensures (t in s.cells && s.cells[t].err == Some(PromiseCanceled)) || CancelsAt(s, a, t)
  {
    if a.Do? {
      assert PromiseFits(s, a.t, s.tasks[a.t]);
      CancelCall(s, a.t, s.tasks[a.t], a.ok, a.message, t);
    }
  }

  lemma CancelCall(s: State, u: Tid, task: Task, ok: bool, message: string, t: Tid)
    requires PromiseFits(s, u, task)
    ensures var e := Plan(s, u, task, ok, message).0;
      e.Settle? && e.cell.err == Some(PromiseCanceled) ==>
        task.CancelReject? && e.p == task.p && CellAt(s, e.p).Pending()
  {}

  lemma {:induction false} StoryFits(states: seq<State>, actions: seq<Action>, i: nat, t: Tid)
    requires Run(states, actions) && i < |states|
    ensures t in states[i].tasks ==> Fits(states[i].tasks[t], Told(states, actions, i, t))
    ensures t !in states[i].tasks ==> Untold(Told(states, actions, i, t))
  {
    if i > 0 {
      StoryFits(states, actions, i - 1, t);
      RunKeepsInv(states, actions, i - 1);
      StoryGoesOn(states[i - 1], actions[i - 1], t, Told(states, actions, i - 1, t));
    }
  }

  /** A creation that has ended was refused exactly if its handle was listed when it came, rejected
      exactly if its CreateVolume failed or met a live handle, fulfilled exactly if neither
      happened and no cancel came before it, and left its volume behind exactly if its own
      destroy call failed. */
  lemma EndingExact(states: seq<State>, actions: seq<Action>, i: nat, t: Tid)
    requires Run(states, actions) && i < |states| && t in states[i].tasks && states[i].tasks[t].Ended?
    ensures var how, y := states[i].tasks[t].how, Told(states, actions, i, t);
      && (how.Refused? <==> y.refused)
      && (how.Rejected? <==> y.failed)
      && (how.Fulfilled? <==> !y.refused && !y.failed && !y.late)
      && (how.Withdrawn? <==> y.late && !y.leaked)
      && (how.Leaked? <==> y.leaked)
  {
    StoryFits(states, actions, i, t);
  }

  /** A promise is canceled only by a cancel that found it pending. */
  lemma {:induction false} CanceledBySomebody(states: seq<State>, actions: seq<Action>, i: nat, t: Tid)
    requires Run(states, actions) && i < |states|
    requires t in states[i].cells && states[i].cells[t].err == Some(PromiseCanceled)
    ensures Told(states, actions, i, t).canceled
  {
    if i > 0 {
      RunKeepsInv(states, actions, i - 1);
      CancelStep(states[i - 1], actions[i - 1], t);
      if !CancelsAt(states[i - 1], actions[i - 1], t) { CanceledBySomebody(states, actions, i - 1, t); }
    }
  }

  lemma RejectStep(s: State, a: Action, t: Tid)
    requires Inv(s) && Enabled(s, a) && t in s.tasks && s.tasks[t].RejectPromise? && a.Do? && a.t == t
    ensures var s' := Apply(s, a);
      t in s'.cells && (s'.cells[t] == CANCELED_CELL || s'.cells[t] == Cell(None, Some(s.tasks[t].err)))
  {
    assert PromiseFits(s, t, s.tasks[t]);
  }

  lemma BecomesRejected(s: State, a: Action, t: Tid)
    requires Enabled(s, a) && t in Apply(s, a).tasks && IsRejected(Apply(s, a).tasks[t])
    ensures t in s.tasks && !FailsAt(s, a, t)
    ensures IsRejected(s.tasks[t]) || (s.tasks[t].RejectPromise? && a.Do? && a.t == t)
  {}

  predicate IsRejected(task: Task) {
    task.Ended? && task.how.Rejected?
  }

  ghost predicate HoldsError(s: State, t: Tid, message: string) {
    t in s.cells && (s.cells[t] == CANCELED_CELL || s.cells[t] == Cell(None, Some(CreationError(message))))
  }

  lemma ErrorStays(s: State, a: Action, t: Tid, message: string)
    requires Inv(s) && Enabled(s, a) && HoldsError(s, t, message)
    ensures HoldsError(Apply(s, a), t, message)
  {
    StepKeepsSettled(s, a, t);
  }

  /** A rejected creation's promise holds the error of its own CreateVolume, unless a cancel came
      first. */
  lemma {:induction false} RejectedWith(states: seq<State>, actions: seq<Action>, i: nat, t: Tid)
    requires Run(states, actions) && i < |states| && t in states[i].tasks && IsRejected(states[i].tasks[t])
    ensures HoldsError(states[i], t, Told(states, actions, i, t).message)
  {
    var s, a := states[i - 1], actions[i - 1];
    RunKeepsInv(states, actions, i - 1);
    BecomesRejected(s, a, t);
    if IsRejected(s.tasks[t]) {
      RejectedWith(states, actions, i - 1, t);
      ErrorStays(s, a, t, Told(states, actions, i - 1, t).message);
    } else {
      StoryFits(states, actions, i - 1, t);
      RejectStep(s, a, t);
    }
  }

  lemma {:induction false} NeverLeaks(states: seq<State>, actions: seq<Action>, i: nat, t: Tid)
    requires Run(states, actions) && i < |states|
    requires forall k | 0 <= k < |actions| && Moves(states[k], actions[k], t) && states[k].tasks[t].DestroyVolume? ::
      actions[k].ok
    ensures !Told(states, actions, i, t).leaked
  {
    if i > 0 { NeverLeaks(states, actions, i - 1, t); }
  }

  /** Where no destroy call of its own fails, a creation that has ended without fulfilling its
      promise has no live volume. */
  lemma NothingLeftBehind(states: seq<State>, actions: seq<Action>, i: nat, t: Tid)
    requires Run(states, actions) && i < |states|
    requires forall k | 0 <= k < |actions| && Moves(states[k], actions[k], t) && states[k].tasks[t].DestroyVolume? ::
      actions[k].ok
    requires t in states[i].tasks && states[i].tasks[t].Ended? && !states[i].tasks[t].how.Fulfilled?
    ensures !VolumeLive(states[i], t)
  {
    NeverLeaks(states, actions, i, t);
    EndingExact(states, actions, i, t);
    RunKeepsInv(states, actions, i);
  }
}
