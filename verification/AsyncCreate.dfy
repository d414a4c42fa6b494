/** Asynchronous creation: a creator goroutine races with cancel and check requests.

    Any number of creations, cancellations, checks and ordinary destructions run at once,
    handles may be reused freely, and every call may fail.  A creation is named by its
    task, and so are its promise and its volume. */
module AsyncCreate {
  import opened Wrappers
  import opened Promises

  type Tid = nat

  /** How a creation ended. */
  datatype Ending = Refused | Fulfilled | Rejected | Withdrawn | Leaked | Unexpected

  /** What a check or cancel replies. */
  datatype Reply = NotFound | NoContent | Settled(cell: Cell) | InternalError

  /** The next call of a task. */
  datatype Task =
    | Submit(h: Handle)
    | CreateVolume(h: Handle)
    | RejectPromise(h: Handle, err: Error)
    | FulfillPromise(h: Handle)
    | DestroyVolume(h: Handle)
    | Ended(h: Handle, how: Ending)
    | CancelGet(h: Handle)
    | CancelTest(h: Handle, p: Tid)
    | CancelReject(h: Handle, p: Tid)
    | CancelRemove(h: Handle)
    | CheckGet(h: Handle)
    | CheckTest(h: Handle, p: Tid)
    | CheckRead(h: Handle, p: Tid)
    | Replied(h: Handle, reply: Reply)

  /** `cells` are the promises, `list` the promise list, `live` names the creation that each live
      volume came from.  `lost` collects the creations whose volume was destroyed by someone
      other than themselves, and `seen` what checks have read, in order. */
  datatype State = State(
    cells: map<Tid, Cell>,
    list: map<Handle, Tid>,
    live: map<Handle, Tid>,
    tasks: map<Tid, Task>,
    lost: set<Tid>,
    seen: seq<(Tid, Cell)>)

  datatype Action =
    | StartCreate(t: Tid, h: Handle)
    | StartCancel(t: Tid, h: Handle)
    | StartCheck(t: Tid, h: Handle)
    | OutsideDestroy(h: Handle)
    | Do(t: Tid, ok: bool, message: string)

  const INITIAL := State(map[], map[], map[], map[], {}, [])

  predicate Enabled(s: State, a: Action) {
    match a
    case StartCreate(t, _) => t !in s.tasks
    case StartCancel(t, _) => t !in s.tasks
    case StartCheck(t, _) => t !in s.tasks
    case OutsideDestroy(h) => h in s.live
    case Do(t, _, _) => t in s.tasks
  }

  function CellAt(s: State, p: Tid): Cell {
    if p in s.cells then s.cells[p] else NEW_CELL
  }

  function VolumeOf(h: Handle): Volume {
    Volume(h, "live/" + h + "/volume")
  }

  /** What one call of a task changes besides the task itself. */
  datatype Effect =
    | Quiet
    | AddPromise(h: Handle)
    | RemovePromise(h: Handle)
    | Publish(h: Handle)
    | Withdraw(h: Handle)
    | Settle(p: Tid, cell: Cell)
    | Read(p: Tid)

  function Perform(s: State, t: Tid, e: Effect): State {
    match e
    case Quiet => s
    case AddPromise(h) => s.(list := s.list[h := t])
    case RemovePromise(h) => s.(list := s.list - {h})
    case Publish(h) => s.(live := s.live[h := t])
    case Withdraw(h) =>
      s.(live := s.live - {h},
         lost := if h in s.live && s.live[h] != t then s.lost + {s.live[h]} else s.lost)
    case Settle(p, cell) => s.(cells := s.cells[p := cell])
    case Read(p) => s.(seen := s.seen + [(p, CellAt(s, p))])
  }

  /** A settlement attempt writes the promise only while it is pending. */
  function SettleWith(p: Tid, r: (Cell, Option<PromiseError>)): Effect {
    if r.1.None? then Settle(p, r.0) else Quiet
  }

  /** The next call of a task and the task after it.  CreateVolume publishes by a rename that
      fails on a live handle; `ok` is whether the operating system lets a call through. */
  function Plan(s: State, t: Tid, task: Task, ok: bool, message: string): (Effect, Task) {
    match task
    case Submit(h) => if h in s.list then (Quiet, Ended(h, Refused)) else (AddPromise(h), CreateVolume(h))
    case CreateVolume(h) =>
      if ok && h !in s.live then (Publish(h), FulfillPromise(h))
      else (Quiet, RejectPromise(h, CreationError(message)))
    case RejectPromise(h, err) =>
      (SettleWith(t, RejectCell(CellAt(s, t), err)), Ended(h, Rejected))
    case FulfillPromise(h) =>
      var r := FulfillCell(CellAt(s, t), VolumeOf(h));
      (SettleWith(t, r),
       match r.1
       case None => Ended(h, Fulfilled)
       case Some(Canceled) => DestroyVolume(h)
       case Some(_) => Ended(h, Unexpected))
    case DestroyVolume(h) =>
      if h !in s.live then (Quiet, Ended(h, Withdrawn))
      else if ok then (Withdraw(h), Ended(h, Withdrawn))
      else (Quiet, Ended(h, Leaked))
    case CancelGet(h) => (Quiet, if h in s.list then CancelTest(h, s.list[h]) else Replied(h, NotFound))
    case CancelTest(h, p) => (Quiet, if CellAt(s, p).Pending() then CancelReject(h, p) else CancelRemove(h))
    case CancelReject(h, p) =>
      var r := RejectCell(CellAt(s, p), PromiseCanceled);
      (SettleWith(p, r), if r.1.None? then CancelRemove(h) else Replied(h, InternalError))
    case CancelRemove(h) => (RemovePromise(h), Replied(h, NoContent))
    case CheckGet(h) => (Quiet, if h in s.list then CheckTest(h, s.list[h]) else Replied(h, NotFound))
    case CheckTest(h, p) =>
      if CellAt(s, p).Pending() then (Read(p), Replied(h, NoContent)) else (Quiet, CheckRead(h, p))
    case CheckRead(h, p) =>
      if CellAt(s, p).Pending() then (Quiet, Replied(h, InternalError))
      else (Read(p), Replied(h, Settled(CellAt(s, p))))
    case Ended(_, _) => (Quiet, task)
    case Replied(_, _) => (Quiet, task)
  }

  function Move(s: State, t: Tid, e: Effect, task: Task): State {
    Perform(s, t, e).(tasks := s.tasks[t := task])
  }

  function Apply(s: State, a: Action): State
    requires Enabled(s, a)
  {
    match a
    case StartCreate(t, h) => Move(s, t, Settle(t, NEW_CELL), Submit(h))
    case StartCancel(t, h) => Move(s, t, Quiet, CancelGet(h))
    case StartCheck(t, h) => Move(s, t, Quiet, CheckGet(h))
    case OutsideDestroy(h) => s.(live := s.live - {h}, lost := s.lost + {s.live[h]})
    case Do(t, ok, message) =>
      var (e, task) := Plan(s, t, s.tasks[t], ok, message);
      Move(s, t, e, task)
  }

  predicate IsCreator(task: Task) {
    || task.Submit? || task.CreateVolume? || task.RejectPromise? || task.FulfillPromise?
    || task.DestroyVolume? || task.Ended?
  }

  ghost predicate Run(states: seq<State>, actions: seq<Action>) {
    && |states| == |actions| + 1
    && states[0] == INITIAL
    && forall i :: 0 <= i < |actions| ==>
      Enabled(states[i], actions[i]) && states[i + 1] == Apply(states[i], actions[i])
  }

  /******* The invariant *******/

  /** A creation that has not settled its own promise finds it pending or canceled. */
  predicate OpenOrCanceled(c: Cell) {
    c.Pending() || c == CANCELED_CELL
  }

  const CANCELED_CELL := Cell(None, Some(PromiseCanceled))

  /** What a creation's stage says of its promise. */
  ghost predicate CellFits(task: Task, c: Cell) {
    match task
    case Submit(_) => c.Pending()
    case CreateVolume(_) => OpenOrCanceled(c)
    case RejectPromise(_, err) => OpenOrCanceled(c) && err.CreationError?
    case FulfillPromise(_) => OpenOrCanceled(c)
    case DestroyVolume(_) => c == CANCELED_CELL
    case Ended(h, how) =>
      (match how
       case Refused => c.Pending()
       case Fulfilled => c == Cell(Some(VolumeOf(h)), None)
       case Rejected => c == CANCELED_CELL || (c.volume.None? && c.err.Some? && c.err.value.CreationError?)
       case Withdrawn => c == CANCELED_CELL
       case Leaked => c == CANCELED_CELL
       case Unexpected => false)
    case _ => true
  }

  /** A promise that a handler has got from the list. */
  ghost predicate Known(s: State, p: Tid) {
    p in s.cells && p in s.tasks && IsCreator(s.tasks[p]) && Listed(s.tasks[p])
  }

  ghost predicate PromiseFits(s: State, t: Tid, task: Task) {
    && (IsCreator(task) ==> t in s.cells && CellFits(task, s.cells[t]))
    && (task.CancelTest? || task.CancelReject? || task.CheckTest? || task.CheckRead? ==> Known(s, task.p))
    && (task.CheckRead? ==> !CellAt(s, task.p).Pending())
  }

  /** The promise of a creation that got past AddPromise. */
  predicate Listed(task: Task) {
    !task.Submit? && !(task.Ended? && task.how.Refused?)
  }

  /** The stages in which a creation's volume is live unless somebody else destroyed it, and
      those in which it can be live at all. */
  predicate MustLive(task: Task) {
    task.FulfillPromise? || task.DestroyVolume? || (task.Ended? && task.how.Fulfilled?)
  }

  predicate MayLive(task: Task) {
    MustLive(task) || (task.Ended? && task.how.Leaked?)
  }

  ghost predicate VolumeFits(s: State, t: Tid)
    requires t in s.tasks
  {
    MustLive(s.tasks[t]) && t !in s.lost ==> s.tasks[t].h in s.live && s.live[s.tasks[t].h] == t
  }

  ghost predicate LiveFits(s: State) {
    forall h <- s.live :: var t := s.live[h]; t in s.tasks && MayLive(s.tasks[t]) && s.tasks[t].h == h
  }

  ghost predicate ListFits(s: State) {
    forall h <- s.list :: Known(s, s.list[h]) && s.tasks[s.list[h]].h == h
  }

  /** Settled readings agree with the promise as it is, and no pending reading follows one. */
  ghost predicate SeenFits(s: State) {
    && (forall i | 0 <= i < |s.seen| :: s.seen[i].0 in s.cells)
    && (forall i | 0 <= i < |s.seen| && !s.seen[i].1.Pending() :: s.cells[s.seen[i].0] == s.seen[i].1)
    && (forall i, j | 0 <= i < j < |s.seen| && s.seen[i].0 == s.seen[j].0 && !s.seen[i].1.Pending() ::
          s.seen[j].1 == s.seen[i].1)
  }

  ghost predicate TasksFit(s: State) {
    && (forall p <- s.cells :: p in s.tasks && IsCreator(s.tasks[p]))
    && (forall t <- s.tasks :: PromiseFits(s, t, s.tasks[t]))
  }

  ghost predicate VolumesFit(s: State) {
    forall t <- s.tasks :: VolumeFits(s, t)
  }

  ghost predicate Inv(s: State) {
    TasksFit(s) && VolumesFit(s) && LiveFits(s) && ListFits(s) && SeenFits(s)
  }

  /** What a call does to promises: it settles a pending one, its own creation's in any way or
      a listed one by canceling it. */
  ghost predicate SettlesFairly(s: State, t: Tid, task: Task, e: Effect) {
    e.Settle? ==>
      && CellAt(s, e.p).Pending()
      && ((e.p == t && IsCreator(task)) || (!IsCreator(task) && e.cell == CANCELED_CELL && Known(s, e.p)))
  }

  /** What a call does to volumes, and what the task is allowed to become. */
  ghost predicate MovesFairly(s: State, task: Task, e: Effect, task': Task) {
    && IsCreator(task') == IsCreator(task) && task'.h == task.h
    && (IsCreator(task) && Listed(task) ==> Listed(task'))
    && (e.AddPromise? ==> e.h == task.h && IsCreator(task) && Listed(task'))
    && (e.Publish? ==> e.h == task.h && e.h !in s.live && task'.FulfillPromise? && !MayLive(task))
    && (e.Withdraw? ==> e.h == task.h && e.h in s.live && task.DestroyVolume? && !MayLive(task'))
    && (e.Read? ==> Known(s, e.p))
    && (MustLive(task') ==> MustLive(task) || e.Publish?)
    && (MayLive(task) && !MayLive(task') ==> e.Withdraw? || task.h !in s.live)
  }

  lemma PlanSettlesFairly(s: State, t: Tid, task: Task, ok: bool, message: string)
    requires PromiseFits(s, t, task)
    ensures SettlesFairly(s, t, task, Plan(s, t, task, ok, message).0)
  {}

  lemma PlanMovesFairly(s: State, t: Tid, task: Task, ok: bool, message: string)
    requires PromiseFits(s, t, task)
    ensures MovesFairly(s, task, Plan(s, t, task, ok, message).0, Plan(s, t, task, ok, message).1)
  {}

  /** After its call, a creation's stage fits the promise as the call left it. */
  lemma PlanFitsCell(s: State, t: Tid, task: Task, ok: bool, message: string)
    requires PromiseFits(s, t, task) && IsCreator(task)
    ensures CellFits(Plan(s, t, task, ok, message).1, CellAt(Perform(s, t, Plan(s, t, task, ok, message).0), t))
  {}

  lemma PlanFitsHandler(s: State, t: Tid, task: Task, ok: bool, message: string)
    requires PromiseFits(s, t, task) && !IsCreator(task) && ListFits(s)
    ensures
      var task' := Plan(s, t, task, ok, message).1;
      && (task'.CancelTest? || task'.CancelReject? || task'.CheckTest? || task'.CheckRead? ==> Known(s, task'.p))
      && (task'.CheckRead? ==> !CellAt(s, task'.p).Pending() && Plan(s, t, task, ok, message).0.Quiet?)
  {}

  lemma KnownStays(s: State, t: Tid, task: Task, e: Effect, task': Task, p: Tid)
    requires MovesFairly(s, task, e, task') && (t in s.tasks ==> s.tasks[t] == task) && Known(s, p)
    ensures Known(Move(s, t, e, task'), p)
  {}

  lemma OtherCellFits(s: State, t: Tid, task: Task, e: Effect, u: Tid)
    requires u in s.tasks && u != t && IsCreator(s.tasks[u])
    requires PromiseFits(s, u, s.tasks[u]) && SettlesFairly(s, t, task, e)
    ensures u in Perform(s, t, e).cells && CellFits(s.tasks[u], Perform(s, t, e).cells[u])
  {}

  lemma OtherTaskFits(s: State, t: Tid, task: Task, e: Effect, task': Task, u: Tid)
    requires MovesFairly(s, task, e, task') && SettlesFairly(s, t, task, e)
    requires (t in s.tasks ==> s.tasks[t] == task) && u in s.tasks && u != t && PromiseFits(s, u, s.tasks[u])
    ensures PromiseFits(Move(s, t, e, task'), u, s.tasks[u])
  {
    if IsCreator(s.tasks[u]) {
      OtherCellFits(s, t, task, e, u);
    } else if s.tasks[u].CancelTest? || s.tasks[u].CancelReject? || s.tasks[u].CheckTest? || s.tasks[u].CheckRead? {
      KnownStays(s, t, task, e, task', s.tasks[u].p);
    }
  }

  /** Settlement is write-once: no call changes a settled promise. */
  lemma SettledStays(s: State, t: Tid, task: Task, e: Effect, task': Task, p: Tid)
    requires SettlesFairly(s, t, task, e) && p in s.cells && !s.cells[p].Pending()
    ensures var s' := Move(s, t, e, task'); p in s'.cells && s'.cells[p] == s.cells[p]
  {}

  lemma VolumesKept(s: State, t: Tid, task: Task, e: Effect, task': Task)
    requires VolumesFit(s) && LiveFits(s) && MovesFairly(s, task, e, task')
    requires if t in s.tasks then s.tasks[t] == task else !MayLive(task)
    ensures VolumesFit(Move(s, t, e, task'))
  {
    forall u | u in s.tasks ensures VolumeFits(s, u) {}
  }

  lemma LiveKept(s: State, t: Tid, task: Task, e: Effect, task': Task)
    requires LiveFits(s) && MovesFairly(s, task, e, task')
    requires if t in s.tasks then s.tasks[t] == task else !MayLive(task)
    ensures LiveFits(Move(s, t, e, task'))
  {}

  lemma ListKept(s: State, t: Tid, task: Task, e: Effect, task': Task)
    requires ListFits(s) && MovesFairly(s, task, e, task')
    requires (t in s.tasks ==> s.tasks[t] == task) && (IsCreator(task) ==> t in Perform(s, t, e).cells)
    ensures ListFits(Move(s, t, e, task'))
  {
    var s' := Move(s, t, e, task');
    forall h | h in s'.list
      ensures Known(s', s'.list[h]) && s'.tasks[s'.list[h]].h == h
    {
      if h in s.list && s'.list[h] == s.list[h] { KnownStays(s, t, task, e, task', s.list[h]); }
    }
  }

  lemma SeenKept(s: State, t: Tid, task: Task, e: Effect, task': Task)
    requires SeenFits(s) && SettlesFairly(s, t, task, e) && MovesFairly(s, task, e, task')
    ensures SeenFits(Move(s, t, e, task'))
  {
    var s' := Move(s, t, e, task');
    forall i | 0 <= i < |s.seen|
      ensures s.seen[i].0 in s'.cells && (!s.seen[i].1.Pending() ==> s'.cells[s.seen[i].0] == s.seen[i].1)
    {
      if !s.seen[i].1.Pending() { SettledStays(s, t, task, e, task', s.seen[i].0); }
    }
  }

  lemma TasksKept(s: State, t: Tid, task: Task, e: Effect, task': Task)
    requires TasksFit(s) && MovesFairly(s, task, e, task') && SettlesFairly(s, t, task, e)
    requires (t in s.tasks ==> s.tasks[t] == task)
    requires PromiseFits(Move(s, t, e, task'), t, task')
    ensures TasksFit(Move(s, t, e, task'))
  {
    forall u | u in s.tasks && u != t
      ensures PromiseFits(Move(s, t, e, task'), u, s.tasks[u])
    {
      OtherTaskFits(s, t, task, e, task', u);
    }
  }

  lemma MoveKeepsInv(s: State, t: Tid, task: Task, e: Effect, task': Task)
    requires Inv(s) && MovesFairly(s, task, e, task') && SettlesFairly(s, t, task, e)
    requires if t in s.tasks then s.tasks[t] == task else !MayLive(task)
    requires PromiseFits(Move(s, t, e, task'), t, task')
    ensures Inv(Move(s, t, e, task'))
  {
    TasksKept(s, t, task, e, task');
    VolumesKept(s, t, task, e, task');
    LiveKept(s, t, task, e, task');
    ListKept(s, t, task, e, task');
    SeenKept(s, t, task, e, task');
  }

  lemma DoKeepsInv(s: State, t: Tid, ok: bool, message: string)
    requires Inv(s) && t in s.tasks
    ensures Inv(Apply(s, Do(t, ok, message)))
  {
    var task := s.tasks[t];
    var (e, task') := Plan(s, t, task, ok, message);
    assert PromiseFits(s, t, task);
    PlanSettlesFairly(s, t, task, ok, message);
    PlanMovesFairly(s, t, task, ok, message);
    if IsCreator(task) {
      PlanFitsCell(s, t, task, ok, message);
    } else {
      PlanFitsHandler(s, t, task, ok, message);
      if task'.CancelTest? || task'.CancelReject? || task'.CheckTest? || task'.CheckRead? {
        KnownStays(s, t, task, e, task', task'.p);
      }
    }
    MoveKeepsInv(s, t, task, e, task');
  }

  lemma OutsideKeepsInv(s: State, h: Handle)
    requires Inv(s) && h in s.live
    ensures Inv(Apply(s, OutsideDestroy(h)))
  {
    var s' := Apply(s, OutsideDestroy(h));
    forall t | t in s.tasks ensures VolumeFits(s', t) { assert VolumeFits(s, t); }
    forall t | t in s.tasks ensures PromiseFits(s', t, s.tasks[t]) { assert PromiseFits(s, t, s.tasks[t]); }
    assert LiveFits(s') && ListFits(s') && SeenFits(s');
  }

  lemma StepKeepsInv(s: State, a: Action)
    requires Inv(s) && Enabled(s, a)
    ensures Inv(Apply(s, a))
  {
    match a
    case StartCreate(t, h) => MoveKeepsInv(s, t, Submit(h), Settle(t, NEW_CELL), Submit(h));
    case StartCancel(t, h) => MoveKeepsInv(s, t, CancelGet(h), Quiet, CancelGet(h));
    case StartCheck(t, h) => MoveKeepsInv(s, t, CheckGet(h), Quiet, CheckGet(h));
    case OutsideDestroy(h) => OutsideKeepsInv(s, h);
    case Do(t, ok, message) => DoKeepsInv(s, t, ok, message);
  }

  lemma {:induction false} RunKeepsInv(states: seq<State>, actions: seq<Action>, i: nat)
    requires Run(states, actions) && i < |states|
    ensures Inv(states[i])
  {
    if i > 0 {
      RunKeepsInv(states, actions, i - 1);
      StepKeepsInv(states[i - 1], actions[i - 1]);
    }
  }

  /******* What clients are promised *******/

  /** A creation's own volume is live. */
  predicate VolumeLive(s: State, t: Tid)
    requires t in s.tasks
  {
    s.tasks[t].h in s.live && s.live[s.tasks[t].h] == t
  }

  /** Once a creation that was accepted has ended, for every position of the cancel and check
      steps: either its promise is fulfilled with its volume, which is live unless somebody
      else destroyed it; or its promise is rejected or canceled, and no volume of it is live
      unless its own destroy call failed. */
  lemma AsyncOutcome(states: seq<State>, actions: seq<Action>, i: nat, t: Tid)
    requires Run(states, actions) && i < |states|
    requires t in states[i].tasks && states[i].tasks[t].Ended? && !states[i].tasks[t].how.Refused?
    ensures
      var s := states[i];
      var h, how := s.tasks[t].h, s.tasks[t].how;
      && t in s.cells
      && (s.cells[t].volume == Some(VolumeOf(h)) <==> how.Fulfilled?)
      && (s.cells[t].err.Some? <==> !how.Fulfilled?)
      && (how.Fulfilled? ==> VolumeLive(s, t) || t in s.lost)
      && (!how.Fulfilled? && VolumeLive(s, t) ==> how.Leaked? && s.cells[t].err == Some(PromiseCanceled))
      && (forall h' <- s.live :: s.live[h'] == t ==> h' == h)
  {
    RunKeepsInv(states, actions, i);
    assert PromiseFits(states[i], t, states[i].tasks[t]) && VolumeFits(states[i], t);
  }

  lemma {:induction false} NobodyLost(states: seq<State>, actions: seq<Action>, i: nat)
    requires Run(states, actions) && i < |states|
    requires forall k | 0 <= k < |actions| :: !actions[k].OutsideDestroy?
    ensures states[i].lost == {}
  {
    if i > 0 {
      NobodyLost(states, actions, i - 1);
      RunKeepsInv(states, actions, i - 1);
      StepLosesNobody(states[i - 1], actions[i - 1]);
    }
  }

  lemma StepLosesNobody(s: State, a: Action)
    requires VolumesFit(s) && TasksFit(s) && Enabled(s, a) && !a.OutsideDestroy? && s.lost == {}
    ensures Apply(s, a).lost == {}
  {
    if a.Do? {
      assert VolumeFits(s, a.t);
      PlanMovesFairly(s, a.t, s.tasks[a.t], a.ok, a.message);
    }
  }

  /** Without outside destructions a fulfilled creation is live, even when handles are reused:
      withdrawing a canceled creation never hits the volume of another. */
  lemma FulfilledIsLive(states: seq<State>, actions: seq<Action>, i: nat, t: Tid)
    requires Run(states, actions) && i < |states|
    requires forall k | 0 <= k < |actions| :: !actions[k].OutsideDestroy?
    requires t in states[i].tasks && states[i].tasks[t].Ended? && states[i].tasks[t].how.Fulfilled?
    ensures VolumeLive(states[i], t)
  {
    NobodyLost(states, actions, i);
    AsyncOutcome(states, actions, i, t);
  }

  lemma StepKeepsSettled(s: State, a: Action, p: Tid)
    requires Inv(s) && Enabled(s, a) && p in s.cells && !s.cells[p].Pending()
    ensures p in Apply(s, a).cells && Apply(s, a).cells[p] == s.cells[p]
  {
    if a.Do? {
      var (e, task) := Plan(s, a.t, s.tasks[a.t], a.ok, a.message);
      PlanSettlesFairly(s, a.t, s.tasks[a.t], a.ok, a.message);
      SettledStays(s, a.t, s.tasks[a.t], e, task, p);
    }
  }

  /** Settlement is write-once over every run. */
  lemma {:induction false} WriteOnce(states: seq<State>, actions: seq<Action>, i: nat, j: nat, p: Tid)
    requires Run(states, actions) && i <= j < |states|
    requires p in states[i].cells && !states[i].cells[p].Pending()
    ensures p in states[j].cells && states[j].cells[p] == states[i].cells[p]
    decreases j
  {
    if i < j {
      WriteOnce(states, actions, i, j - 1, p);
      RunKeepsInv(states, actions, j - 1);
      StepKeepsSettled(states[j - 1], actions[j - 1], p);
    }
  }

  /** Once a check has read a settled promise, every later check that reads the same promise
      reads the same outcome. */
  lemma ChecksAgree(states: seq<State>, actions: seq<Action>, k: nat, i: nat, j: nat)
    requires Run(states, actions) && k < |states|
    requires i < j < |states[k].seen| && states[k].seen[i].0 == states[k].seen[j].0
    requires !states[k].seen[i].1.Pending()
    ensures states[k].seen[j].1 == states[k].seen[i].1
  {
    RunKeepsInv(states, actions, k);
  }

  /** A promise is listed under the handle of its creation, so under one handle only. */
  lemma ListedOnce(states: seq<State>, actions: seq<Action>, i: nat, h: Handle)
    requires Run(states, actions) && i < |states| && h in states[i].list
    ensures states[i].list[h] in states[i].tasks && states[i].tasks[states[i].list[h]].h == h
  {
    RunKeepsInv(states, actions, i);
  }

  /** A check that has found its promise settled never trips over a pending one. */
  lemma CheckNeverInternal(states: seq<State>, actions: seq<Action>, i: nat, t: Tid)
    requires Run(states, actions) && i < |states|
    requires t in states[i].tasks && states[i].tasks[t].CheckRead?
    ensures !CellAt(states[i], states[i].tasks[t].p).Pending()
  {
    RunKeepsInv(states, actions, i);
    assert PromiseFits(states[i], t, states[i].tasks[t]);
  }
}
