/** The life of a volume: made in `init`, published to `live`, retired to `dead`, removed.

    Creations and destructions run concurrently and touch the disk only through atomic
    calls on paths named by the volume's handle.  A process is at the call it will make
    next, and any call may fail.  No lock is modelled here: the results hold for every
    interleaving, so also for those the repository's locks allow. */
module Lifecycle {
  import opened Wrappers
  import opened Forest
  import P = Properties

  type Tid = nat

  /** A volume directory: its metadata files, whether the data directory is there, and the
      name its parent link points to.  `inst` tells apart directories made at different
      times under one name, and `since` when the directory became live; both are history
      that no operation looks at. */
  datatype Dir = Dir(
    inst: nat, props: Option<P.Properties>, priv: Option<bool>, data: bool, parent: Option<Handle>, since: nat)

  datatype Disk = Disk(
    init: map<Handle, Dir>, live: map<Handle, Dir>, dead: map<Handle, Dir>, nextInst: nat, clock: nat)

  datatype Strategy = Empty | Import | Cow(from: Handle)
  datatype Request = Request(handle: Handle, strategy: Strategy, props: P.Properties, priv: bool)

  /** What one call does to the disk.  Renaming onto an existing directory is not possible. */
  datatype Effect =
    | Nothing
    | Make(h: Handle)
    | Update(h: Handle, dir: Dir)
    | Publish(h: Handle)
    | RetireInit(h: Handle)
    | RetireLive(h: Handle)
    | DropInit(h: Handle)
    | DropDead(h: Handle)

  predicate Possible(d: Disk, e: Effect) {
    match e
    case Nothing => true
    case Make(h) => h !in d.init
    case Update(h, dir) => h in d.init && dir.inst == d.init[h].inst
    case Publish(h) => h in d.init && h !in d.live
    case RetireInit(h) => h in d.init && h !in d.dead
    case RetireLive(h) => h in d.live && h !in d.dead
    case DropInit(h) => true
    case DropDead(h) => true
  }

  function Perform(d: Disk, e: Effect): Disk
    requires Possible(d, e)
  {
    match e
    case Nothing => d
    case Make(h) => d.(init := d.init[h := Dir(d.nextInst, None, None, false, None, 0)], nextInst := d.nextInst + 1)
    case Update(h, dir) => d.(init := d.init[h := dir])
    case Publish(h) =>
      d.(init := d.init - {h}, live := d.live[h := d.init[h].(since := d.clock)], clock := d.clock + 1)
    case RetireInit(h) => d.(init := d.init - {h}, dead := d.dead[h := d.init[h]])
    case RetireLive(h) => d.(live := d.live - {h}, dead := d.dead[h := d.live[h]])
    case DropInit(h) => d.(init := d.init - {h})
    case DropDead(h) => d.(dead := d.dead - {h})
  }

  /******* Processes *******/

  /** Why a directory in `dead` is being torn down. */
  datatype Job = OfCreate(req: Request) | OfDestroy(handle: Handle)

  function JobHandle(j: Job): Handle {
    if j.OfCreate? then j.req.handle else j.handle
  }

  /** The call a process makes next, with the instance it made or retired (history). */
  datatype Stage =
    | LookupParent(req: Request)
    | Mkdir(req: Request)
    | StoreEmpty(req: Request, inst: nat)
    | DriverCreate(req: Request, inst: nat)
    | Symlink(req: Request, inst: nat)
    | CopyIn(req: Request, inst: nat)
    | StoreProperties(req: Request, inst: nat)
    | StorePrivileged(req: Request, inst: nat)
    | Initialize(req: Request, inst: nat)
    | Cleanup(req: Request, inst: nat)
    | DestroyInit(req: Request, inst: nat)
    | Created(req: Request, inst: nat)
    | Failed(req: Request, made: Option<nat>)
    | LookupVolume(handle: Handle)
    | DestroyLive(handle: Handle)
    | DriverDestroy(job: Job, inst: nat)
    | RemoveDead(job: Job, inst: nat)
    | Destroyed(handle: Handle, ok: bool)

  function Begin(req: Request): Stage {
    if req.strategy.Cow? then LookupParent(req) else Mkdir(req)
  }

  function Finish(job: Job, inst: nat, ok: bool): Stage {
    if job.OfCreate? then Failed(job.req, Some(inst)) else Destroyed(job.handle, ok)
  }

  /** The effect of the next call and the stage after it; `ok` is whether the operating system
      lets the call through. */
  function Plan(d: Disk, st: Stage, ok: bool): (Effect, Stage) {
    match st
    case LookupParent(req) =>
      if ok && req.strategy.Cow? && req.strategy.from != "" && req.strategy.from in d.live
      then (Nothing, Mkdir(req)) else (Nothing, Failed(req, None))
    case Mkdir(req) =>
      if ok && req.handle !in d.init then (Make(req.handle), StoreEmpty(req, d.nextInst))
      else (Nothing, Failed(req, None))
    case StoreEmpty(req, i) =>
      if ok && req.handle in d.init
      then (Update(req.handle, d.init[req.handle].(props := Some(map[]))), DriverCreate(req, i))
      else (Nothing, Failed(req, Some(i)))
    case DriverCreate(req, i) =>
      if ok && req.handle in d.init
      then (Update(req.handle, d.init[req.handle].(data := true)),
            match req.strategy
            case Empty => StoreProperties(req, i)
            case Import => CopyIn(req, i)
            case Cow(_) => Symlink(req, i))
      else (Nothing, Cleanup(req, i))
    case Symlink(req, i) =>
      if ok && req.handle in d.init && req.strategy.Cow?
      then (Update(req.handle, d.init[req.handle].(parent := Some(req.strategy.from))), StoreProperties(req, i))
      else (Nothing, DestroyInit(req, i))
    case CopyIn(req, i) =>
      if ok then (Nothing, StoreProperties(req, i)) else (Nothing, Failed(req, Some(i)))
    case StoreProperties(req, i) =>
      if ok && req.handle in d.init
      then (Update(req.handle, d.init[req.handle].(props := Some(req.props))), StorePrivileged(req, i))
      else (Nothing, DestroyInit(req, i))
    case StorePrivileged(req, i) =>
      if ok && req.handle in d.init
      then (Update(req.handle, d.init[req.handle].(priv := Some(req.priv))), Initialize(req, i))
      else (Nothing, DestroyInit(req, i))
    case Initialize(req, i) =>
      if ok && req.handle in d.init && req.handle !in d.live
      then (Publish(req.handle), Created(req, i))
      else (Nothing, DestroyInit(req, i))
    case Cleanup(req, i) => (if ok then DropInit(req.handle) else Nothing, Failed(req, Some(i)))
    case DestroyInit(req, i) =>
      if ok && req.handle in d.init && req.handle !in d.dead
      then (RetireInit(req.handle), DriverDestroy(OfCreate(req), i))
      else (Nothing, Failed(req, Some(i)))
    case LookupVolume(h) => (Nothing, if ok && h in d.live then DestroyLive(h) else Destroyed(h, false))
    case DestroyLive(h) =>
      if ok && h in d.live && h !in d.dead
      then (RetireLive(h), DriverDestroy(OfDestroy(h), d.live[h].inst))
      else (Nothing, Destroyed(h, false))
    case DriverDestroy(job, i) => (Nothing, if ok then RemoveDead(job, i) else Finish(job, i, false))
    case RemoveDead(job, i) => (if ok then DropDead(JobHandle(job)) else Nothing, Finish(job, i, ok))
    case Created(_, _) => (Nothing, st)
    case Failed(_, _) => (Nothing, st)
    case Destroyed(_, _) => (Nothing, st)
  }

  datatype State = State(disk: Disk, procs: map<Tid, Stage>)

  datatype Action =
    | StartCreate(t: Tid, req: Request)
    | StartDestroy(t: Tid, handle: Handle)
    | Do(t: Tid, ok: bool)

  const INITIAL := State(Disk(map[], map[], map[], 0, 1), map[])

  predicate Enabled(s: State, a: Action) {
    if a.Do? then a.t in s.procs else a.t !in s.procs
  }

  function EffectOf(s: State, a: Action): Effect
    requires Enabled(s, a)
  {
    if a.Do? then Plan(s.disk, s.procs[a.t], a.ok).0 else Nothing
  }

  function StageAfter(s: State, a: Action): Stage
    requires Enabled(s, a)
  {
    match a
    case StartCreate(t, req) => Begin(req)
    case StartDestroy(t, h) => LookupVolume(h)
    case Do(t, ok) => Plan(s.disk, s.procs[t], ok).1
  }

  function Apply(s: State, a: Action): State
    requires Enabled(s, a)
  {
    State(Perform(s.disk, EffectOf(s, a)), s.procs[a.t := StageAfter(s, a)])
  }

  ghost predicate Run(states: seq<State>, actions: seq<Action>) {
    && |states| == |actions| + 1
    && states[0] == INITIAL
    && forall i :: 0 <= i < |actions| ==>
      Enabled(states[i], actions[i]) && states[i + 1] == Apply(states[i], actions[i])
  }

  /******* Ownership *******/

  datatype Place = InInit(h: Handle) | InDead(h: Handle) | Nowhere

  /** The directory a process is working on. */
  function Owns(st: Stage): Place {
    match st
    case DriverDestroy(job, _) => InDead(JobHandle(job))
    case RemoveDead(job, _) => InDead(JobHandle(job))
    case Created(_, _) => Nowhere
    case Failed(_, _) => Nowhere
    case LookupParent(_) => Nowhere
    case Mkdir(_) => Nowhere
    case LookupVolume(_) => Nowhere
    case DestroyLive(_) => Nowhere
    case Destroyed(_, _) => Nowhere
    case _ => InInit(st.req.handle)
  }

  function InstOf(st: Stage): Option<nat> {
    match st
    case LookupParent(_) => None
    case Mkdir(_) => None
    case LookupVolume(_) => None
    case DestroyLive(_) => None
    case Destroyed(_, _) => None
    case Failed(_, made) => made
    case _ => Some(st.inst)
  }

  /** The request a process serves, if it is a creation. */
  function RequestOf(st: Stage): Option<Request> {
    match st
    case LookupVolume(_) => None
    case DestroyLive(_) => None
    case Destroyed(_, _) => None
    case DriverDestroy(job, _) => if job.OfCreate? then Some(job.req) else None
    case RemoveDead(job, _) => if job.OfCreate? then Some(job.req) else None
    case _ => Some(st.req)
  }

  /** The parent link that a request asks for. */
  function LinkOf(req: Request): Option<Handle> {
    if req.strategy.Cow? then Some(req.strategy.from) else None
  }

  predicate AsAsked(req: Request, dir: Dir) {
    dir.props == Some(req.props) && dir.priv == Some(req.priv) && dir.parent == LinkOf(req)
  }

  /** Which of its parts a directory has once its creation has reached a stage. */
  predicate Progress(st: Stage, dir: Dir) {
    match st
    case StoreEmpty(_, _) => dir.parent.None?
    case DriverCreate(_, _) => dir.parent.None?
    case Symlink(req, _) => dir.data && dir.parent.None? && req.strategy.Cow?
    case CopyIn(req, _) => dir.data && dir.parent.None? && req.strategy.Import?
    case StoreProperties(req, _) => dir.data && dir.parent == LinkOf(req)
    case StorePrivileged(req, _) => dir.data && dir.parent == LinkOf(req) && dir.props == Some(req.props)
    case Initialize(req, _) => dir.data && AsAsked(req, dir)
    case _ => true
  }

  ghost predicate Holds(d: Disk, st: Stage) {
    match Owns(st)
    case Nowhere => true
    case InInit(h) => h in d.init && InstOf(st) == Some(d.init[h].inst) && Progress(st, d.init[h])
    case InDead(h) => h in d.dead && InstOf(st) == Some(d.dead[h].inst)
  }

  ghost predicate InstIn(m: map<Handle, Dir>, i: nat) {
    exists h :: h in m && m[h].inst == i
  }

  ghost predicate OncePerMap(m: map<Handle, Dir>, bound: nat) {
    && (forall h <- m :: m[h].inst < bound)
    && (forall h, h' | h in m && h' in m && m[h].inst == m[h'].inst :: h == h')
  }

  /** No instance is in two places. */
  ghost predicate InstancesDistinct(d: Disk) {
    && OncePerMap(d.init, d.nextInst) && OncePerMap(d.live, d.nextInst) && OncePerMap(d.dead, d.nextInst)
    && (forall i :: !(InstIn(d.init, i) && InstIn(d.live, i)))
    && (forall i :: !(InstIn(d.init, i) && InstIn(d.dead, i)))
    && (forall i :: !(InstIn(d.live, i) && InstIn(d.dead, i)))
  }

  /** Every live volume has both metadata files and its data directory. */
  ghost predicate LiveComplete(d: Disk) {
    forall h <- d.live :: d.live[h].props.Some? && d.live[h].priv.Some? && d.live[h].data
  }

  /** Processes work on different directories, and creations on different instances. */
  ghost predicate Exclusive(s: State) {
    forall t, u | t in s.procs && u in s.procs && t != u ::
      && (Owns(s.procs[t]) != Nowhere ==> Owns(s.procs[t]) != Owns(s.procs[u]))
      && (RequestOf(s.procs[t]).Some? && RequestOf(s.procs[u]).Some? && InstOf(s.procs[t]).Some? ==>
            InstOf(s.procs[t]) != InstOf(s.procs[u]))
  }

  /** A creation's instance exists, and is not live unless the creation has succeeded, in which
      case it has what was asked for. */
  ghost predicate Faithful(d: Disk, st: Stage) {
    RequestOf(st).Some? && InstOf(st).Some? ==>
      && InstOf(st).value < d.nextInst
      && (!st.Created? ==> !InstIn(d.live, InstOf(st).value))
      && (st.Created? ==> forall h <- d.live :: d.live[h].inst == st.inst ==>
            h == st.req.handle && AsAsked(st.req, d.live[h]))
  }

  ghost predicate ProcessesSound(s: State) {
    forall t <- s.procs :: Holds(s.disk, s.procs[t]) && Faithful(s.disk, s.procs[t])
  }

  ghost predicate Inv(s: State) {
    && InstancesDistinct(s.disk)
    && LiveComplete(s.disk)
    && Exclusive(s)
    && ProcessesSound(s)
  }

  /******* The invariant holds over every run *******/

  lemma MakeKeepsDistinct(d: Disk, h: Handle)
    requires InstancesDistinct(d) && Possible(d, Make(h))
    ensures InstancesDistinct(Perform(d, Make(h)))
  {
    var d' := Perform(d, Make(h));
    forall i: nat
      ensures InstIn(d'.init, i) ==> InstIn(d.init, i) || i == d.nextInst
      ensures (InstIn(d.live, i) ==> i < d.nextInst) && (InstIn(d.dead, i) ==> i < d.nextInst)
    {
      if InstIn(d'.init, i) {
        var k :| k in d'.init && d'.init[k].inst == i;
      }
    }
  }

  /** Moving an instance from one map to another. */
  lemma MoveInst(src: map<Handle, Dir>, dst: map<Handle, Dir>, h: Handle, dir: Dir, bound: nat, i: nat)
    requires h in src && h !in dst && dir.inst == src[h].inst
    requires OncePerMap(src, bound) && OncePerMap(dst, bound) && !InstIn(dst, dir.inst)
    ensures OncePerMap(src - {h}, bound) && OncePerMap(dst[h := dir], bound)
    ensures InstIn(src - {h}, i) <==> InstIn(src, i) && i != dir.inst
    ensures InstIn(dst[h := dir], i) <==> InstIn(dst, i) || i == dir.inst
  {
    var dst' := dst[h := dir];
    assert dst'[h].inst == dir.inst;
    if InstIn(dst, i) { var k :| k in dst && dst[k].inst == i; assert dst'[k].inst == i; }
    if InstIn(src, i) && i != dir.inst { var k :| k in src && src[k].inst == i; assert k in src - {h}; }
  }

  lemma DropInst(m: map<Handle, Dir>, h: Handle, i: nat)
    requires InstIn(m - {h}, i)
    ensures InstIn(m, i)
  {
    var k :| k in m - {h} && (m - {h})[k].inst == i;
    assert k in m;
  }

  lemma UpdateInst(m: map<Handle, Dir>, h: Handle, dir: Dir, i: nat)
    requires h in m && dir.inst == m[h].inst
    ensures InstIn(m[h := dir], i) <==> InstIn(m, i)
  {
    var m' := m[h := dir];
    if InstIn(m, i) { var k :| k in m && m[k].inst == i; assert m'[k].inst == i; }
    if InstIn(m', i) { var k :| k in m' && m'[k].inst == i; assert m[k].inst == i; }
  }

  lemma PerformKeepsDistinct(d: Disk, e: Effect)
    requires InstancesDistinct(d) && Possible(d, e)
    ensures InstancesDistinct(Perform(d, e))
  {
    match e
    case Nothing =>
    case Make(h) => MakeKeepsDistinct(d, h);
    case Update(h, dir) =>
      forall i ensures InstIn(d.init[h := dir], i) <==> InstIn(d.init, i) { UpdateInst(d.init, h, dir, i); }
    case Publish(h) =>
      assert InstIn(d.init, d.init[h].inst);
      forall i { MoveInst(d.init, d.live, h, d.init[h].(since := d.clock), d.nextInst, i); }
    case RetireInit(h) =>
      assert InstIn(d.init, d.init[h].inst);
      forall i { MoveInst(d.init, d.dead, h, d.init[h], d.nextInst, i); }
    case RetireLive(h) =>
      assert InstIn(d.live, d.live[h].inst);
      forall i { MoveInst(d.live, d.dead, h, d.live[h], d.nextInst, i); }
    case DropInit(h) =>
      forall i | InstIn(d.init - {h}, i) ensures InstIn(d.init, i) { DropInst(d.init, h, i); }
    case DropDead(h) =>
      forall i | InstIn(d.dead - {h}, i) ensures InstIn(d.dead, i) { DropInst(d.dead, h, i); }
  }

  /** A call changes a directory of `init` or `dead` only if its process owns it, or the
      directory is not there yet. */
  ghost predicate Authorized(st: Stage, e: Effect) {
    match e
    case Nothing => true
    case Make(h) => true
    case Update(h, _) => Owns(st) == InInit(h)
    case Publish(h) => Owns(st) == InInit(h) && st.Initialize?
    case RetireInit(h) => Owns(st) == InInit(h) && st.DestroyInit?
    case RetireLive(h) => Owns(st) == Nowhere && st.DestroyLive?
    case DropInit(h) => Owns(st) == InInit(h)
    case DropDead(h) => Owns(st) == InDead(h)
  }

  /** What a process can newly own was not there before. */
  ghost predicate Acquires(d: Disk, st: Stage, st': Stage) {
    || Owns(st') == Nowhere || Owns(st') == Owns(st)
    || (Owns(st').InInit? && Owns(st').h !in d.init)
    || (Owns(st').InDead? && Owns(st').h !in d.dead)
  }

  /** A creation keeps its request and its one instance, and ends in Created by publishing. */
  ghost predicate KeepsInstance(d: Disk, st: Stage, e: Effect, st': Stage) {
    && RequestOf(st') == RequestOf(st)
    && (RequestOf(st).Some? ==>
          InstOf(st') == InstOf(st) || (InstOf(st).None? && InstOf(st') == Some(d.nextInst) && e.Make?))
    && (st.Created? ==> st' == st)
    && (e.Publish? ==> st'.Created?)
    && (st'.Created? ==>
          st.Created? || (st.Initialize? && e == Publish(st.req.handle) && st' == Created(st.req, st.inst)))
  }

  /** All that the invariant needs to know of one call: from stage `st`, with effect `e`, to
      stage `st'`. */
  ghost predicate SoundCall(d: Disk, st: Stage, e: Effect, st': Stage) {
    && Possible(d, e)
    && Authorized(st, e)
    && Acquires(d, st, st')
    && KeepsInstance(d, st, e, st')
    && (Holds(d, st) ==> Holds(Perform(d, e), st'))
  }

  lemma PlanHeldInInit(d: Disk, st: Stage, ok: bool)
    requires Holds(d, st) && Owns(st).InInit? && !st.DestroyInit?
    ensures Holds(Perform(d, Plan(d, st, ok).0), Plan(d, st, ok).1)
  {}

  lemma PlanHeld(d: Disk, st: Stage, ok: bool)
    requires Holds(d, st)
    ensures Holds(Perform(d, Plan(d, st, ok).0), Plan(d, st, ok).1)
  {
    if Owns(st).InInit? && !st.DestroyInit? { PlanHeldInInit(d, st, ok); }
  }

  lemma PlanKeepsInstance(d: Disk, st: Stage, ok: bool)
    ensures KeepsInstance(d, st, Plan(d, st, ok).0, Plan(d, st, ok).1)
  {}

  lemma PlanAcquires(d: Disk, st: Stage, ok: bool)
    ensures Authorized(st, Plan(d, st, ok).0) && Acquires(d, st, Plan(d, st, ok).1)
  {}

  lemma PlanIsSound(d: Disk, st: Stage, ok: bool)
    ensures SoundCall(d, st, Plan(d, st, ok).0, Plan(d, st, ok).1)
  {
    PlanAcquires(d, st, ok);
    PlanKeepsInstance(d, st, ok);
    if Holds(d, st) { PlanHeld(d, st, ok); }
  }

  lemma OtherPlaceHeld(d: Disk, st: Stage, e: Effect, other: Stage)
    requires Possible(d, e) && Authorized(st, e) && Holds(d, other)
    requires Owns(st) != Nowhere ==> Owns(st) != Owns(other)
    ensures Holds(Perform(d, e), other)
  {}

  /** A process as it is before a call; one that is starting owns and has made nothing. */
  ghost predicate AtStage(s: State, t: Tid, st: Stage) {
    if t in s.procs then s.procs[t] == st else Owns(st) == Nowhere && InstOf(st).None?
  }

  lemma CallKeepsExclusive(s: State, t: Tid, st: Stage, e: Effect, st': Stage)
    requires Exclusive(s) && ProcessesSound(s) && AtStage(s, t, st)
    requires Possible(s.disk, e) && Acquires(s.disk, st, st') && KeepsInstance(s.disk, st, e, st')
    ensures Exclusive(State(Perform(s.disk, e), s.procs[t := st']))
  {
    forall u | u in s.procs && u != t
      ensures Owns(st') == Nowhere || Owns(st') != Owns(s.procs[u])
      ensures RequestOf(st').Some? && RequestOf(s.procs[u]).Some? && InstOf(st').Some? ==>
        InstOf(st') != InstOf(s.procs[u])
    {
      assert Holds(s.disk, s.procs[u]) && Faithful(s.disk, s.procs[u]);
    }
  }

  lemma LiveAfter(d: Disk, e: Effect, i: nat)
    requires Possible(d, e)
    ensures InstIn(Perform(d, e).live, i) ==> InstIn(d.live, i) || (e.Publish? && d.init[e.h].inst == i)
  {
    var d' := Perform(d, e);
    if InstIn(d'.live, i) {
      var h :| h in d'.live && d'.live[h].inst == i;
      if h in d.live { assert d.live[h].inst == i; }
    }
  }

  lemma OtherFaithful(s: State, t: Tid, st: Stage, e: Effect, st': Stage, u: Tid)
    requires Inv(s) && AtStage(s, t, st) && SoundCall(s.disk, st, e, st') && u in s.procs && u != t
    ensures Faithful(Perform(s.disk, e), s.procs[u])
  {
    var other := s.procs[u];
    var d := s.disk;
    assert Faithful(d, other);
    if RequestOf(other).Some? && InstOf(other).Some? {
      if e.Publish? {
        assert t in s.procs && Holds(d, st);
        assert d.init[e.h].inst != InstOf(other).value;
      }
      LiveAfter(d, e, InstOf(other).value);
    }
  }

  lemma OwnFaithful(s: State, t: Tid, st: Stage, e: Effect, st': Stage)
    requires Inv(s) && AtStage(s, t, st) && SoundCall(s.disk, st, e, st')
    ensures Faithful(Perform(s.disk, e), st')
  {
    var d := s.disk;
    if t in s.procs { assert Holds(d, st) && Faithful(d, st); }
    if InstOf(st').Some? { LiveAfter(d, e, InstOf(st').value); }
    if e.Publish? {
      assert InstIn(d.init, d.init[st.req.handle].inst);
      forall h | h in d.live ensures d.live[h].inst != st.inst { assert InstIn(d.live, d.live[h].inst); }
    }
  }

  lemma CallKeepsInv(s: State, t: Tid, st: Stage, e: Effect, st': Stage)
    requires Inv(s) && AtStage(s, t, st) && SoundCall(s.disk, st, e, st')
    ensures Inv(State(Perform(s.disk, e), s.procs[t := st']))
  {
    PerformKeepsDistinct(s.disk, e);
    CallKeepsExclusive(s, t, st, e, st');
    CallKeepsComplete(s, t, st, e, st');
    CallKeepsProcesses(s, t, st, e, st');
  }

  lemma CallKeepsComplete(s: State, t: Tid, st: Stage, e: Effect, st': Stage)
    requires Inv(s) && AtStage(s, t, st) && SoundCall(s.disk, st, e, st')
    ensures LiveComplete(Perform(s.disk, e))
  {
    if t in s.procs { assert Holds(s.disk, st); }
  }

  lemma CallKeepsProcesses(s: State, t: Tid, st: Stage, e: Effect, st': Stage)
    requires Inv(s) && AtStage(s, t, st) && SoundCall(s.disk, st, e, st')
    ensures ProcessesSound(State(Perform(s.disk, e), s.procs[t := st']))
  {
    OwnFaithful(s, t, st, e, st');
    assert Holds(s.disk, st);
    forall u | u in s.procs && u != t
      ensures Holds(Perform(s.disk, e), s.procs[u]) && Faithful(Perform(s.disk, e), s.procs[u])
    {
      OtherFaithful(s, t, st, e, st', u);
      OtherPlaceHeld(s.disk, st, e, s.procs[u]);
    }
  }

  /** Every step is a sound call of its process; starting one is a call without effect. */
  lemma StepIsSound(s: State, a: Action) returns (st: Stage, e: Effect, st': Stage)
    requires Enabled(s, a)
    ensures AtStage(s, a.t, st) && SoundCall(s.disk, st, e, st')
    ensures Apply(s, a) == State(Perform(s.disk, e), s.procs[a.t := st'])
  {
    e, st' := EffectOf(s, a), StageAfter(s, a);
    if a.Do? {
      st := s.procs[a.t];
      PlanIsSound(s.disk, st, a.ok);
    } else {
      st := st';
    }
  }

  lemma StepKeepsInv(s: State, a: Action)
    requires Inv(s) && Enabled(s, a)
    ensures Inv(Apply(s, a))
  {
    var st, e, st' := StepIsSound(s, a);
    CallKeepsInv(s, a.t, st, e, st');
  }

  lemma {:induction false} RunKeepsInv(states: seq<State>, actions: seq<Action>, i: nat)
    requires Run(states, actions) && i < |states|
    ensures Inv(states[i])
  {
    if i > 0 {
      RunKeepsInv(states, actions, i - 1);
      StepKeepsInv(states[i - 1], actions[i - 1]);
    }
  }

  /******* Lifecycle safety *******/

  datatype Phase = Unborn | Init | Live | Dead | Gone

  ghost function PhaseOf(d: Disk, i: nat): Phase {
    if i >= d.nextInst then Unborn
    else if InstIn(d.init, i) then Init
    else if InstIn(d.live, i) then Live
    else if InstIn(d.dead, i) then Dead
    else Gone
  }

  /** The only ways forward: a volume is born in init, and goes from init to live, dead or
      nothing, from live to dead, and from dead to nothing. */
  predicate Forward(p: Phase, q: Phase) {
    || p == q
    || (p == Unborn && q == Init)
    || (p == Init && q in {Live, Dead, Gone})
    || (p == Live && q == Dead)
    || (p == Dead && q == Gone)
  }

  lemma EffectMovesForward(d: Disk, e: Effect, i: nat)
    requires InstancesDistinct(d) && Possible(d, e)
    ensures Forward(PhaseOf(d, i), PhaseOf(Perform(d, e), i))
  {
    var d' := Perform(d, e);
    match e
    case Nothing =>
    case Make(h) =>
      if i == d.nextInst { assert d'.init[h].inst == i; }
      if InstIn(d.init, i) { var k :| k in d.init && d.init[k].inst == i; assert d'.init[k].inst == i; }
      if InstIn(d'.init, i) && i != d.nextInst { var k :| k in d'.init && d'.init[k].inst == i; assert k in d.init; }
    case Update(h, dir) => UpdateInst(d.init, h, dir, i);
    case Publish(h) =>
      assert InstIn(d.init, d.init[h].inst);
      MoveInst(d.init, d.live, h, d.init[h].(since := d.clock), d.nextInst, i);
    case RetireInit(h) =>
      assert InstIn(d.init, d.init[h].inst);
      MoveInst(d.init, d.dead, h, d.init[h], d.nextInst, i);
    case RetireLive(h) =>
      assert InstIn(d.live, d.live[h].inst);
      MoveInst(d.live, d.dead, h, d.live[h], d.nextInst, i);
    case DropInit(h) => if InstIn(d.init - {h}, i) { DropInst(d.init, h, i); }
    case DropDead(h) => if InstIn(d.dead - {h}, i) { DropInst(d.dead, h, i); }
  }

  lemma EffectKeepsLive(d: Disk, e: Effect, h: Handle)
    requires Possible(d, e) && h in d.live && h in Perform(d, e).live
    ensures Perform(d, e).live[h] == d.live[h]
  {}

  /** Over every run each instance only moves forward through its phases. */
  lemma LifecycleSafety(states: seq<State>, actions: seq<Action>, i: nat, inst: nat)
    requires Run(states, actions) && i < |actions|
    ensures Forward(PhaseOf(states[i].disk, inst), PhaseOf(states[i + 1].disk, inst))
  {
    var e := RunEffect(states, actions, i);
    EffectMovesForward(states[i].disk, e, inst);
  }

  lemma RunEffect(states: seq<State>, actions: seq<Action>, i: nat) returns (e: Effect)
    requires Run(states, actions) && i < |actions|
    ensures InstancesDistinct(states[i].disk)
    ensures Possible(states[i].disk, e) && states[i + 1].disk == Perform(states[i].disk, e)
  {
    assert InstancesDistinct(states[i].disk) by { RunKeepsInv(states, actions, i); }
    e := StepEffect(states[i], actions[i]);
  }

  lemma StepEffect(s: State, a: Action) returns (e: Effect)
    requires Enabled(s, a)
    ensures Possible(s.disk, e) && Apply(s, a).disk == Perform(s.disk, e)
  {
    e := EffectOf(s, a);
  }

  /** A live slot is never overwritten: while a name stays live, its directory stays the same. */
  lemma LiveSlotKept(states: seq<State>, actions: seq<Action>, i: nat, h: Handle)
    requires Run(states, actions) && i < |actions|
    requires h in states[i].disk.live && h in states[i + 1].disk.live
    ensures states[i + 1].disk.live[h] == states[i].disk.live[h]
  {
    var e := RunEffect(states, actions, i);
    EffectKeepsLive(states[i].disk, e, h);
  }

  /** At every point of every run each live volume has its properties, its privileged flag and
      its data directory. */
  lemma LiveVolumesComplete(states: seq<State>, actions: seq<Action>, i: nat, h: Handle)
    requires Run(states, actions) && i < |states| && h in states[i].disk.live
    ensures var dir := states[i].disk.live[h]; dir.props.Some? && dir.priv.Some? && dir.data
  {
    RunKeepsInv(states, actions, i);
  }

  /** A creation that has failed, now or later, has nothing in live; one that succeeded has
      what was asked for, for as long as it is live. */
  lemma CreationOutcome(states: seq<State>, actions: seq<Action>, i: nat, t: Tid, h: Handle)
    requires Run(states, actions) && i < |states| && t in states[i].procs && h in states[i].disk.live
    ensures
      var st, dir := states[i].procs[t], states[i].disk.live[h];
      && (st.Failed? ==> st.made != Some(dir.inst))
      && (st.Created? && st.inst == dir.inst ==>
            h == st.req.handle && AsAsked(st.req, dir))
  {
    RunKeepsInv(states, actions, i);
    assert Faithful(states[i].disk, states[i].procs[t]);
    assert InstIn(states[i].disk.live, states[i].disk.live[h].inst);
  }

  /******* The parent forest *******/

  /** A creation that has found its parent and not yet linked to it. */
  predicate InFlight(st: Stage, parent: Handle) {
    && (st.Mkdir? || st.StoreEmpty? || st.DriverCreate? || st.Symlink?)
    && st.req.strategy == Cow(parent)
  }

  /** Something still needs this volume as a parent: an init or live child, or a creation
      under way. */
  ghost predicate HasDependents(s: State, h: Handle) {
    || (exists c :: c in s.disk.init && s.disk.init[c].parent == Some(h))
    || (exists c :: c in s.disk.live && s.disk.live[c].parent == Some(h))
    || (exists t :: t in s.procs && InFlight(s.procs[t], h))
  }

  /** The documented duty of API consumers: children are deleted before their parents. */
  ghost predicate ChildrenFirst(s: State, a: Action)
    requires Enabled(s, a)
  {
    EffectOf(s, a).RetireLive? ==> !HasDependents(s, EffectOf(s, a).h)
  }

  ghost predicate OrderlyRun(states: seq<State>, actions: seq<Action>) {
    Run(states, actions) && forall i :: 0 <= i < |actions| ==> ChildrenFirst(states[i], actions[i])
  }

  /** The parent links of the live volumes. */
  function LinksOf(d: Disk): Links {
    map h | h in d.live :: d.live[h].parent
  }

  ghost predicate LiveLinksHold(d: Disk) {
    && (forall h <- d.live :: d.live[h].since < d.clock)
    && (forall h <- d.live :: d.live[h].parent.Some? ==>
          var p := d.live[h].parent.value;
          p in d.live && d.live[p].since < d.live[h].since)
  }

  ghost predicate LinksHold(s: State) {
    && LiveLinksHold(s.disk)
    && (forall h <- s.disk.init :: s.disk.init[h].parent.Some? ==> s.disk.init[h].parent.value in s.disk.live)
    && (forall t <- s.procs, p :: InFlight(s.procs[t], p) ==> p in s.disk.live)
  }

  /** A creation in flight was so before or has just found its parent live, and only one in
      flight links. */
  lemma FlightAndLink(d: Disk, st: Stage, ok: bool, p: Handle)
    ensures var (e, st') := Plan(d, st, ok);
      && (InFlight(st', p) ==> !e.RetireLive? && (InFlight(st, p) || p in d.live))
      && (e.Update? && e.dir.parent == Some(p) ==> InFlight(st, p) || d.init[e.h].parent == Some(p))
  {}

  /** What a step puts in flight or links to is live. */
  lemma TargetIsLive(s: State, a: Action, p: Handle)
    requires Enabled(s, a) && LinksHold(s)
    ensures InFlight(StageAfter(s, a), p) ==> p in s.disk.live && !EffectOf(s, a).RetireLive?
    ensures var e := EffectOf(s, a); e.Update? && e.dir.parent == Some(p) ==> p in s.disk.live
  {
    if a.Do? { FlightAndLink(s.disk, s.procs[a.t], a.ok, p); }
  }

  /** What is live stays live, unless a destruction takes it. */
  lemma StaysLive(d: Disk, e: Effect, p: Handle)
    requires Possible(d, e) && p in d.live && (e.RetireLive? ==> p != e.h)
    ensures p in Perform(d, e).live
  {}

  /** A link in init was there before, or is the one just made. */
  lemma InitLinkSource(d: Disk, e: Effect, h: Handle, p: Handle)
    requires Possible(d, e) && h in Perform(d, e).init && Perform(d, e).init[h].parent == Some(p)
    ensures (h in d.init && d.init[h].parent == Some(p)) || (e.Update? && e.dir.parent == Some(p))
  {}

  lemma CallKeepsLinks(s: State, t: Tid, e: Effect, st': Stage)
    requires Possible(s.disk, e) && LinksHold(s) && (e.RetireLive? ==> !HasDependents(s, e.h))
    requires forall p | InFlight(st', p) :: p in s.disk.live && !e.RetireLive?
    requires e.Update? && e.dir.parent.Some? ==> e.dir.parent.value in s.disk.live
    ensures LinksHold(State(Perform(s.disk, e), s.procs[t := st']))
  {
    var s' := State(Perform(s.disk, e), s.procs[t := st']);
    forall u, p | u in s'.procs && InFlight(s'.procs[u], p) ensures p in s'.disk.live { StaysLive(s.disk, e, p); }
    forall h | h in s'.disk.init && s'.disk.init[h].parent.Some?
      ensures s'.disk.init[h].parent.value in s'.disk.live
    {
      InitLinkSource(s.disk, e, h, s'.disk.init[h].parent.value);
      StaysLive(s.disk, e, s'.disk.init[h].parent.value);
    }
    EffectKeepsLiveLinks(s.disk, e);
  }

  lemma StepKeepsLinks(s: State, a: Action)
    requires Enabled(s, a) && LinksHold(s) && ChildrenFirst(s, a)
    ensures LinksHold(Apply(s, a))
  {
    forall p { TargetIsLive(s, a, p); }
    CallKeepsLinks(s, a.t, EffectOf(s, a), StageAfter(s, a));
  }

  lemma EffectKeepsLiveLinks(d: Disk, e: Effect)
    requires Possible(d, e) && LiveLinksHold(d)
    requires e.Publish? && d.init[e.h].parent.Some? ==> d.init[e.h].parent.value in d.live
    requires e.RetireLive? ==> forall c <- d.live :: d.live[c].parent != Some(e.h)
    ensures LiveLinksHold(Perform(d, e))
  {
    match e
    case Publish(h) =>
    case RetireLive(h) =>
    case _ => assert Perform(d, e).live == d.live;
  }

  lemma {:induction false} OrderlyRunKeepsLinks(states: seq<State>, actions: seq<Action>, i: nat)
    requires OrderlyRun(states, actions) && i < |states|
    ensures LinksHold(states[i])
  {
    if i > 0 {
      OrderlyRunKeepsLinks(states, actions, i - 1);
      StepKeepsLinks(states[i - 1], actions[i - 1]);
    }
  }

  /** In every state that orderly runs reach, the parent links of the live volumes are closed
      and acyclic, so every chain of parents ends at a unique root. */
  lemma ParentForest(states: seq<State>, actions: seq<Action>, i: nat)
    requires OrderlyRun(states, actions) && i < |states|
    ensures WellFounded(LinksOf(states[i].disk))
  {
    OrderlyRunKeepsLinks(states, actions, i);
    var d := states[i].disk;
    var rank := map h | h in d.live :: d.live[h].since;
    assert RankedBy(LinksOf(d), rank);
  }

  /** The rule is exact: destroying a volume keeps the links sound if and only if nothing
      depends on the volume. */
  lemma ChildrenFirstExact(s: State, a: Action)
    requires Enabled(s, a) && LinksHold(s) && EffectOf(s, a).RetireLive?
    ensures LinksHold(Apply(s, a)) <==> !HasDependents(s, EffectOf(s, a).h)
  {
    var h, s' := EffectOf(s, a).h, Apply(s, a);
    if !HasDependents(s, h) {
      StepKeepsLinks(s, a);
    } else if c :| c in s.disk.init && s.disk.init[c].parent == Some(h) {
      assert s'.disk.init[c].parent == Some(h);
    } else if c :| c in s.disk.live && s.disk.live[c].parent == Some(h) {
      assert s'.disk.live[c].parent == Some(h);
    } else {
      var t :| t in s.procs && InFlight(s.procs[t], h);
      assert InFlight(s'.procs[t], h);
    }
  }
}
