/** The volume directories as the object that the repository works on, one call after another.

    Module Lifecycle interleaves the same calls; here a whole CreateVolume or DestroyVolume runs
    undisturbed, with any of its calls failing and its deferred cleanup included.  Each method
    is also shown to be a series of steps of one process of that module. */
module Filesystem {
  import opened Wrappers
  import opened Forest
  import opened Lifecycle

  /** A failed creation of `h` left `live` alone, and in `init` and `dead` can only have left a
      directory under its own name where there was none. */
  ghost predicate FailedCleanly(d: Disk, d': Disk, h: Handle) {
    && d'.live == d.live
    && d'.init - {h} == d.init - {h} && d'.dead - {h} == d.dead - {h}
    && (h in d.init ==> h in d'.init && d'.init[h] == d.init[h])
    && (h in d.dead ==> h in d'.dead && d'.dead[h] == d.dead[h])
  }

  lemma LeftInInit(d: Disk, d': Disk, h: Handle)
    requires h !in d.init && h in d'.init && d'.init == d.init[h := d'.init[h]]
    requires d'.live == d.live && d'.dead == d.dead
    ensures FailedCleanly(d, d', h)
  {
    assert d.init[h := d'.init[h]] - {h} == d.init - {h};
  }

  /******* Steps of one process *******/

  function Did(d: Disk, st: Stage, ok: bool): (Disk, Stage) {
    var (e, st') := Plan(d, st, ok);
    (Perform(d, e), st')
  }

  function Fold<S>(next: (S, bool) -> S, s: S, oks: seq<bool>): S {
    if oks == [] then s else next(Fold(next, s, oks[..|oks| - 1]), oks[|oks| - 1])
  }

  function Next(x: (Disk, Stage), ok: bool): (Disk, Stage) {
    Did(x.0, x.1, ok)
  }

  /** A process that makes its calls one after the other, each going through or not. */
  function Series(d: Disk, st: Stage, oks: seq<bool>): (Disk, Stage) {
    Fold(Next, (d, st), oks)
  }

  /** A process that nobody disturbs gets from one disk and stage to another. */
  ghost predicate Leads(d: Disk, st: Stage, d': Disk, st': Stage) {
    exists oks :: Series(d, st, oks) == (d', st')
  }

  lemma Stays(d: Disk, st: Stage)
    ensures Leads(d, st, d, st)
  {
    assert Series(d, st, []) == (d, st);
  }

  lemma {:induction false} FoldConcat<S>(next: (S, bool) -> S, s: S, a: seq<bool>, b: seq<bool>)
    ensures Fold(next, s, a + b) == Fold(next, Fold(next, s, a), b)
  {
    if b == [] {
      assert a + b == a;
    } else {
      var n := |b| - 1;
      assert (a + b)[..|a| + n] == a + b[..n];
      FoldConcat(next, s, a, b[..n]);
    }
  }

  lemma FoldOne<S>(next: (S, bool) -> S, s: S, ok: bool)
    ensures Fold(next, s, [ok]) == next(s, ok)
  {
    assert Fold(next, s, [ok][..0]) == s;
  }

  lemma Goes(d: Disk, st: Stage, d1: Disk, st1: Stage, ok: bool, d2: Disk, st2: Stage)
    requires Leads(d, st, d1, st1) && Did(d1, st1, ok) == (d2, st2)
    ensures Leads(d, st, d2, st2)
  {
    FoldOne(Next, (d1, st1), ok);
    assert Series(d1, st1, [ok]) == (d2, st2);
    GoesOn(d, st, d1, st1, d2, st2);
  }

  lemma GoesOn(d: Disk, st: Stage, d1: Disk, st1: Stage, d2: Disk, st2: Stage)
    requires Leads(d, st, d1, st1) && Leads(d1, st1, d2, st2)
    ensures Leads(d, st, d2, st2)
  {
    var a :| Series(d, st, a) == (d1, st1);
    var b :| Series(d1, st1, b) == (d2, st2);
    FoldConcat(Next, (d, st), a, b);
    assert Series(d, st, a + b) == (d2, st2);
  }

  /** The strategy of a request finds what it needs. */
  ghost predicate ParentLive(d: Disk, req: Request) {
    req.strategy.Cow? ==> req.strategy.from != "" && req.strategy.from in d.live
  }

  lemma Once(d: Disk, st: Stage, ok: bool, d': Disk, st': Stage)
    requires Did(d, st, ok) == (d', st')
    ensures Leads(d, st, d', st')
  {
    Stays(d, st);
    Goes(d, st, d, st, ok, d', st');
  }

  lemma MkdirLeads(d: Disk, req: Request)
    ensures Leads(d, Mkdir(req), d, Failed(req, None))
    ensures req.handle !in d.init ==>
      Leads(d, Mkdir(req), d.(init := d.init[req.handle := Dir(d.nextInst, None, None, false, None, 0)],
                              nextInst := d.nextInst + 1), StoreEmpty(req, d.nextInst))
  {
    Once(d, Mkdir(req), false, d, Failed(req, None));
    if req.handle !in d.init {
      Once(d, Mkdir(req), true, Perform(d, Make(req.handle)), StoreEmpty(req, d.nextInst));
    }
  }

  lemma StoreEmptyLeads(d: Disk, req: Request, n: nat)
    requires req.handle in d.init
    ensures Leads(d, StoreEmpty(req, n), d, Failed(req, Some(n)))
    ensures Leads(d, StoreEmpty(req, n),
                  d.(init := d.init[req.handle := d.init[req.handle].(props := Some(map[]))]), DriverCreate(req, n))
  {
    Once(d, StoreEmpty(req, n), false, d, Failed(req, Some(n)));
    var e := Update(req.handle, d.init[req.handle].(props := Some(map[])));
    Once(d, StoreEmpty(req, n), true, Perform(d, e), DriverCreate(req, n));
  }

  lemma ParentLeads(d: Disk, req: Request)
    requires req.strategy.Cow?
    ensures Leads(d, Begin(req), d, Failed(req, None))
    ensures ParentLive(d, req) ==> Leads(d, Begin(req), d, Mkdir(req))
  {
    Once(d, Begin(req), false, d, Failed(req, None));
    if ParentLive(d, req) { Once(d, Begin(req), true, d, Mkdir(req)); }
  }

  lemma CopyLeads(d: Disk, req: Request, n: nat)
    ensures Leads(d, CopyIn(req, n), d, Failed(req, Some(n))) && Leads(d, CopyIn(req, n), d, StoreProperties(req, n))
  {
    Once(d, CopyIn(req, n), false, d, Failed(req, Some(n)));
    Once(d, CopyIn(req, n), true, d, StoreProperties(req, n));
  }

  lemma LookupLeads(d: Disk, h: Handle)
    ensures Leads(d, Stage.LookupVolume(h), d, Destroyed(h, false))
    ensures h in d.live ==> Leads(d, Stage.LookupVolume(h), d, DestroyLive(h))
  {
    Once(d, Stage.LookupVolume(h), false, d, Destroyed(h, false));
    if h in d.live { Once(d, Stage.LookupVolume(h), true, d, DestroyLive(h)); }
  }

  lemma RetireLeads(d: Disk, h: Handle)
    requires h in d.live
    ensures Leads(d, DestroyLive(h), d, Destroyed(h, false))
    ensures h !in d.dead ==>
      Leads(d, DestroyLive(h), d.(live := d.live - {h}, dead := d.dead[h := d.live[h]]),
            DriverDestroy(OfDestroy(h), d.live[h].inst))
  {
    Once(d, DestroyLive(h), false, d, Destroyed(h, false));
    if h !in d.dead {
      Once(d, DestroyLive(h), true, Perform(d, RetireLive(h)), DriverDestroy(OfDestroy(h), d.live[h].inst));
    }
  }

  /** Such a series is a run of the interleaved module in which only this process moves. */
  lemma {:induction false} SeriesIsRun(s: State, t: Tid, oks: seq<bool>)
    requires t in s.procs
    ensures var (d, st) := Series(s.disk, s.procs[t], oks); Alone(s, t, oks) == State(d, s.procs[t := st])
  {
    if oks == [] {
      assert s.procs[t := s.procs[t]] == s.procs;
    } else {
      var n := |oks| - 1;
      SeriesIsRun(s, t, oks[..n]);
      var (d, st) := Series(s.disk, s.procs[t], oks[..n]);
      StepAlone(State(d, s.procs[t := st]), t, oks[n]);
      assert s.procs[t := st][t := Did(d, st, oks[n]).1] == s.procs[t := Did(d, st, oks[n]).1];
    }
  }

  lemma StepAlone(s: State, t: Tid, ok: bool)
    requires t in s.procs
    ensures var (d, st) := Did(s.disk, s.procs[t], ok); Apply(s, Do(t, ok)) == State(d, s.procs[t := st])
  {}

  function Alone(s: State, t: Tid, oks: seq<bool>): (s': State)
    requires t in s.procs
    ensures t in s'.procs
  {
    if oks == [] then s else Apply(Alone(s, t, oks[..|oks| - 1]), Do(t, oks[|oks| - 1]))
  }

  /******* The directories *******/

  /** The calls that can fail for reasons of their own, each on a handle. */
  datatype Call =
    | Stat | ReadLink | MakeInit | StoreNone | DriverMakes | RemoveInit | Link | CopyFiles
    | StoreProps | StorePriv | ChangeOwners | RenameToLive | RenameToDead | DriverDestroys | RemoveFromDead
  datatype Fault = Fault(call: Call, h: Handle)

  /** The calls on its own handle that the strategy of a request makes. */
  function Needs(req: Request): set<Call> {
    {MakeInit, StoreNone, DriverMakes} +
    match req.strategy
    case Empty => {}
    case Import => {CopyFiles}
    case Cow(_) => {Link}
  }

  /** `broken` are the calls that fail. */
  class Filesystem {
    const broken: set<Fault>
    var init: map<Handle, Dir>
    var live: map<Handle, Dir>
    var dead: map<Handle, Dir>
    var nextInst: nat
    var clock: nat

    ghost function View(): Disk
      reads this
    {
      Disk(init, live, dead, nextInst, clock)
    }

    constructor (broken: set<Fault>)
      ensures View() == INITIAL.disk && this.broken == broken
    {
      this.broken := broken;
      init, live, dead, nextInst, clock := map[], map[], map[], 0, 1;
    }

    /** None of the calls fails on the handle. */
    ghost predicate Works(calls: set<Call>, h: Handle) {
      forall c <- calls :: Fault(c, h) !in broken
    }

    /** None is an error of the system. */
    method LookupVolume(h: Handle) returns (found: Option<bool>)
      ensures found == if Fault(Stat, h) in broken then None else Some(h in live)
    {
      if Fault(Stat, h) in broken { return None; }
      return Some(h in live);
    }

    /** The volume one step up the chain of ancestors; with sound links that is the link itself. */
    method Parent(h: Handle) returns (ok: bool, parent: Option<Handle>)
      ensures ok ==> parent == Ancestor(LinksOf(View()), h, 1)
      ensures ok && h in live && WellFounded(LinksOf(View())) ==> parent == live[h].parent
      ensures !ok ==> parent.None?
      ensures ok <==> Fault(ReadLink, h) !in broken
    {
      if Fault(ReadLink, h) in broken { return false, None; }
      assert h in live && live[h].parent.Some? ==>
        Ancestor(LinksOf(View()), h, 1) == Ancestor(LinksOf(View()), live[h].parent.value, 0);
      if h in live && live[h].parent.Some? && live[h].parent.value in live {
        return true, live[h].parent;
      }
      return true, None;
    }

    method MakeDirectory(h: Handle, ghost req: Request) returns (ok: bool)
      requires req.handle == h
      modifies this
      ensures live == old(live) && dead == old(dead) && clock == old(clock)
      ensures ok <==> h !in old(init) && Fault(MakeInit, h) !in broken
      ensures !ok ==> View() == old(View()) && Leads(old(View()), Mkdir(req), View(), Failed(req, None))
      ensures ok ==> nextInst == old(nextInst) + 1
                     && init == old(init)[h := Dir(old(nextInst), None, None, false, None, 0)]
      ensures ok ==> Leads(old(View()), Mkdir(req), View(), StoreEmpty(req, old(nextInst)))
    {
      MkdirLeads(View(), req);
      ok := h !in init && Fault(MakeInit, h) !in broken;
      if ok {
        init := init[h := Dir(nextInst, None, None, false, None, 0)];
        nextInst := nextInst + 1;
      }
    }

    method StoreNothing(h: Handle, ghost req: Request, ghost n: nat) returns (ok: bool)
      requires req.handle == h && h in init
      modifies this
      ensures live == old(live) && dead == old(dead) && clock == old(clock) && nextInst == old(nextInst)
      ensures ok <==> Fault(StoreNone, h) !in broken
      ensures init == if ok then old(init)[h := old(init)[h].(props := Some(map[]))] else old(init)
      ensures Leads(old(View()), StoreEmpty(req, n), View(), if ok then DriverCreate(req, n) else Failed(req, Some(n)))
    {
      StoreEmptyLeads(View(), req, n);
      ok := Fault(StoreNone, h) !in broken;
      if ok { init := init[h := init[h].(props := Some(map[]))]; }
    }

    /** Nothing removes the directory if storing the empty properties fails. */
    method InitRawVolume(h: Handle, ghost req: Request) returns (ok: bool, ghost at: Stage)
      requires req.handle == h
      modifies this
      ensures live == old(live) && dead == old(dead) && clock == old(clock)
      ensures ok ==> h !in old(init) && nextInst == old(nextInst) + 1
                     && init == old(init)[h := Dir(old(nextInst), Some(map[]), None, false, None, 0)]
      ensures !ok ==> FailedCleanly(old(View()), View(), h)
      ensures Leads(old(View()), Mkdir(req), View(), at)
      ensures if ok then at == DriverCreate(req, old(nextInst)) else at.Failed? && at.req == req
      ensures ok <==> h !in old(init) && Works({MakeInit, StoreNone}, h)
      ensures broken == {} && !ok ==> View() == old(View())
    {
      ghost var was, n := View(), nextInst;
      ok := MakeDirectory(h, req);
      if !ok { return false, Failed(req, None); }
      ghost var mid := View();
      ok := StoreNothing(h, req, n);
      at := if ok then DriverCreate(req, n) else Failed(req, Some(n));
      GoesOn(was, Mkdir(req), mid, StoreEmpty(req, n), View(), at);
      LeftInInit(was, View(), h);
    }

    /** Removing the directory may fail, and nobody looks. */
    method Cleanup(h: Handle, ghost req: Request, ghost inst: nat)
      requires req.handle == h
      modifies this
      ensures live == old(live) && dead == old(dead) && clock == old(clock) && nextInst == old(nextInst)
      ensures init == old(init) || init == old(init) - {h}
      ensures Fault(RemoveInit, h) !in broken ==> init == old(init) - {h}
      ensures Leads(old(View()), DriverCreate(req, inst), View(), Failed(req, Some(inst)))
    {
      ghost var was, st := View(), DriverCreate(req, inst);
      Stays(was, st);
      Goes(was, st, was, st, false, was, Stage.Cleanup(req, inst));
      var removed := Fault(RemoveInit, h) !in broken;
      if removed { init := init - {h}; }
      Goes(was, st, was, Stage.Cleanup(req, inst), removed, View(), Failed(req, Some(inst)));
    }

    /** The driver's call, and the cleanup if it fails. */
    method Driver(h: Handle, ghost req: Request, ghost inst: nat) returns (ok: bool, ghost at: Stage)
      requires req.handle == h && h in init
      modifies this
      ensures live == old(live) && dead == old(dead) && clock == old(clock) && nextInst == old(nextInst)
      ensures ok ==> init == old(init)[h := old(init)[h].(data := true)]
      ensures !ok ==> init == old(init) || init == old(init) - {h}
      ensures Leads(old(View()), DriverCreate(req, inst), View(), at)
      ensures if ok then at == AfterDriver(req, inst) else at.Failed? && at.req == req
      ensures ok <==> Fault(DriverMakes, h) !in broken
      ensures !ok && Fault(RemoveInit, h) !in broken ==> init == old(init) - {h}
    {
      ghost var was, st := View(), DriverCreate(req, inst);
      if Fault(DriverMakes, h) in broken {
        Cleanup(h, req, inst);
        return false, Failed(req, Some(inst));
      }
      init := init[h := init[h].(data := true)];
      at := AfterDriver(req, inst);
      Stays(was, st);
      Goes(was, st, was, st, true, View(), at);
      ok := true;
    }

    method NewVolume(h: Handle, ghost req: Request) returns (ok: bool, ghost at: Stage)
      requires req.handle == h
      modifies this
      ensures live == old(live) && dead == old(dead) && clock == old(clock)
      ensures ok ==> h !in old(init) && nextInst == old(nextInst) + 1
                     && init == old(init)[h := Dir(old(nextInst), Some(map[]), None, true, None, 0)]
      ensures !ok ==> FailedCleanly(old(View()), View(), h)
      ensures Leads(old(View()), Mkdir(req), View(), at)
      ensures if ok then at == AfterDriver(req, old(nextInst)) else at.Failed? && at.req == req
      ensures ok <==> h !in old(init) && Works({MakeInit, StoreNone, DriverMakes}, h)
      ensures broken == {} && !ok ==> View() == old(View())
    {
      ok, at := InitRawVolume(h, req);
      if !ok { return; }
      ghost var mid, st := View(), at;
      ok, at := Driver(h, req, old(nextInst));
      GoesOn(old(View()), Mkdir(req), mid, st, View(), at);
    }

    method NewSubvolume(parent: Handle, h: Handle, ghost req: Request) returns (ok: bool, ghost at: Stage)
      requires req.handle == h && req.strategy == Cow(parent)
      modifies this
      ensures live == old(live) && clock == old(clock)
      ensures ok ==> h !in old(init) && dead == old(dead) && nextInst == old(nextInst) + 1
                     && init == old(init)[h := Dir(old(nextInst), Some(map[]), None, true, Some(parent), 0)]
      ensures !ok ==> FailedCleanly(old(View()), View(), h)
      ensures Leads(old(View()), Mkdir(req), View(), at)
      ensures if ok then at == StoreProperties(req, old(nextInst)) else at.Failed? && at.req == req
      ensures ok <==> h !in old(init) && Works({MakeInit, StoreNone, DriverMakes, Link}, h)
      ensures broken == {} && !ok ==> View() == old(View())
    {
      ok, at := NewVolume(h, req);
      if !ok { return; }
      ghost var mid, n := View(), old(nextInst);
      if Fault(Link, h) in broken {
        Goes(old(View()), Mkdir(req), mid, Symlink(req, n), false, mid, Stage.DestroyInit(req, n));
        DestroyInit(h, req, n);
        at := Failed(req, Some(n));
        GoesOn(old(View()), Mkdir(req), mid, Stage.DestroyInit(req, n), View(), at);
        return false, at;
      }
      init := init[h := init[h].(parent := Some(parent))];
      at := StoreProperties(req, n);
      Goes(old(View()), Mkdir(req), mid, Symlink(req, n), true, View(), at);
    }

    /** Rename to dead, then teardown and removal; any of them may fail and end it. */
    method DestroyInit(h: Handle, ghost req: Request, ghost inst: nat)
      requires h in init && req.handle == h
      modifies this
      ensures live == old(live) && clock == old(clock) && nextInst == old(nextInst)
      ensures init == old(init) || init == old(init) - {h}
      ensures dead - {h} == old(dead) - {h} && (h in old(dead) ==> dead == old(dead))
      ensures Leads(old(View()), Stage.DestroyInit(req, inst), View(), Failed(req, Some(inst)))
      ensures h in old(dead) ==> View() == old(View())
      ensures broken == {} && h !in old(dead) ==> init == old(init) - {h} && dead == old(dead)
    {
      ghost var was, st := View(), Stage.DestroyInit(req, inst);
      Stays(was, st);
      if h in dead || Fault(RenameToDead, h) in broken {
        Goes(was, st, was, st, false, View(), Failed(req, Some(inst)));
        return;
      }
      dead := dead[h := init[h]];
      init := init - {h};
      Goes(was, st, was, st, true, View(), DriverDestroy(OfCreate(req), inst));
      var _ := Teardown(h, OfCreate(req), inst);
      GoesOn(was, st, Disk(was.init - {h}, live, was.dead[h := was.init[h]], nextInst, clock),
             DriverDestroy(OfCreate(req), inst), View(), Failed(req, Some(inst)));
    }

    /** The destruction of a volume in dead: the driver's work, then the removal. */
    method Teardown(h: Handle, ghost job: Job, ghost inst: nat) returns (ok: bool)
      requires JobHandle(job) == h
      modifies this
      ensures init == old(init) && live == old(live) && clock == old(clock) && nextInst == old(nextInst)
      ensures dead == if ok then old(dead) - {h} else old(dead)
      ensures Leads(old(View()), DriverDestroy(job, inst), View(), Finish(job, inst, ok))
      ensures ok <==> Fault(DriverDestroys, h) !in broken && Fault(RemoveFromDead, h) !in broken
    {
      ghost var was, st := View(), DriverDestroy(job, inst);
      Stays(was, st);
      if Fault(DriverDestroys, h) in broken {
        Goes(was, st, was, st, false, View(), Finish(job, inst, false));
        return false;
      }
      Goes(was, st, was, st, true, was, RemoveDead(job, inst));
      var removed := Fault(RemoveFromDead, h) !in broken;
      if removed { dead := dead - {h}; }
      Goes(was, st, was, RemoveDead(job, inst), removed, View(), Finish(job, inst, removed));
      ok := removed;
    }

    /** Publishing onto a live handle fails. */
    method Initialize(h: Handle, ghost req: Request, ghost inst: nat) returns (ok: bool)
      requires h in init && req.handle == h
      modifies this
      ensures dead == old(dead) && nextInst == old(nextInst)
      ensures ok ==> h !in old(live) && init == old(init) - {h} && clock == old(clock) + 1
                     && live == old(live)[h := old(init)[h].(since := old(clock))]
      ensures !ok ==> init == old(init) && live == old(live) && clock == old(clock)
      ensures Leads(old(View()), Stage.Initialize(req, inst), View(),
                    if ok then Created(req, inst) else Stage.DestroyInit(req, inst))
      ensures ok <==> h !in old(live) && Fault(RenameToLive, h) !in broken
    {
      ghost var was, st := View(), Stage.Initialize(req, inst);
      Stays(was, st);
      if h in live || Fault(RenameToLive, h) in broken {
        Goes(was, st, was, st, false, was, Stage.DestroyInit(req, inst));
        return false;
      }
      live := live[h := init[h].(since := clock)];
      init := init - {h};
      clock := clock + 1;
      Goes(was, st, was, st, true, View(), Created(req, inst));
      return true;
    }

    method Materialize(req: Request) returns (ok: bool, ghost at: Stage)
      modifies this
      ensures live == old(live) && clock == old(clock)
      ensures ok ==> req.handle !in old(init) && dead == old(dead) && nextInst == old(nextInst) + 1
                     && init == old(init)[req.handle := Dir(old(nextInst), Some(map[]), None, true, LinkOf(req), 0)]
                     && (req.strategy.Cow? ==> req.strategy.from in old(live))
      ensures !ok ==> FailedCleanly(old(View()), View(), req.handle)
      ensures Leads(old(View()), Begin(req), View(), at)
      ensures if ok then at == StoreProperties(req, old(nextInst)) else at.Failed? && at.req == req
      ensures ok <==>
        && req.handle !in old(init) && ParentLive(old(View()), req) && Works(Needs(req), req.handle)
        && (req.strategy.Cow? ==> Works({Stat}, req.strategy.from))
      ensures broken == {} && !ok ==> View() == old(View())
    {
      ghost var was, n := View(), nextInst;
      match req.strategy
      case Empty =>
        ok, at := NewVolume(req.handle, req);
      case Import =>
        ok, at := NewVolume(req.handle, req);
        if ok {
          var copyFails := Fault(CopyFiles, req.handle) in broken;
          at := if copyFails then Failed(req, Some(n)) else StoreProperties(req, n);
          CopyLeads(View(), req, n);
          LeftInInit(was, View(), req.handle);
          GoesOn(was, Begin(req), View(), CopyIn(req, n), View(), at);
          ok := !copyFails;
        }
      case Cow(from) =>
        var found := LookupVolume(from);
        ParentLeads(was, req);
        if from == "" || found != Some(true) {
          return false, Failed(req, None);
        }
        ok, at := NewSubvolume(from, req.handle, req);
        GoesOn(was, Begin(req), was, Mkdir(req), View(), at);
    }

    /** What follows materialization: both metadata files, the owners, and the publication. */
    method Complete(req: Request, ghost inst: nat) returns (ok: bool)
      requires req.handle in init
      modifies this
      ensures dead == old(dead) && nextInst == old(nextInst)
      ensures ok ==>
        && req.handle !in old(live) && init == old(init) - {req.handle} && clock == old(clock) + 1
        && live == old(live)[req.handle :=
             old(init)[req.handle].(props := Some(req.props), priv := Some(req.priv), since := old(clock))]
      ensures !ok ==>
        && live == old(live) && clock == old(clock)
        && req.handle in init && init - {req.handle} == old(init) - {req.handle}
      ensures Leads(old(View()), StoreProperties(req, inst), View(),
                    if ok then Created(req, inst) else Stage.DestroyInit(req, inst))
      ensures ok <==> req.handle !in old(live) && Works({StoreProps, StorePriv, ChangeOwners, RenameToLive}, req.handle)
    {
      var h := req.handle;
      ghost var was, st := View(), StoreProperties(req, inst);
      Stays(was, st);
      if Fault(StoreProps, h) in broken {
        Goes(was, st, was, st, false, was, Stage.DestroyInit(req, inst));
        return false;
      }
      init := init[h := init[h].(props := Some(req.props))];
      ghost var mid := View();
      Goes(was, st, was, st, true, mid, StorePrivileged(req, inst));
      ok := PublishOwned(req, inst);
      GoesOn(was, st, mid, StorePrivileged(req, inst), View(),
             if ok then Created(req, inst) else Stage.DestroyInit(req, inst));
    }

    /** The same with the deferred destruction of what was not published. */
    method CompleteOrDestroy(req: Request, ghost inst: nat) returns (initialized: bool)
      requires req.handle in init
      modifies this
      ensures nextInst == old(nextInst)
      ensures initialized ==>
        && req.handle !in old(live) && init == old(init) - {req.handle} && dead == old(dead)
        && live == old(live)[req.handle :=
             old(init)[req.handle].(props := Some(req.props), priv := Some(req.priv), since := old(clock))]
      ensures !initialized ==>
        && live == old(live) && init - {req.handle} == old(init) - {req.handle}
        && dead - {req.handle} == old(dead) - {req.handle} && (req.handle in old(dead) ==> dead == old(dead))
      ensures Leads(old(View()), StoreProperties(req, inst), View(),
                    if initialized then Created(req, inst) else Failed(req, Some(inst)))
      ensures initialized <==>
        req.handle !in old(live) && Works({StoreProps, StorePriv, ChangeOwners, RenameToLive}, req.handle)
      ensures broken == {} && !initialized && req.handle !in old(dead) ==>
        init == old(init) - {req.handle} && dead == old(dead)
      ensures !initialized && req.handle in old(dead) ==> req.handle in init && dead == old(dead)
    {
      initialized := Complete(req, inst);
      if !initialized {
        ghost var stuck := View();
        DestroyInit(req.handle, req, inst);
        GoesOn(old(View()), StoreProperties(req, inst), stuck, Stage.DestroyInit(req, inst),
               View(), Failed(req, Some(inst)));
      }
    }

    /** The flag, the owners and the publication. */
    method PublishOwned(req: Request, ghost inst: nat) returns (ok: bool)
      requires req.handle in init
      modifies this
      ensures dead == old(dead) && nextInst == old(nextInst)
      ensures ok ==>
        && req.handle !in old(live) && init == old(init) - {req.handle} && clock == old(clock) + 1
        && live == old(live)[req.handle := old(init)[req.handle].(priv := Some(req.priv), since := old(clock))]
      ensures !ok ==>
        && live == old(live) && clock == old(clock)
        && req.handle in init && init - {req.handle} == old(init) - {req.handle}
      ensures Leads(old(View()), StorePrivileged(req, inst), View(),
                    if ok then Created(req, inst) else Stage.DestroyInit(req, inst))
      ensures ok <==> req.handle !in old(live) && Works({StorePriv, ChangeOwners, RenameToLive}, req.handle)
    {
      var h := req.handle;
      ghost var was, st := View(), StorePrivileged(req, inst);
      Stays(was, st);
      if Fault(StorePriv, h) in broken {
        Goes(was, st, was, st, false, was, Stage.DestroyInit(req, inst));
        return false;
      }
      init := init[h := init[h].(priv := Some(req.priv))];
      ghost var mid := View();
      Goes(was, st, was, st, true, mid, Stage.Initialize(req, inst));
      if Fault(ChangeOwners, h) in broken {
        Goes(was, st, mid, Stage.Initialize(req, inst), false, mid, Stage.DestroyInit(req, inst));
        return false;
      }
      ok := Initialize(h, req, inst);
      GoesOn(was, st, mid, Stage.Initialize(req, inst), View(),
             if ok then Created(req, inst) else Stage.DestroyInit(req, inst));
    }

    /** A creation publishes exactly the volume asked for, complete with both metadata files, or
        adds nothing to live.  Where no call fails for reasons of its own it is published unless
        its name is taken or its parent missing, and what is not published is cleaned up unless a
        directory in dead is in the way. */
    method CreateVolume(req: Request) returns (ok: bool, ghost at: Stage)
      modifies this
      ensures ok ==>
        && req.handle !in old(live) && (req.strategy.Cow? ==> req.strategy.from in old(live))
        && live == old(live)[req.handle :=
             Dir(old(nextInst), Some(req.props), Some(req.priv), true, LinkOf(req), old(clock))]
        && init == old(init) && dead == old(dead)
      ensures !ok ==> FailedCleanly(old(View()), View(), req.handle)
      ensures Leads(old(View()), Begin(req), View(), at)
      ensures if ok then at == Created(req, old(nextInst)) else at.Failed? && at.req == req
      ensures ok <==>
        && req.handle !in old(live) && req.handle !in old(init) && ParentLive(old(View()), req)
        && Works(Needs(req) + {StoreProps, StorePriv, ChangeOwners, RenameToLive}, req.handle)
        && (req.strategy.Cow? ==> Works({Stat}, req.strategy.from))
      ensures broken == {} ==> dead == old(dead)
      ensures broken == {} ==>
        (init == old(init) <==>
           ok || req.handle in old(init) || !ParentLive(old(View()), req) || req.handle !in old(dead))
    {
      ghost var was, n := View(), nextInst;
      ok, at := Materialize(req);
      if !ok { return; }
      ghost var made := View();
      ok := CompleteOrDestroy(req, n);
      at := if ok then Created(req, n) else Failed(req, Some(n));
      GoesOn(was, Begin(req), made, StoreProperties(req, n), View(), at);
    }

    /** A destruction takes its volume out of live whole or not at all. */
    method DestroyVolume(h: Handle) returns (ok: bool)
      modifies this
      ensures init == old(init) && nextInst == old(nextInst) && clock == old(clock)
      ensures ok ==> h in old(live) && live == old(live) - {h} && dead == old(dead)
      ensures !ok ==> (live == old(live) && dead == old(dead))
                      || (h in old(live) && live == old(live) - {h} && dead == old(dead)[h := old(live)[h]])
      ensures Leads(old(View()), Stage.LookupVolume(h), View(), Destroyed(h, ok))
      ensures ok <==>
        h in old(live) && h !in old(dead) && Works({Stat, RenameToDead, DriverDestroys, RemoveFromDead}, h)
      ensures broken == {} && !ok ==> View() == old(View())
    {
      ghost var was, st := View(), Stage.LookupVolume(h);
      LookupLeads(was, h);
      var found := LookupVolume(h);
      if found != Some(true) { return false; }
      RetireLeads(was, h);
      if h in dead || Fault(RenameToDead, h) in broken {
        GoesOn(was, st, was, DestroyLive(h), was, Destroyed(h, false));
        return false;
      }
      ghost var job, inst := OfDestroy(h), live[h].inst;
      dead := dead[h := live[h]];
      live := live - {h};
      ghost var mid := View();
      GoesOn(was, st, was, DestroyLive(h), mid, DriverDestroy(job, inst));
      ok := Teardown(h, job, inst);
      GoesOn(was, st, mid, DriverDestroy(job, inst), View(), Destroyed(h, ok));
    }
  }

  function AfterDriver(req: Request, inst: nat): Stage {
    match req.strategy
    case Empty => StoreProperties(req, inst)
    case Import => CopyIn(req, inst)
    case Cow(_) => Symlink(req, inst)
  }
}
