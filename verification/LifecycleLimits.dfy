/** What the rule that children go before parents keeps away: without it, whenever some volume
    is live, two ordinary requests in which every call goes through can leave that volume's
    handle as its own parent. */
module LifecycleLimits {
  import opened Wrappers
  import opened Forest
  import opened Lifecycle

  ghost predicate Reachable(s: State) {
    exists states, actions :: Run(states, actions) && states[|actions|] == s
  }

  lemma InitialReachable()
    ensures Reachable(INITIAL)
  {
    var states, actions: seq<Action> := [INITIAL], [];
    assert Run(states, actions) && states[|actions|] == INITIAL;
  }

  lemma StepReachable(s: State, a: Action)
    requires Reachable(s) && Enabled(s, a)
    ensures Reachable(Apply(s, a))
  {
    var states, actions :| Run(states, actions) && states[|actions|] == s;
    var states', actions' := states + [Apply(s, a)], actions + [a];
    assert Run(states', actions') && states'[|actions'|] == Apply(s, a);
  }

  /** One call that goes through, told by its effect and the stage after it. */
  lemma Call(s: State, t: Tid, e: Effect, st': Stage)
    requires Reachable(s) && t in s.procs && Possible(s.disk, e)
    requires Plan(s.disk, s.procs[t], true) == (e, st')
    ensures Reachable(State(Perform(s.disk, e), s.procs[t := st']))
  {
    StepReachable(s, Do(t, true));
  }

  /** One call that rewrites the directory of its process. */
  lemma Rewritten(s: State, t: Tid, h: Handle, dir: Dir, st': Stage) returns (s': State)
    requires Reachable(s) && t in s.procs && h in s.disk.init && dir.inst == s.disk.init[h].inst
    requires Plan(s.disk, s.procs[t], true) == (Update(h, dir), st')
    ensures Reachable(s') && s' == State(s.disk.(init := s.disk.init[h := dir]), s.procs[t := st'])
  {
    Call(s, t, Update(h, dir), st');
    s' := State(Perform(s.disk, Update(h, dir)), s.procs[t := st']);
  }

  lemma Made(s: State, t: Tid, req: Request) returns (s': State)
    requires Reachable(s) && t in s.procs && s.procs[t] == Mkdir(req) && req.handle !in s.disk.init
    ensures Reachable(s')
    ensures var n := s.disk.nextInst;
      && s'.disk == s.disk.(init := s.disk.init[req.handle := Dir(n, None, None, false, None, 0)], nextInst := n + 1)
      && s'.procs == s.procs[t := StoreEmpty(req, n)]
  {
    var e, st := Make(req.handle), StoreEmpty(req, s.disk.nextInst);
    Call(s, t, e, st);
    s' := State(Perform(s.disk, e), s.procs[t := st]);
  }

  /** From making the directory to the end of the driver's work. */
  lemma DirectoryMade(s: State, t: Tid, req: Request) returns (s': State)
    requires Reachable(s) && t in s.procs && s.procs[t] == Mkdir(req)
    requires req.handle !in s.disk.init && !req.strategy.Import?
    ensures Reachable(s')
    ensures var n := s.disk.nextInst;
      && s'.disk == s.disk.(init := s.disk.init[req.handle := Dir(n, Some(map[]), None, true, None, 0)],
                            nextInst := n + 1)
      && s'.procs == s.procs[t := if req.strategy.Cow? then Symlink(req, n) else StoreProperties(req, n)]
  {
    var h, n := req.handle, s.disk.nextInst;
    s' := Made(s, t, req);
    s' := Rewritten(s', t, h, Dir(n, Some(map[]), None, false, None, 0), DriverCreate(req, n));
    s' := Rewritten(s', t, h, Dir(n, Some(map[]), None, true, None, 0),
                    if req.strategy.Cow? then Symlink(req, n) else StoreProperties(req, n));
  }

  /** From storing the properties to the brink of publication. */
  lemma MetadataStored(s: State, t: Tid, req: Request, i: nat) returns (s': State)
    requires Reachable(s) && t in s.procs && s.procs[t] == StoreProperties(req, i) && req.handle in s.disk.init
    ensures Reachable(s')
    ensures
      && s'.disk == s.disk.(init := s.disk.init[req.handle :=
           s.disk.init[req.handle].(props := Some(req.props), priv := Some(req.priv))])
      && s'.procs == s.procs[t := Initialize(req, i)]
  {
    var dir := s.disk.init[req.handle].(props := Some(req.props));
    s' := Rewritten(s, t, req.handle, dir, StorePrivileged(req, i));
    s' := Rewritten(s', t, req.handle, dir.(priv := Some(req.priv)), Initialize(req, i));
  }

  /** From linking the parent to the brink of publication. */
  lemma LinkedAndStored(s: State, t: Tid, req: Request, i: nat) returns (s': State)
    requires Reachable(s) && t in s.procs && s.procs[t] == Symlink(req, i)
    requires req.handle in s.disk.init && req.strategy.Cow?
    ensures Reachable(s') && s'.disk.live == s.disk.live && s'.disk.dead == s.disk.dead
    ensures s'.procs == s.procs[t := Initialize(req, i)]
    ensures req.handle in s'.disk.init && s'.disk.init[req.handle].parent == Some(req.strategy.from)
  {
    var dir := s.disk.init[req.handle].(parent := Some(req.strategy.from));
    s' := Rewritten(s, t, req.handle, dir, StoreProperties(req, i));
    s' := MetadataStored(s', t, req, i);
  }

  lemma ParentFound(s: State, t: Tid, req: Request)
    requires Reachable(s) && t !in s.procs && req.strategy.Cow?
    requires req.strategy.from != "" && req.strategy.from in s.disk.live
    ensures Reachable(State(s.disk, s.procs[t := Mkdir(req)]))
  {
    StepReachable(s, StartCreate(t, req));
    var s1 := State(s.disk, s.procs[t := LookupParent(req)]);
    Call(s1, t, Nothing, Mkdir(req));
    assert s1.procs[t := Mkdir(req)] == s.procs[t := Mkdir(req)];
  }

  /** A copy-on-write creation under the handle of its own parent, up to its publication. */
  lemma ChildPrepared(s: State, t: Tid, req: Request) returns (s': State)
    requires Reachable(s) && t !in s.procs && req.strategy == Cow(req.handle)
    requires req.handle != "" && req.handle in s.disk.live && req.handle !in s.disk.init
    ensures Reachable(s') && s'.disk.live == s.disk.live && s'.disk.dead == s.disk.dead
    ensures s'.procs == s.procs[t := Initialize(req, s.disk.nextInst)]
    ensures req.handle in s'.disk.init && s'.disk.init[req.handle].parent == Some(req.handle)
  {
    ParentFound(s, t, req);
    s' := DirectoryMade(State(s.disk, s.procs[t := Mkdir(req)]), t, req);
    s' := LinkedAndStored(s', t, req, s.disk.nextInst);
  }

  /** A destruction up to the point where the volume has left live. */
  lemma Retired(s: State, u: Tid, h: Handle) returns (s': State)
    requires Reachable(s) && u !in s.procs && h in s.disk.live && h !in s.disk.dead
    ensures Reachable(s') && s'.disk.live == s.disk.live - {h} && s'.disk.init == s.disk.init
    ensures s'.procs == s.procs[u := DriverDestroy(OfDestroy(h), s.disk.live[h].inst)]
  {
    StepReachable(s, StartDestroy(u, h));
    var s1 := State(s.disk, s.procs[u := LookupVolume(h)]);
    Call(s1, u, Nothing, DestroyLive(h));
    var s2 := State(s.disk, s1.procs[u := DestroyLive(h)]);
    var st := DriverDestroy(OfDestroy(h), s.disk.live[h].inst);
    Call(s2, u, RetireLive(h), st);
    s' := State(Perform(s2.disk, RetireLive(h)), s2.procs[u := st]);
  }

  /** From every reachable state, for every live volume whose name is free in init and dead,
      a cycle of parent links is reachable. */
  lemma CycleReachable(s: State, t: Tid, u: Tid, h: Handle) returns (s': State)
    requires Reachable(s) && t !in s.procs && u !in s.procs && t != u
    requires h != "" && h in s.disk.live && h !in s.disk.init && h !in s.disk.dead
    ensures Reachable(s') && h in s'.disk.live && s'.disk.live[h].parent == Some(h)
    ensures !WellFounded(LinksOf(s'.disk))
  {
    var req := Request(h, Cow(h), map[], false);
    var s1 := ChildPrepared(s, t, req);
    var s2 := Retired(s1, u, h);
    Call(s2, t, Publish(h), Created(req, s.disk.nextInst));
    s' := State(Perform(s2.disk, Publish(h)), s2.procs[t := Created(req, s.disk.nextInst)]);
    assert LinksOf(s'.disk)[h] == Some(h);
  }

  /** A creation of an empty volume from start to end. */
  lemma CreatedAnew(s: State, t: Tid, h: Handle) returns (s': State)
    requires Reachable(s) && t !in s.procs && h !in s.disk.init && h !in s.disk.live
    ensures Reachable(s') && h in s'.disk.live && h !in s'.disk.init && s'.disk.dead == s.disk.dead
    ensures s'.procs.Keys == s.procs.Keys + {t} && forall u <- s.procs :: s'.procs[u] == s.procs[u]
  {
    var req := Request(h, Empty, map[], false);
    s' := EmptyPrepared(s, t, req);
    s' := Published(s', t, req, s.disk.nextInst);
  }

  lemma EmptyPrepared(s: State, t: Tid, req: Request) returns (s': State)
    requires Reachable(s) && t !in s.procs && req.handle !in s.disk.init && req.strategy.Empty?
    ensures Reachable(s') && s'.disk.live == s.disk.live && s'.disk.dead == s.disk.dead && req.handle in s'.disk.init
    ensures s'.procs == s.procs[t := Initialize(req, s.disk.nextInst)]
  {
    StepReachable(s, StartCreate(t, req));
    s' := DirectoryMade(State(s.disk, s.procs[t := Mkdir(req)]), t, req);
    s' := MetadataStored(s', t, req, s.disk.nextInst);
  }

  lemma Published(s: State, t: Tid, req: Request, n: nat) returns (s': State)
    requires Reachable(s) && t in s.procs && s.procs[t] == Initialize(req, n)
    requires req.handle in s.disk.init && req.handle !in s.disk.live
    ensures Reachable(s')
    ensures s'.disk == Perform(s.disk, Publish(req.handle)) && s'.procs == s.procs[t := Created(req, n)]
  {
    Call(s, t, Publish(req.handle), Created(req, n));
    s' := State(Perform(s.disk, Publish(req.handle)), s.procs[t := Created(req, n)]);
  }

  /** And such states are reachable: every name can be made live. */
  lemma LiveReachable(h: Handle, t: Tid) returns (s: State)
    ensures Reachable(s) && h in s.disk.live && h !in s.disk.init && h !in s.disk.dead && s.procs.Keys == {t}
  {
    InitialReachable();
    s := CreatedAnew(INITIAL, t, h);
  }
}
