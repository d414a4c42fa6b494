/** The layers of the overlay driver under the interleaved lifecycle.

    Layer directories go by handle alone, and the driver removes one after the volume has left
    live, with no lock that a creation of the same handle would take.  A creation in between
    works on a layer that is about to be removed. */
module LateTeardown {
  import opened Wrappers
  import L = Lifecycle
  import O = Overlay
  import M = LifecycleLimits
  import F = Forest

  datatype State = State(s: L.State, layers: O.Layers)

  /** A step of the lifecycle, or a user writing a file to a live volume.  `left` is what a
      driver call that fails leaves of its handle's layer. */
  datatype Action = Life(a: L.Action, left: Option<O.Layer>) | Write(h: Handle, p: O.Path, node: O.Node)

  predicate Enabled(x: State, a: Action) {
    match a
    case Life(a, _) => L.Enabled(x.s, a)
    case Write(h, _, _) => h in x.s.disk.live
  }

  /** The handle whose layer a process is about to work on. */
  function DriverOn(st: L.Stage): Option<Handle> {
    match st
    case DriverCreate(req, _) => Some(req.handle)
    case DriverDestroy(job, _) => Some(L.JobHandle(job))
    case _ => None
  }

  function LayersAfter(x: State, st: L.Stage, ok: bool, left: Option<O.Layer>): O.Layers {
    match st
    case DriverCreate(req, _) =>
      if ok then O.MkdirAll(O.InheritedBy(L.LinksOf(x.s.disk), x.layers, req.handle, L.LinkOf(req)), req.handle)
      else O.With(x.layers, req.handle, left)
    case DriverDestroy(job, _) =>
      if ok then x.layers - {L.JobHandle(job)} else O.With(x.layers, L.JobHandle(job), left)
    case _ => x.layers
  }

  function Apply(x: State, a: Action): State
    requires Enabled(x, a)
  {
    match a
    case Life(a, left) =>
      State(L.Apply(x.s, a), if a.Do? then LayersAfter(x, x.s.procs[a.t], a.ok, left) else x.layers)
    case Write(h, p, node) => x.(layers := x.layers[h := O.LayerAt(x.layers, h)[p := O.File(node)]])
  }

  ghost predicate Run(xs: seq<State>, actions: seq<Action>) {
    && |xs| == |actions| + 1
    && xs[0] == State(L.INITIAL, map[])
    && forall i :: 0 <= i < |actions| ==> Enabled(xs[i], actions[i]) && xs[i + 1] == Apply(xs[i], actions[i])
  }

  /******* Exactly when a live volume's layer is safe *******/

  lemma OnlyDriverTouches(x: State, st: L.Stage, ok: bool, left: Option<O.Layer>, h: Handle)
    requires DriverOn(st) != Some(h)
    ensures O.At(LayersAfter(x, st, ok, left), h) == O.At(x.layers, h)
  {}

  /** The driver's calls do to the layers what the driver's operations do. */
  lemma DriverCallsAre(x: State, st: L.Stage, left: Option<O.Layer>, mounts: O.Mounts)
    requires F.WellFounded(L.LinksOf(x.s.disk))
    requires st.DriverCreate? && st.req.strategy.Cow? ==> st.req.strategy.from in x.s.disk.live
    ensures
      var d := O.Disk(L.LinksOf(x.s.disk), x.layers, mounts);
      && (st.DriverCreate? ==>
            LayersAfter(x, st, true, left) == O.Step(d, O.Creation(st.req.handle, L.LinkOf(st.req))).layers)
      && (st.DriverDestroy? ==> LayersAfter(x, st, true, left) == O.Step(d, O.Op.Destroy(L.JobHandle(st.job))).layers)
  {}

  /** No step but a user's own write can change the layer of a live volume that stays live, if
      and only if no process is about to call the driver for that handle. */
  lemma LayerSafeExact(x: State, h: Handle)
    requires h in x.s.disk.live && h in x.layers
    ensures
      (forall a, left | L.Enabled(x.s, a) && h in L.Apply(x.s, a).disk.live ::
         O.At(Apply(x, Life(a, left)).layers, h) == O.At(x.layers, h)) <==>
        forall t <- x.s.procs :: DriverOn(x.s.procs[t]) != Some(h)
  {
    if t :| t in x.s.procs && DriverOn(x.s.procs[t]) == Some(h) {
      var a := L.Do(t, false);
      DriverCallKeepsLive(x.s, t, h);
      assert O.At(Apply(x, Life(a, None)).layers, h) == None;
    } else {
      forall a, left | L.Enabled(x.s, a) && h in L.Apply(x.s, a).disk.live
        ensures O.At(Apply(x, Life(a, left)).layers, h) == O.At(x.layers, h)
      {
        if a.Do? { OnlyDriverTouches(x, x.s.procs[a.t], a.ok, left, h); }
      }
    }
  }

  lemma DriverCallKeepsLive(s: L.State, t: L.Tid, h: Handle)
    requires t in s.procs && DriverOn(s.procs[t]) == Some(h) && h in s.disk.live
    ensures h in L.Apply(s, L.Do(t, false)).disk.live
  {}

  /******* A volume that nobody else works on *******/

  /** A process that will come to call the driver for a handle, unless the handle leaves live
      first: a creation of it that is not over, or a teardown. */
  predicate Busy(st: L.Stage, h: Handle) {
    match st
    case DriverDestroy(job, _) => L.JobHandle(job) == h
    case RemoveDead(_, _) => false
    case Created(_, _) => false
    case Failed(_, _) => false
    case LookupVolume(_) => false
    case DestroyLive(_) => false
    case Destroyed(_, _) => false
    case _ => st.req.handle == h
  }

  ghost predicate Quiet(s: L.State, h: Handle) {
    forall t <- s.procs :: !Busy(s.procs[t], h)
  }

  lemma PlanStaysQuiet(d: L.Disk, st: L.Stage, ok: bool, h: Handle)
    requires !Busy(st, h)
    ensures Busy(L.Plan(d, st, ok).1, h) ==> L.Plan(d, st, ok).0 == L.RetireLive(h)
  {}

  lemma StepStaysQuiet(s: L.State, a: L.Action, h: Handle)
    requires L.Enabled(s, a) && Quiet(s, h) && !(a.StartCreate? && a.req.handle == h)
    requires h in L.Apply(s, a).disk.live
    ensures Quiet(L.Apply(s, a), h)
  {
    if a.Do? { PlanStaysQuiet(s.disk, s.procs[a.t], a.ok, h); }
  }

  /** A layer after the writes among some actions. */
  function Written(layer: O.Layer, actions: seq<Action>, h: Handle): O.Layer {
    if actions == [] then layer
    else
      var n := |actions| - 1;
      var before := Written(layer, actions[..n], h);
      if actions[n].Write? && actions[n].h == h then before[actions[n].p := O.File(actions[n].node)] else before
  }

  /** Between two states let a volume stay live, nobody be at work on its handle at first, and
      nobody start another creation of it: then nothing but its users' writes has reached its
      layer. */
  lemma {:induction false} LayerSurvives(xs: seq<State>, actions: seq<Action>, i: nat, j: nat, h: Handle)
    requires Run(xs, actions) && i <= j < |xs| && h in xs[i].layers && Quiet(xs[i].s, h)
    requires forall k | i <= k <= j :: h in xs[k].s.disk.live
    requires forall k | i <= k < j :: actions[k].Life? && actions[k].a.StartCreate? ==> actions[k].a.req.handle != h
    ensures h in xs[j].layers && xs[j].layers[h] == Written(xs[i].layers[h], actions[i..j], h) && Quiet(xs[j].s, h)
    decreases j
  {
    if i < j {
      var n := j - 1;
      LayerSurvives(xs, actions, i, n, h);
      assert actions[i..j][..n - i] == actions[i..n] && actions[i..j][n - i] == actions[n];
      assert xs[j] == Apply(xs[n], actions[n]) && h in xs[j].s.disk.live && h in xs[n].s.disk.live;
      QuietStep(xs[n], actions[n], h);
    }
  }

  lemma QuietStep(x: State, a: Action, h: Handle)
    requires Enabled(x, a) && Quiet(x.s, h) && h in x.layers && h in Apply(x, a).s.disk.live
    requires a.Life? && a.a.StartCreate? ==> a.a.req.handle != h
    ensures var x' := Apply(x, a);
      && Quiet(x'.s, h) && h in x'.layers
      && x'.layers[h] == if a.Write? && a.h == h then x.layers[h][a.p := O.File(a.node)] else x.layers[h]
  {
    if a.Life? {
      StepStaysQuiet(x.s, a.a, h);
      if a.a.Do? {
        OnlyDriverTouches(x, x.s.procs[a.a.t], a.a.ok, a.left, h);
        assert O.At(Apply(x, a).layers, h) == O.At(x.layers, h);
      }
    }
  }

  /******* A layer removed under a new volume *******/

  ghost predicate Reachable(x: State) {
    exists xs, actions :: Run(xs, actions) && xs[|actions|] == x
  }

  lemma StepReachable(x: State, a: Action)
    requires Reachable(x) && Enabled(x, a)
    ensures Reachable(Apply(x, a))
  {
    var xs, actions :| Run(xs, actions) && xs[|actions|] == x;
    var xs', actions' := xs + [Apply(x, a)], actions + [a];
    assert Run(xs', actions') && xs'[|actions'|] == Apply(x, a);
  }

  /** Every run of the lifecycle is one with layers. */
  lemma {:induction false} Lifted(states: seq<L.State>, actions: seq<L.Action>, i: nat) returns (x: State)
    requires L.Run(states, actions) && i < |states|
    ensures Reachable(x) && x.s == states[i]
  {
    if i == 0 {
      x := State(L.INITIAL, map[]);
      var xs, none: seq<Action> := [x], [];
      assert Run(xs, none) && xs[|none|] == x;
    } else {
      var before := Lifted(states, actions, i - 1);
      StepReachable(before, Life(actions[i - 1], None));
      x := Apply(before, Life(actions[i - 1], None));
    }
  }

  /** From every state that the lifecycle reaches and for every live volume whose name is free in
      init and dead: the volume is destroyed, its handle is created anew and written to, and
      the late teardown leaves the new volume live and empty. */
  lemma TeardownEmpties(s: L.State, u: L.Tid, t: L.Tid, h: Handle, p: O.Path, node: O.Node)
    returns (x: State, x': State)
    requires M.Reachable(s) && u !in s.procs && t !in s.procs && u != t
    requires h in s.disk.live && h !in s.disk.init && h !in s.disk.dead
    ensures Reachable(x) && Enabled(x, Life(L.Do(u, true), None)) && x' == Apply(x, Life(L.Do(u, true), None))
    ensures h in x.s.disk.live && h in x'.s.disk.live && x'.s.disk.live[h] == x.s.disk.live[h]
    ensures O.Get(O.Show(x.layers, O.Bind(h)), p) == Some(node) && O.Show(x'.layers, O.Bind(h)) == map[]
  {
    x := RecreatedOver(s, u, t, h);
    StepReachable(x, Write(h, p, node));
    WriteShows(x, h, p, node);
    x := Apply(x, Write(h, p, node));
    x' := Apply(x, Life(L.Do(u, true), None));
    LateStep(x, u, h);
  }

  /** A handle created anew while the teardown of its last volume is in flight. */
  lemma RecreatedOver(s: L.State, u: L.Tid, t: L.Tid, h: Handle) returns (x: State)
    requires M.Reachable(s) && u !in s.procs && t !in s.procs && u != t
    requires h in s.disk.live && h !in s.disk.init && h !in s.disk.dead
    ensures Reachable(x) && h in x.s.disk.live
    ensures u in x.s.procs && x.s.procs[u].DriverDestroy? && x.s.procs[u].job == L.OfDestroy(h)
  {
    var s1 := M.Retired(s, u, h);
    var s2 := M.CreatedAnew(s1, t, h);
    var states, actions :| L.Run(states, actions) && states[|actions|] == s2;
    x := Lifted(states, actions, |actions|);
  }

  lemma WriteShows(x: State, h: Handle, p: O.Path, node: O.Node)
    requires h in x.s.disk.live
    ensures O.Get(O.Show(Apply(x, Write(h, p, node)).layers, O.Bind(h)), p) == Some(node)
  {
    O.MergeIsSeen(map[], O.LayerAt(Apply(x, Write(h, p, node)).layers, h), p);
  }

  lemma LateStep(x: State, u: L.Tid, h: Handle)
    requires u in x.s.procs && x.s.procs[u].DriverDestroy? && x.s.procs[u].job == L.OfDestroy(h)
    ensures var x' := Apply(x, Life(L.Do(u, true), None));
      x'.s.disk == x.s.disk && O.Show(x'.layers, O.Bind(h)) == map[]
  {
    O.EmptyUpper(map[]);
  }
}
