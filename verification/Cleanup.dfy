/** What a creation leaves behind when none of its own calls fails for reasons of its own, among
    any number of other creations and destructions.

    Such a creation fails only because a name is taken or its parent is missing, and what it has
    made is gone afterwards unless a directory in dead was in the way of the cleanup. */
module Cleanup {
  import opened Wrappers
  import opened Lifecycle

  /** None of the calls of a process has failed of itself so far. */
  ghost predicate Smooth(actions: seq<Action>, i: nat, t: Tid)
    requires i <= |actions|
  {
    forall k | 0 <= k < i && actions[k].Do? && actions[k].t == t :: actions[k].ok
  }

  predicate Moves(s: State, a: Action, t: Tid) {
    a.Do? && a.t == t && t in s.procs
  }

  /** The directory cannot be made, or the parent is not there. */
  predicate LacksAt(s: State, a: Action, t: Tid) {
    Moves(s, a, t) &&
    match s.procs[t]
    case Mkdir(req) => req.handle in s.disk.init
    case LookupParent(req) => !(req.strategy.Cow? && req.strategy.from != "" && req.strategy.from in s.disk.live)
    case _ => false
  }

  /** Publication meets a live volume of the same name. */
  predicate RefusedAt(s: State, a: Action, t: Tid) {
    Moves(s, a, t) && s.procs[t].Initialize? && s.procs[t].req.handle in s.disk.live
  }

  /** The cleanup meets a directory of the same name in dead. */
  predicate BlockedAt(s: State, a: Action, t: Tid) {
    Moves(s, a, t) && s.procs[t].DestroyInit? && s.procs[t].req.handle in s.disk.dead
  }

  predicate Lacks(states: seq<State>, actions: seq<Action>, i: nat, t: Tid)
    requires i < |states| && i <= |actions|
  {
    i > 0 && (Lacks(states, actions, i - 1, t) || LacksAt(states[i - 1], actions[i - 1], t))
  }

  predicate Refused(states: seq<State>, actions: seq<Action>, i: nat, t: Tid)
    requires i < |states| && i <= |actions|
  {
    i > 0 && (Refused(states, actions, i - 1, t) || RefusedAt(states[i - 1], actions[i - 1], t))
  }

  predicate Blocked(states: seq<State>, actions: seq<Action>, i: nat, t: Tid)
    requires i < |states| && i <= |actions|
  {
    i > 0 && (Blocked(states, actions, i - 1, t) || BlockedAt(states[i - 1], actions[i - 1], t))
  }

  /** Undoing a creation that has made a directory. */
  predicate Undoing(st: Stage) {
    st.DestroyInit? || ((st.DriverDestroy? || st.RemoveDead?) && st.job.OfCreate?) || (st.Failed? && st.made.Some?)
  }

  /** What is true of a smooth creation. */
  ghost predicate Tidy(d: Disk, st: Stage, lacks: bool, refused: bool, blocked: bool) {
    && !st.Cleanup?
    && (Undoing(st) ==> refused)
    && (st.Failed? && st.made.None? ==> lacks)
    && (blocked ==> st.Failed? && st.made.Some?)
    && (st.Failed? && st.made.Some? ==>
          if blocked then InstIn(d.init, st.made.value) else PhaseOf(d, st.made.value) == Gone)
  }

  /** A call that goes through leads to undoing only from there, or by a refused publication, and
      to failing without a directory only for want of something. */
  lemma SmoothCall(d: Disk, st: Stage, s: State, t: Tid)
    requires s.disk == d && t in s.procs && s.procs[t] == st && Holds(d, st) && !st.Failed? && !st.Cleanup?
    ensures var a, st' := Do(t, true), Plan(d, st, true).1;
      && !st'.Cleanup?
      && (Undoing(st') ==> Undoing(st) || RefusedAt(s, a, t))
      && (st'.Failed? && st'.made.None? ==> LacksAt(s, a, t))
      && (st'.Failed? && st'.made.Some? ==>
            BlockedAt(s, a, t) || (st.RemoveDead? && st.job.OfCreate? && st'.made == Some(st.inst)))
  {}

  lemma BlockedCall(s: State, t: Tid)
    requires t in s.procs && Holds(s.disk, s.procs[t]) && BlockedAt(s, Do(t, true), t)
    ensures var s', st := Apply(s, Do(t, true)), s.procs[t];
      s'.disk == s.disk && s'.procs[t] == Failed(st.req, Some(st.inst)) && InstIn(s'.disk.init, st.inst)
  {
    assert s.disk.init[s.procs[t].req.handle].inst == s.procs[t].inst;
  }

  lemma RemovingCall(s: State, t: Tid)
    requires InstancesDistinct(s.disk) && t in s.procs && Holds(s.disk, s.procs[t])
    requires s.procs[t].RemoveDead? && s.procs[t].job.OfCreate?
    ensures PhaseOf(Apply(s, Do(t, true)).disk, s.procs[t].inst) == Gone
  {
    RemovedIsGone(s.disk, s.procs[t].job.req.handle, s.procs[t].inst);
  }

  lemma OwnStep(s: State, t: Tid, lacks: bool, refused: bool)
    requires InstancesDistinct(s.disk) && t in s.procs && Holds(s.disk, s.procs[t])
    requires Tidy(s.disk, s.procs[t], lacks, refused, false) && !s.procs[t].Failed?
    ensures var a, s' := Do(t, true), Apply(s, Do(t, true));
      Tidy(s'.disk, s'.procs[t], lacks || LacksAt(s, a, t), refused || RefusedAt(s, a, t), BlockedAt(s, a, t))
  {
    SmoothCall(s.disk, s.procs[t], s, t);
    if BlockedAt(s, Do(t, true), t) { BlockedCall(s, t); }
    if s.procs[t].RemoveDead? && s.procs[t].job.OfCreate? { RemovingCall(s, t); }
  }

  lemma RemovedIsGone(d: Disk, h: Handle, i: nat)
    requires InstancesDistinct(d) && h in d.dead && d.dead[h].inst == i
    ensures PhaseOf(Perform(d, DropDead(h)), i) == Gone
  {
    assert InstIn(d.dead, i);
  }

  /** A directory that a creation has given up in init stays there: it is nobody's any more. */
  lemma AbandonedStays(s: State, a: Action, t: Tid, i: nat)
    requires Inv(s) && Enabled(s, a) && t in s.procs && s.procs[t].Failed? && s.procs[t].made == Some(i)
    requires InstIn(s.disk.init, i) && (a.Do? ==> a.t != t)
    ensures InstIn(Apply(s, a).disk.init, i)
  {
    var st, e, st' := StepIsSound(s, a);
    var h :| h in s.disk.init && s.disk.init[h].inst == i;
    if a.t in s.procs { assert Holds(s.disk, st) && Faithful(s.disk, st); }
    assert Owns(st) != InInit(h);
    EffectSpares(s.disk, st, e, h);
    assert Apply(s, a).disk.init[h].inst == i;
  }

  lemma EffectSpares(d: Disk, st: Stage, e: Effect, h: Handle)
    requires Possible(d, e) && Authorized(st, e) && h in d.init && Owns(st) != InInit(h)
    ensures h in Perform(d, e).init && Perform(d, e).init[h].inst == d.init[h].inst
  {}

  lemma OthersStep(s: State, a: Action, t: Tid, lacks: bool, refused: bool, blocked: bool)
    requires Inv(s) && Enabled(s, a) && t in s.procs && (a.Do? ==> a.t != t)
    requires Tidy(s.disk, s.procs[t], lacks, refused, blocked)
    ensures Tidy(Apply(s, a).disk, s.procs[t], lacks, refused, blocked)
  {
    var st := s.procs[t];
    if st.Failed? && st.made.Some? {
      if blocked { AbandonedStays(s, a, t, st.made.value); } else { GoneStays(s, a, st.made.value); }
    }
  }

  lemma GoneStays(s: State, a: Action, i: nat)
    requires InstancesDistinct(s.disk) && Enabled(s, a) && PhaseOf(s.disk, i) == Gone
    ensures PhaseOf(Apply(s, a).disk, i) == Gone
  {
    var e := StepEffect(s, a);
    EffectMovesForward(s.disk, e, i);
  }

  lemma {:induction false} SmoothIsTidy(states: seq<State>, actions: seq<Action>, i: nat, t: Tid)
    requires Run(states, actions) && i < |states| && Smooth(actions, i, t)
    ensures t in states[i].procs ==>
      Tidy(states[i].disk, states[i].procs[t], Lacks(states, actions, i, t),
           Refused(states, actions, i, t), Blocked(states, actions, i, t))
    ensures t !in states[i].procs ==> !Blocked(states, actions, i, t)
  {
    if i > 0 {
      var s, a := states[i - 1], actions[i - 1];
      SmoothIsTidy(states, actions, i - 1, t);
      RunKeepsInv(states, actions, i - 1);
      if t in s.procs {
        if a.Do? && a.t == t {
          assert Holds(s.disk, s.procs[t]);
          if !s.procs[t].Failed? {
            OwnStep(s, t, Lacks(states, actions, i - 1, t), Refused(states, actions, i - 1, t));
          }
        } else {
          OthersStep(s, a, t, Lacks(states, actions, i - 1, t), Refused(states, actions, i - 1, t),
                     Blocked(states, actions, i - 1, t));
        }
      }
    }
  }

  /** A smooth creation that failed after making a directory was refused because a volume of its
      name was live, and its directory is gone if and only if no directory of that name in dead
      was in the way of the cleanup; otherwise it stays in init. */
  lemma FailedCreationCleansUp(states: seq<State>, actions: seq<Action>, i: nat, t: Tid)
    requires Run(states, actions) && i < |states| && Smooth(actions, i, t)
    requires t in states[i].procs && states[i].procs[t].Failed? && states[i].procs[t].made.Some?
    ensures var inst := states[i].procs[t].made.value;
      && Refused(states, actions, i, t)
      && (PhaseOf(states[i].disk, inst) == Gone <==> !Blocked(states, actions, i, t))
      && (InstIn(states[i].disk.init, inst) <==> Blocked(states, actions, i, t))
  {
    SmoothIsTidy(states, actions, i, t);
  }

  /** A smooth creation that failed before that found its name taken in init, or its parent not
      live. */
  lemma FailedEarly(states: seq<State>, actions: seq<Action>, i: nat, t: Tid)
    requires Run(states, actions) && i < |states| && Smooth(actions, i, t)
    requires t in states[i].procs && states[i].procs[t].Failed? && states[i].procs[t].made.None?
    ensures Lacks(states, actions, i, t)
  {
    SmoothIsTidy(states, actions, i, t);
  }

  /******* Destructions *******/

  /** The volume is not there, or a directory in dead is in the way. */
  predicate MissesAt(s: State, a: Action, t: Tid) {
    Moves(s, a, t) &&
    match s.procs[t]
    case LookupVolume(h) => h !in s.disk.live
    case DestroyLive(h) => h !in s.disk.live || h in s.disk.dead
    case _ => false
  }

  predicate Misses(states: seq<State>, actions: seq<Action>, i: nat, t: Tid)
    requires i < |states| && i <= |actions|
  {
    i > 0 && (Misses(states, actions, i - 1, t) || MissesAt(states[i - 1], actions[i - 1], t))
  }

  lemma SmoothDestroyCall(s: State, t: Tid)
    requires t in s.procs && s.procs[t] != Destroyed(JobOf(s.procs[t]), false)
    ensures var st' := Plan(s.disk, s.procs[t], true).1;
      st'.Destroyed? && !st'.ok ==> MissesAt(s, Do(t, true), t)
  {}

  function JobOf(st: Stage): Handle {
    if st.Destroyed? then st.handle else ""
  }

  /** A destruction none of whose calls fails of itself ends without success only if it found no
      volume, or a directory of that name in dead. */
  lemma {:induction false} FailedDestruction(states: seq<State>, actions: seq<Action>, i: nat, t: Tid)
    requires Run(states, actions) && i < |states| && Smooth(actions, i, t)
    requires t in states[i].procs && states[i].procs[t].Destroyed? && !states[i].procs[t].ok
    ensures Misses(states, actions, i, t)
  {
    if i > 0 {
      var s, a := states[i - 1], actions[i - 1];
      if t in s.procs && s.procs[t] == Destroyed(JobOf(s.procs[t]), false) {
        FailedDestruction(states, actions, i - 1, t);
      } else if t in s.procs && a.Do? && a.t == t {
        SmoothDestroyCall(s, t);
      }
    }
  }
}
