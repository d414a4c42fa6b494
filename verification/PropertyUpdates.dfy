/** SetProperty and DestroyVolume as interleaved calls under the keyed lock.

    Each call takes the lock of its handle, looks the volume up, works on it by path and
    gives the lock back; volume creation publishes volumes without taking any lock.  The
    lock steps are those of module Locker, with one session for each call.  Every change of
    a volume is recorded in a log in the order it reaches the disk, and replaying that log
    one whole operation at a time gives the disk: the read-modify-write of SetProperty is
    serial. */
module PropertyUpdates {
  import opened Wrappers
  import opened Properties
  import L = Locker

  type Tid = L.Tid

  datatype Call = SetProperty(handle: Handle, name: string, value: string) | Destroy(handle: Handle)

  datatype Outcome = Succeeded | DoesNotExist

  datatype Stage =
    | Locking(call: Call)                    // inside Lock, or just returned from it
    | Found(call: Call)                      // LookupVolume found the volume
    | Loaded(call: Call, props: Properties)  // SetProperty has read the properties
    | Finished(call: Call, outcome: Outcome) // the deferred Unlock is next
    | Returned(call: Call, outcome: Outcome) // Unlock has been called

  datatype Event =
    | Created(props: Properties)
    | Updated(call: Tid, name: string, value: string)
    | Destroyed(call: Tid)

  datatype State = State(
    lk: L.State,
    live: map<Handle, Properties>,
    calls: map<Tid, Stage>,
    log: map<Handle, seq<Event>>)
  {
    function History(h: Handle): seq<Event> {
      if h in log then log[h] else []
    }

    function Record(h: Handle, e: Event): map<Handle, seq<Event>> {
      log[h := History(h) + [e]]
    }
  }

  datatype Action =
    | Begin(t: Tid, call: Call, unused: L.EntryId)
    | Acquire(t: Tid)
    | Lookup(t: Tid)
    | Load(t: Tid)
    | Store(t: Tid)
    | Rename(t: Tid)
    | Unlock(t: Tid)
    | Release(t: Tid)
    | Create(handle: Handle, props: Properties)

  /** The lock step an action performs, if any. */
  function LockStep(a: Action): Option<L.Action> {
    match a
    case Begin(t, call, unused) => Some(L.Register(t, call.handle, unused))
    case Acquire(t) => Some(L.Send(t))
    case Unlock(t) => Some(L.Unregister(t))
    case Release(t) => Some(L.Receive(t))
    case _ => None
  }

  predicate Enabled(s: State, a: Action) {
    && (LockStep(a).Some? ==> L.Enabled(s.lk, LockStep(a).value))
    && match a
       case Begin(t, _, _) => t !in s.calls
       case Acquire(t) => t in s.calls && s.calls[t].Locking?
       case Lookup(t) => t in s.calls && s.calls[t].Locking? && s.lk.At(t).Holding?
       case Load(t) => t in s.calls && s.calls[t].Found? && s.calls[t].call.SetProperty?
       case Store(t) => t in s.calls && s.calls[t].Loaded? && s.calls[t].call.SetProperty?
       case Rename(t) => t in s.calls && s.calls[t].Found? && s.calls[t].call.Destroy?
       case Unlock(t) => t in s.calls && s.calls[t].Finished?
       case Release(t) => t in s.calls && s.calls[t].Returned?
       case Create(h, _) => h !in s.live
  }

  /** The stage, disk and log after an action, the lock aside.  Reading and writing go by
      path, so each fails when the directory is not there. */
  function Effect(s: State, a: Action): State
    requires Enabled(s, a)
  {
    match a
    case Begin(t, call, _) => s.(calls := s.calls[t := Locking(call)])
    case Acquire(_) => s
    case Lookup(t) =>
      var c := s.calls[t].call;
      s.(calls := s.calls[t := if c.handle in s.live then Found(c) else Finished(c, DoesNotExist)])
    case Load(t) =>
      var c := s.calls[t].call;
      s.(calls := s.calls[t :=
           if c.handle in s.live then Loaded(c, s.live[c.handle]) else Finished(c, DoesNotExist)])
    case Store(t) =>
      var c, props := s.calls[t].call, s.calls[t].props;
      if c.handle in s.live then
        s.(live := s.live[c.handle := props[c.name := c.value]],
           calls := s.calls[t := Finished(c, Succeeded)],
           log := s.Record(c.handle, Updated(t, c.name, c.value)))
      else
        s.(calls := s.calls[t := Finished(c, DoesNotExist)])
    case Rename(t) =>
      var c := s.calls[t].call;
      if c.handle in s.live then
        s.(live := s.live - {c.handle},
           calls := s.calls[t := Finished(c, Succeeded)],
           log := s.Record(c.handle, Destroyed(t)))
      else
        s.(calls := s.calls[t := Finished(c, DoesNotExist)])
    case Unlock(t) => s.(calls := s.calls[t := Returned(s.calls[t].call, s.calls[t].outcome)])
    case Release(_) => s
    case Create(h, props) => s.(live := s.live[h := props], log := s.Record(h, Created(props)))
  }

  function Apply(s: State, a: Action): State
    requires Enabled(s, a)
  {
    Effect(s, a).(lk := if LockStep(a).Some? then L.Apply(s.lk, LockStep(a).value) else s.lk)
  }

  const INITIAL := State(L.INITIAL, map[], map[], map[])

  ghost predicate Run(states: seq<State>, actions: seq<Action>) {
    && |states| == |actions| + 1
    && states[0] == INITIAL
    && forall i :: 0 <= i < |actions| ==>
      Enabled(states[i], actions[i]) && states[i + 1] == Apply(states[i], actions[i])
  }

  /** What a log means: its events applied one after the other, each as one whole. */
  function Replay(log: seq<Event>): Option<Properties> {
    if log == [] then None
    else
      match log[|log| - 1]
      case Created(props) => Some(props)
      case Destroyed(_) => None
      case Updated(_, name, value) =>
        (match Replay(log[..|log| - 1])
         case None => None
         case Some(props) => Some(props[name := value]))
  }

  predicate MadeBy(e: Event, t: Tid) {
    (e.Updated? && e.call == t) || (e.Destroyed? && e.call == t)
  }

  /** How many changes a call made to a volume. */
  function Changes(log: seq<Event>, t: Tid): nat {
    if log == [] then 0
    else Changes(log[..|log| - 1], t) + if MadeBy(log[|log| - 1], t) then 1 else 0
  }

  /******* The invariant *******/

  /** The lock session of a call is where its stage says; from Found to Finished it holds. */
  ghost predicate SessionOf(s: State, t: Tid)
    requires t in s.calls
  {
    var h := s.calls[t].call.handle;
    match s.calls[t]
    case Locking(_) => (s.lk.At(t).Queued? || s.lk.At(t).Holding?) && s.lk.At(t).key == h
    case Returned(_, _) => s.lk.At(t).Leaving? || s.lk.At(t).Idle?
    case _ => s.lk.At(t).Holding? && s.lk.At(t).key == h
  }

  /** What a call has seen is still so. */
  ghost predicate SeenIsCurrent(s: State, t: Tid)
    requires t in s.calls
  {
    var h := s.calls[t].call.handle;
    match s.calls[t]
    case Found(_) => h in s.live
    case Loaded(c, props) => c.SetProperty? && h in s.live && s.live[h] == props
    case _ => true
  }

  /** What a volume's log means is what the disk has. */
  ghost predicate OnDisk(s: State, h: Handle) {
    Replay(s.History(h)) == if h in s.live then Some(s.live[h]) else None
  }

  ghost predicate Disk(s: State) {
    forall h :: OnDisk(s, h)
  }

  /** Whether a call has reported success on a volume. */
  predicate SucceededOn(s: State, t: Tid, h: Handle) {
    && t in s.calls && (s.calls[t].Finished? || s.calls[t].Returned?)
    && s.calls[t].outcome.Succeeded? && s.calls[t].call.handle == h
  }

  /** A call has changed its own volume once if it succeeded, and nothing otherwise. */
  ghost predicate OneChange(s: State, t: Tid) {
    forall h :: Changes(s.History(h), t) == if SucceededOn(s, t, h) then 1 else 0
  }

  /** The change that a call makes when it succeeds. */
  function EventOf(t: Tid, c: Call): Event {
    match c
    case SetProperty(_, name, value) => Updated(t, name, value)
    case Destroy(_) => Destroyed(t)
  }

  /** A change made by a call is the one the call was asked for, on the volume it was asked of. */
  ghost predicate Authored(s: State, e: Event, h: Handle) {
    !e.Created? ==> e.call in s.calls && s.calls[e.call].call.handle == h && e == EventOf(e.call, s.calls[e.call].call)
  }

  ghost predicate LogAuthored(s: State, h: Handle) {
    forall i | 0 <= i < |s.History(h)| :: Authored(s, s.History(h)[i], h)
  }

  ghost predicate Inv(s: State) {
    && L.Inv(s.lk)
    && (forall t <- s.calls :: SessionOf(s, t) && SeenIsCurrent(s, t))
    && (forall t | !s.lk.At(t).Idle? :: t in s.calls)
    && Disk(s)
    && (forall t :: OneChange(s, t))
    && (forall h :: LogAuthored(s, h))
  }

  /** A step leaves the other calls and their lock sessions where they were. */
  lemma OthersStay(s: State, a: Action, t: Tid)
    requires Enabled(s, a) && (a.Create? || a.t != t)
    ensures var s' := Apply(s, a);
      && s'.lk.At(t) == s.lk.At(t)
      && (t in s'.calls <==> t in s.calls)
      && (t in s.calls ==> s'.calls[t] == s.calls[t])
  {}

  lemma OwnSessionKept(s: State, a: Action)
    requires Enabled(s, a) && !a.Create?
    requires a.t in s.calls ==> SessionOf(s, a.t)
    requires a.Unlock? ==> L.UnregisterIn(s.lk.sh, s.lk.At(a.t).key).Some?
    ensures a.t in Apply(s, a).calls && SessionOf(Apply(s, a), a.t)
  {}

  lemma SessionsKept(s: State, a: Action, t: Tid)
    requires Enabled(s, a) && t in Apply(s, a).calls
    requires t in s.calls ==> SessionOf(s, t)
    requires L.Inv(s.lk)
    ensures SessionOf(Apply(s, a), t)
  {
    if a.Create? || a.t != t {
      OthersStay(s, a, t);
    } else {
      if a.Unlock? { L.HolderIsRegistered(s.lk, t); }
      OwnSessionKept(s, a);
    }
  }

  lemma OwnSeenKept(s: State, a: Action)
    requires Enabled(s, a) && !a.Create?
    requires a.t in s.calls ==> SeenIsCurrent(s, a.t)
    ensures a.t in Apply(s, a).calls && SeenIsCurrent(Apply(s, a), a.t)
  {}

  /** The volumes a step may change are its own. */
  lemma OtherVolumesStay(s: State, a: Action, h: Handle)
    requires Enabled(s, a) && (a.Store? || a.Rename? ==> s.calls[a.t].call.handle != h)
    requires h in s.live
    ensures h in Apply(s, a).live && Apply(s, a).live[h] == s.live[h]
  {}

  /** No step of another call or of a creation undoes what a call has seen: whoever could
      would have to hold the same lock. */
  lemma SeenKept(s: State, a: Action, t: Tid)
    requires Enabled(s, a) && t in Apply(s, a).calls
    requires L.Inv(s.lk)
    requires forall u <- s.calls :: SessionOf(s, u) && SeenIsCurrent(s, u)
    ensures SeenIsCurrent(Apply(s, a), t)
  {
    if a.Create? || a.t != t {
      OthersStay(s, a, t);
      if s.calls[t].Found? || s.calls[t].Loaded? {
        var h := s.calls[t].call.handle;
        assert SessionOf(s, t) && SeenIsCurrent(s, t);
        if (a.Store? || a.Rename?) && s.calls[a.t].call.handle == h {
          assert SessionOf(s, a.t);
          L.OneHolder(s.lk, t, a.t);
          assert false;
        }
        OtherVolumesStay(s, a, h);
      }
    } else {
      OwnSeenKept(s, a);
    }
  }

  /** The handle whose log an action extends, and by what. */
  function Change(s: State, a: Action): Option<(Handle, Event)>
    requires Enabled(s, a)
  {
    match a
    case Store(t) =>
      var c := s.calls[t].call;
      if c.handle in s.live then Some((c.handle, Updated(t, c.name, c.value))) else None
    case Rename(t) =>
      var c := s.calls[t].call;
      if c.handle in s.live then Some((c.handle, Destroyed(t))) else None
    case Create(h, props) => Some((h, Created(props)))
    case _ => None
  }

  lemma LogGrows(s: State, a: Action, h: Handle)
    requires Enabled(s, a)
    ensures var ch := Change(s, a);
      Apply(s, a).History(h) == if ch.Some? && ch.value.0 == h then s.History(h) + [ch.value.1] else s.History(h)
  {}

  lemma DiskKept(s: State, a: Action, h: Handle)
    requires Enabled(s, a) && Disk(s)
    requires forall u <- s.calls :: SeenIsCurrent(s, u)
    ensures OnDisk(Apply(s, a), h)
  {
    LogGrows(s, a, h);
    var log := s.History(h);
    assert forall e :: (log + [e])[..|log|] == log && (log + [e])[|log|] == e;
    assert OnDisk(s, h);
    if a.Store? { assert SeenIsCurrent(s, a.t); }
  }

  /** A call reports success on a volume with the very step that changes the volume. */
  lemma SuccessIsChange(s: State, a: Action, t: Tid, h: Handle)
    requires Enabled(s, a)
    ensures var ch := Change(s, a);
      var mine := ch.Some? && ch.value.0 == h && MadeBy(ch.value.1, t);
      && (mine ==> !SucceededOn(s, t, h))
      && (SucceededOn(Apply(s, a), t, h) <==> SucceededOn(s, t, h) || mine)
  {
    if a.Create? || a.t != t { OthersStay(s, a, t); }
  }

  lemma OneChangeKept(s: State, a: Action, t: Tid)
    requires Enabled(s, a) && OneChange(s, t)
    ensures OneChange(Apply(s, a), t)
  {
    var s' := Apply(s, a);
    forall h
      ensures Changes(s'.History(h), t) == if SucceededOn(s', t, h) then 1 else 0
    {
      OneChangeAt(s, a, t, h);
    }
  }

  lemma ChangesSnoc(log: seq<Event>, e: Event, t: Tid)
    ensures Changes(log + [e], t) == Changes(log, t) + if MadeBy(e, t) then 1 else 0
  {
    assert (log + [e])[..|log|] == log;
  }

  lemma OneChangeAt(s: State, a: Action, t: Tid, h: Handle)
    requires Enabled(s, a) && Changes(s.History(h), t) == if SucceededOn(s, t, h) then 1 else 0
    ensures Changes(Apply(s, a).History(h), t) == if SucceededOn(Apply(s, a), t, h) then 1 else 0
  {
    LogGrows(s, a, h);
    SuccessIsChange(s, a, t, h);
    if Change(s, a).Some? { ChangesSnoc(s.History(h), Change(s, a).value.1, t); }
  }

  lemma CallStays(s: State, a: Action, t: Tid)
    requires Enabled(s, a) && t in s.calls
    ensures t in Apply(s, a).calls && Apply(s, a).calls[t].call == s.calls[t].call
  {}

  lemma ChangeIsAuthored(s: State, a: Action)
    requires Enabled(s, a) && Change(s, a).Some?
    ensures var (h, e) := Change(s, a).value; Authored(s, e, h)
  {}

  lemma AuthorStays(s: State, a: Action, e: Event, h: Handle)
    requires Enabled(s, a) && Authored(s, e, h)
    ensures Authored(Apply(s, a), e, h)
  {
    if !e.Created? { CallStays(s, a, e.call); }
  }

  lemma AuthorsKept(s: State, a: Action, h: Handle)
    requires Enabled(s, a) && LogAuthored(s, h)
    ensures LogAuthored(Apply(s, a), h)
  {
    LogGrows(s, a, h);
    var log := Apply(s, a).History(h);
    forall i | 0 <= i < |log|
      ensures Authored(Apply(s, a), log[i], h)
    {
      if i < |s.History(h)| { assert Authored(s, s.History(h)[i], h); } else { ChangeIsAuthored(s, a); }
      AuthorStays(s, a, log[i], h);
    }
  }

  lemma NoStraySession(s: State, a: Action, t: Tid)
    requires Enabled(s, a) && (!s.lk.At(t).Idle? ==> t in s.calls)
    ensures !Apply(s, a).lk.At(t).Idle? ==> t in Apply(s, a).calls
  {
    if a.Create? || a.t != t { OthersStay(s, a, t); }
  }

  lemma StepKeepsInv(s: State, a: Action)
    requires Inv(s) && Enabled(s, a)
    ensures Inv(Apply(s, a))
  {
    var s' := Apply(s, a);
    if LockStep(a).Some? { L.StepKeepsInv(s.lk, LockStep(a).value); }
    forall t | t in s'.calls
      ensures SessionOf(s', t) && SeenIsCurrent(s', t)
    {
      SessionsKept(s, a, t);
      SeenKept(s, a, t);
    }
    forall h ensures OnDisk(s', h) { DiskKept(s, a, h); }
    forall t ensures OneChange(s', t) { OneChangeKept(s, a, t); }
    forall h ensures LogAuthored(s', h) { AuthorsKept(s, a, h); }
    forall t | !s'.lk.At(t).Idle? ensures t in s'.calls { NoStraySession(s, a, t); }
  }

  lemma {:induction false} RunKeepsInv(states: seq<State>, actions: seq<Action>, i: nat)
    requires Run(states, actions) && i < |states|
    ensures Inv(states[i])
  {
    if i > 0 {
      RunKeepsInv(states, actions, i - 1);
      StepKeepsInv(states[i - 1], actions[i - 1]);
    }
  }

  /******* What the repository promises *******/

  /** No update is lost: at every point of every run, each volume's stored properties are its
      log replayed one whole operation at a time. */
  lemma NoLostUpdate(states: seq<State>, actions: seq<Action>, i: nat, h: Handle)
    requires Run(states, actions) && i < |states|
    ensures var s := states[i]; Replay(s.History(h)) == if h in s.live then Some(s.live[h]) else None
  {
    RunKeepsInv(states, actions, i);
    assert OnDisk(states[i], h);
  }

  /** A call that reports success changed its volume exactly once, by the name and value or the
      destruction it was asked for, and no other volume; any other call, finished or not,
      changed nothing. */
  lemma ChangesMatchOutcomes(states: seq<State>, actions: seq<Action>, i: nat, t: Tid, h: Handle)
    requires Run(states, actions) && i < |states|
    ensures Changes(states[i].History(h), t) == if SucceededOn(states[i], t, h) then 1 else 0
    ensures forall e <- states[i].History(h) | MadeBy(e, t) ::
      t in states[i].calls && states[i].calls[t].call.handle == h && e == EventOf(t, states[i].calls[t].call)
  {
    RunKeepsInv(states, actions, i);
    assert OneChange(states[i], t) && LogAuthored(states[i], h);
    forall e | e in states[i].History(h) && MadeBy(e, t) ensures Authored(states[i], e, h) {}
  }

  /** Every store hits a live volume that still has the properties the call loaded, and
      every destruction finds the volume it looked up. */
  lemma StoreHitsLiveVolume(states: seq<State>, actions: seq<Action>, i: nat)
    requires Run(states, actions) && i < |actions| && (actions[i].Store? || actions[i].Rename?)
    ensures var s, t := states[i], actions[i].t;
      && s.calls[t].call.handle in s.live
      && (actions[i].Store? ==> s.live[s.calls[t].call.handle] == s.calls[t].props)
      && Apply(s, actions[i]).calls[t].outcome.Succeeded?
  {
    RunKeepsInv(states, actions, i);
    assert SeenIsCurrent(states[i], actions[i].t);
  }

  /******* What calls report *******/

  predicate Over(st: Stage) {
    st.Finished? || st.Returned?
  }

  /** The answer that a lookup in a state calls for. */
  function Answer(s: State, c: Call): Outcome {
    if c.handle in s.live then Succeeded else DoesNotExist
  }

  /** How a call stands after its lookup, given what the lookup called for. */
  ghost predicate Heading(st: Stage, answer: Outcome) {
    match st
    case Locking(_) => false
    case Found(_) => answer.Succeeded?
    case Loaded(_, _) => answer.Succeeded?
    case Finished(_, outcome) => outcome == answer
    case Returned(_, outcome) => outcome == answer
  }

  lemma StepKeepsHeading(s: State, a: Action, t: Tid, answer: Outcome)
    requires Enabled(s, a) && t in s.calls && Heading(s.calls[t], answer) && SeenIsCurrent(s, t)
    ensures t in Apply(s, a).calls && Heading(Apply(s, a).calls[t], answer)
  {
    if a.Create? || a.t != t { OthersStay(s, a, t); }
  }

  lemma SeenThroughout(states: seq<State>, actions: seq<Action>, i: nat, t: Tid)
    requires Run(states, actions) && i < |states| && t in states[i].calls
    ensures SeenIsCurrent(states[i], t)
  {
    RunKeepsInv(states, actions, i);
  }

  lemma LookupHeads(s: State, t: Tid)
    requires Enabled(s, Lookup(t))
    ensures var s', c := Apply(s, Lookup(t)), s.calls[t].call;
      t in s'.calls && Heading(s'.calls[t], Answer(s, c)) && s'.calls[t].call == c
  {}

  /** A call answers what its lookup called for: a handle that was live then is a success, any
      other one does not exist. */
  lemma {:induction false} LookupDecides(states: seq<State>, actions: seq<Action>, k: nat, i: nat, t: Tid)
    requires Run(states, actions) && k < i < |states| && actions[k] == Lookup(t)
    ensures t in states[i].calls && Heading(states[i].calls[t], Answer(states[k], states[k].calls[t].call))
    ensures states[i].calls[t].call == states[k].calls[t].call
    decreases i
  {
    if i == k + 1 {
      LookupHeads(states[k], t);
    } else {
      var s, a := states[i - 1], actions[i - 1];
      LookupDecides(states, actions, k, i - 1, t);
      SeenThroughout(states, actions, i - 1, t);
      StepKeepsHeading(s, a, t, Answer(states[k], states[k].calls[t].call));
      CallStays(s, a, t);
    }
  }

  /** When a call made its lookup. */
  lemma {:induction false} LookedUp(states: seq<State>, actions: seq<Action>, i: nat, t: Tid) returns (k: nat)
    requires Run(states, actions) && i < |states| && t in states[i].calls && !states[i].calls[t].Locking?
    ensures k < i && actions[k] == Lookup(t)
  {
    var s, a := states[i - 1], actions[i - 1];
    if t in s.calls && !s.calls[t].Locking? {
      k := LookedUp(states, actions, i - 1, t);
    } else {
      if a.Create? || a.t != t { OthersStay(s, a, t); }
      k := i - 1;
    }
  }

  /** Every call that is over reports DoesNotExist if and only if its handle was not live at its
      lookup, and success otherwise. */
  lemma OutcomeExact(states: seq<State>, actions: seq<Action>, i: nat, t: Tid) returns (k: nat)
    requires Run(states, actions) && i < |states| && t in states[i].calls && Over(states[i].calls[t])
    ensures k < i && actions[k] == Lookup(t)
    ensures var c := states[i].calls[t].call;
      && (states[i].calls[t].outcome == DoesNotExist <==> c.handle !in states[k].live)
      && (states[i].calls[t].outcome == Succeeded <==> c.handle in states[k].live)
  {
    k := LookedUp(states, actions, i, t);
    LookupDecides(states, actions, k, i, t);
  }

  /** The next step of a call that holds its lock or is giving it back. */
  lemma HolderMoves(s: State, t: Tid) returns (a: Action)
    requires L.Inv(s.lk) && t in s.calls && SessionOf(s, t) && SeenIsCurrent(s, t)
    requires s.lk.At(t).Holding? || s.lk.At(t).Leaving?
    ensures Enabled(s, a) && !a.Create? && !a.Begin?
  {
    match s.calls[t]
    case Locking(_) => a := Lookup(t);
    case Found(c) => a := if c.SetProperty? then Load(t) else Rename(t);
    case Loaded(_, _) => a := Store(t);
    case Finished(_, _) => a := Unlock(t);
    case Returned(_, _) =>
      L.LeaverReceives(s.lk, t);
      a := Release(t);
  }

  /** No call is stuck: while one has not returned, it or the one that holds the lock it waits
      for can take its next step. */
  lemma SomeCallMoves(states: seq<State>, actions: seq<Action>, i: nat, t: Tid) returns (a: Action)
    requires Run(states, actions) && i < |states| && t in states[i].calls && !states[i].calls[t].Returned?
    ensures Enabled(states[i], a) && !a.Create? && !a.Begin?
  {
    RunKeepsInv(states, actions, i);
    var s := states[i];
    assert SessionOf(s, t);
    if s.lk.At(t).Queued? {
      var u := L.Obstacle(s.lk, t);
      if L.Enabled(s.lk, L.Send(t)) {
        a := Acquire(t);
      } else {
        a := HolderMoves(s, u);
      }
    } else {
      a := HolderMoves(s, t);
    }
  }
}
