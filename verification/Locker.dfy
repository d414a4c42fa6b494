/** The keyed lock manager: a reference-counted map of one-slot channels.

    `Lock` and `Unlock` are each cut into the two atomic steps that other threads can
    interleave with: the section under the manager's mutex, and the channel operation that
    follows it outside the mutex.  In particular `Unlock` may delete the map entry before
    it gives its channel slot back. */
module Locker {
  import opened Wrappers

  type Key = string
  type Tid = nat      // one Lock ... Unlock session
  type EntryId = nat  // the identity of an allocated lock entry

  /** `full` tells whether the one-slot channel holds its token. */
  datatype Entry = Entry(count: int, full: bool)

  /** The memory the sessions share.  Entries stay allocated after they leave `locks`,
      because a session may still own a reference to them. */
  datatype Shared = Shared(locks: map<Key, EntryId>, entries: map<EntryId, Entry>)

  /** The mutex section of Lock; `unused` is the entry allocated if the key has none. */
  function RegisterIn(sh: Shared, key: Key, unused: EntryId): (Shared, EntryId) {
    if key in sh.locks && sh.locks[key] in sh.entries then
      var e := sh.locks[key];
      (sh.(entries := sh.entries[e := sh.entries[e].(count := sh.entries[e].count + 1)]), e)
    else
      (Shared(sh.locks[key := unused], sh.entries[unused := Entry(1, false)]), unused)
  }

  /** The mutex section of Unlock; None is the panic on a key without an entry. */
  function UnregisterIn(sh: Shared, key: Key): Option<(Shared, EntryId)> {
    if key in sh.locks && sh.locks[key] in sh.entries then
      var e := sh.locks[key];
      var left := sh.entries[e].count - 1;
      var locks := if left == 0 then sh.locks - {key} else sh.locks;
      Some((Shared(locks, sh.entries[e := sh.entries[e].(count := left)]), e))
    else
      None
  }

  /** The send that ends Lock; None while the channel is full, when the sender waits. */
  function SendOn(sh: Shared, e: EntryId): Option<Shared> {
    if e in sh.entries && !sh.entries[e].full then
      Some(sh.(entries := sh.entries[e := sh.entries[e].(full := true)]))
    else
      None
  }

  /** The receive that ends Unlock; None while the channel is empty, when the receiver waits. */
  function ReceiveOn(sh: Shared, e: EntryId): Option<Shared> {
    if e in sh.entries && sh.entries[e].full then
      Some(sh.(entries := sh.entries[e := sh.entries[e].(full := false)]))
    else
      None
  }

  /** The manager as the object its callers share, one method for each atomic step. */
  class LockManager {
    var locks: map<Key, EntryId>
    var entries: map<EntryId, Entry>

    ghost predicate Valid()
      reads this
    {
      forall k <- locks :: locks[k] in entries
    }

    ghost function View(): Shared
      reads this
    {
      Shared(locks, entries)
    }

    constructor ()
      ensures Valid() && View() == Shared(map[], map[])
    {
      locks, entries := map[], map[];
    }

    method Register(key: Key, unused: EntryId) returns (entry: EntryId)
      requires Valid() && unused !in entries
      modifies this
      ensures Valid() && (View(), entry) == RegisterIn(old(View()), key, unused)
      ensures entry in entries && key in locks && locks[key] == entry
    {
      ghost var before := entries;
      if key !in locks {
        entries := entries[unused := Entry(0, false)];
        locks := locks[key := unused];
      }
      entry := locks[key];
      entries := entries[entry := entries[entry].(count := entries[entry].count + 1)];
      assert key !in old(locks) ==> entries == before[unused := Entry(1, false)];
    }

    method Send(entry: EntryId) returns (sent: bool)
      requires Valid() && entry in entries
      modifies this
      ensures Valid() && sent == !old(entries)[entry].full
      ensures SendOn(old(View()), entry) == if sent then Some(View()) else None
      ensures !sent ==> View() == old(View())
    {
      sent := !entries[entry].full;
      if sent {
        entries := entries[entry := entries[entry].(full := true)];
      }
    }

    method Unregister(key: Key) returns (entry: Option<EntryId>)
      requires Valid()
      modifies this
      ensures Valid() && (entry.None? <==> key !in old(locks))
      ensures UnregisterIn(old(View()), key) == if entry.Some? then Some((View(), entry.value)) else None
      ensures entry.None? ==> View() == old(View())
    {
      if key !in locks {
        return None;
      }
      var e := locks[key];
      entries := entries[e := entries[e].(count := entries[e].count - 1)];
      if entries[e].count == 0 {
        locks := locks - {key};
      }
      entry := Some(e);
    }

    method Receive(entry: EntryId) returns (received: bool)
      requires Valid() && entry in entries
      modifies this
      ensures Valid() && received == old(entries)[entry].full
      ensures ReceiveOn(old(View()), entry) == if received then Some(View()) else None
      ensures !received ==> View() == old(View())
    {
      received := entries[entry].full;
      if received {
        entries := entries[entry := entries[entry].(full := false)];
      }
    }
  }

  /******* Interleaved sessions *******/

  /** Where a session is.  `acquired` records the entry whose slot the session took; Unlock
      does not have it and looks its entry up again by key. */
  datatype Pc =
    | Idle
    | Queued(key: Key, entry: EntryId)
    | Holding(key: Key, acquired: EntryId)
    | Leaving(key: Key, entry: EntryId)
    | Panicked

  datatype State = State(sh: Shared, threads: map<Tid, Pc>) {
    function At(t: Tid): Pc {
      if t in threads then threads[t] else Idle
    }
  }

  datatype Action =
    | Register(t: Tid, key: Key, unused: EntryId)
    | Send(t: Tid)
    | Unregister(t: Tid)
    | Receive(t: Tid)

  const INITIAL := State(Shared(map[], map[]), map[])

  /** An action is enabled when its session is at that point and the channel does not block. */
  predicate Enabled(s: State, a: Action) {
    match a
    case Register(t, key, unused) => s.At(t).Idle? && unused !in s.sh.entries
    case Send(t) => s.At(t).Queued? && SendOn(s.sh, s.At(t).entry).Some?
    case Unregister(t) => s.At(t).Holding?
    case Receive(t) => s.At(t).Leaving? && ReceiveOn(s.sh, s.At(t).entry).Some?
  }

  function Apply(s: State, a: Action): State
    requires Enabled(s, a)
  {
    match a
    case Register(t, key, unused) =>
      var (sh, e) := RegisterIn(s.sh, key, unused);
      State(sh, s.threads[t := Queued(key, e)])
    case Send(t) =>
      var pc := s.threads[t];
      State(SendOn(s.sh, pc.entry).value, s.threads[t := Holding(pc.key, pc.entry)])
    case Unregister(t) =>
      var pc := s.threads[t];
      (match UnregisterIn(s.sh, pc.key)
       case None => s.(threads := s.threads[t := Panicked])
       case Some((sh, e)) => State(sh, s.threads[t := Leaving(pc.key, e)]))
    case Receive(t) =>
      State(ReceiveOn(s.sh, s.threads[t].entry).value, s.threads[t := Idle])
  }

  /** A run from the empty manager, given as its successive states. */
  ghost predicate Run(states: seq<State>, actions: seq<Action>) {
    && |states| == |actions| + 1
    && states[0] == INITIAL
    && forall i :: 0 <= i < |actions| ==>
      Enabled(states[i], actions[i]) && states[i + 1] == Apply(states[i], actions[i])
  }

  /******* The invariant *******/

  predicate RegisteredOn(pc: Pc, e: EntryId) {
    (pc.Queued? && pc.entry == e) || (pc.Holding? && pc.acquired == e)
  }

  predicate Occupies(pc: Pc, e: EntryId) {
    (pc.Holding? && pc.acquired == e) || (pc.Leaving? && pc.entry == e)
  }

  function Registered(s: State, e: EntryId): set<Tid> {
    set t | t in s.threads && RegisteredOn(s.threads[t], e)
  }

  /** The entry of a key counts the sessions registered on it, of which there is at least one. */
  ghost predicate Counted(s: State, k: Key)
    requires k in s.sh.locks
  {
    var e := s.sh.locks[k];
    e in s.sh.entries && s.sh.entries[e].count == |Registered(s, e)| > 0
  }

  ghost predicate CountsExact(s: State) {
    forall k <- s.sh.locks :: Counted(s, k)
  }

  ghost predicate DistinctEntries(s: State) {
    forall k, k' | k in s.sh.locks && k' in s.sh.locks && s.sh.locks[k] == s.sh.locks[k'] :: k == k'
  }

  /** A registered session's entry is the one the map has for its key; a leaving session's
      entry may have been deleted, but no other key can have it. */
  ghost predicate EntryOfKey(s: State, t: Tid)
    requires t in s.threads
  {
    match s.threads[t]
    case Idle => true
    case Queued(k, e) => k in s.sh.locks && s.sh.locks[k] == e
    case Holding(k, e) => k in s.sh.locks && s.sh.locks[k] == e
    case Leaving(k, e) =>
      e in s.sh.entries && forall k' <- s.sh.locks :: s.sh.locks[k'] == e ==> k' == k
    case Panicked => false
  }

  /** A channel is full exactly when one session occupies it. */
  ghost predicate SlotExact(s: State, e: EntryId)
    requires e in s.sh.entries
  {
    && (s.sh.entries[e].full <==> exists t :: t in s.threads && Occupies(s.threads[t], e))
    && forall t, u | t in s.threads && u in s.threads ::
      Occupies(s.threads[t], e) && Occupies(s.threads[u], e) ==> t == u
  }

  ghost predicate Inv(s: State) {
    && CountsExact(s)
    && DistinctEntries(s)
    && (forall t <- s.threads :: EntryOfKey(s, t))
    && (forall e <- s.sh.entries :: SlotExact(s, e))
  }

  lemma SubsetSize(a: set<Tid>, b: set<Tid>)
    requires a <= b
    ensures |a| <= |b|
  {
    assert b == a + (b - a);
  }

  /** A step that moves no session into or out of a slot keeps that slot exact. */
  lemma SlotFrame(s: State, s': State, e: EntryId)
    requires e in s.sh.entries && e in s'.sh.entries && SlotExact(s, e)
    requires s'.sh.entries[e].full == s.sh.entries[e].full
    requires forall u :: Occupies(s'.At(u), e) <==> Occupies(s.At(u), e)
    ensures SlotExact(s', e)
  {
    forall u
      ensures (u in s.threads && Occupies(s.threads[u], e)) <==> Occupies(s.At(u), e)
      ensures (u in s'.threads && Occupies(s'.threads[u], e)) <==> Occupies(s'.At(u), e)
    {}
  }

  lemma RegisteredUpdate(s: State, s': State, t: Tid, pc: Pc, e: EntryId)
    requires s'.threads == s.threads[t := pc]
    ensures Registered(s', e) == Registered(s, e) - {t} + (if RegisteredOn(pc, e) then {t} else {})
  {}

  lemma UnregisteredEntry(s: State, e: EntryId)
    requires Inv(s) && e !in s.sh.entries
    ensures Registered(s, e) == {} && forall u :: !Occupies(s.At(u), e)
  {
    forall u | u in s.threads
      ensures !RegisteredOn(s.threads[u], e) && !Occupies(s.threads[u], e)
    {
      assert EntryOfKey(s, u);
      if s.threads[u].Queued? || s.threads[u].Holding? { assert Counted(s, s.threads[u].key); }
    }
  }

  lemma RegisterKeepsCount(s: State, t: Tid, key: Key, unused: EntryId, k: Key)
    requires Enabled(s, Register(t, key, unused)) && Registered(s, unused) == {}
    requires forall x | x in {key, k} && x in s.sh.locks :: Counted(s, x)
    requires key in s.sh.locks && k in s.sh.locks && key != k ==> s.sh.locks[key] != s.sh.locks[k]
    requires k in Apply(s, Register(t, key, unused)).sh.locks
    ensures Counted(Apply(s, Register(t, key, unused)), k)
  {
    var s' := Apply(s, Register(t, key, unused));
    var e := s'.sh.locks[k];
    RegisteredUpdate(s, s', t, s'.threads[t], e);
    assert t !in Registered(s, e);
    if key in s.sh.locks { assert Counted(s, key); }
    if k == key {
      assert Registered(s', e) == Registered(s, e) + {t};
    } else {
      assert Counted(s, k);
      assert Registered(s', e) == Registered(s, e);
    }
  }

  lemma RegisterKeepsEntries(s: State, t: Tid, key: Key, unused: EntryId)
    requires Inv(s) && Enabled(s, Register(t, key, unused))
    ensures DistinctEntries(Apply(s, Register(t, key, unused)))
    ensures forall u <- Apply(s, Register(t, key, unused)).threads :: EntryOfKey(Apply(s, Register(t, key, unused)), u)
  {
    var s' := Apply(s, Register(t, key, unused));
    forall k | k in s.sh.locks ensures Counted(s, k) {}
    forall u | u in s'.threads
      ensures EntryOfKey(s', u)
    {
      if u != t { assert EntryOfKey(s, u); }
    }
  }

  lemma RegisterKeepsInv(s: State, t: Tid, key: Key, unused: EntryId)
    requires Inv(s) && Enabled(s, Register(t, key, unused))
    ensures Inv(Apply(s, Register(t, key, unused)))
  {
    var s' := Apply(s, Register(t, key, unused));
    UnregisteredEntry(s, unused);
    forall k | k in s'.sh.locks ensures Counted(s', k) { RegisterKeepsCount(s, t, key, unused, k); }
    RegisterKeepsEntries(s, t, key, unused);
    forall e | e in s'.sh.entries
      ensures SlotExact(s', e)
    {
      if e in s.sh.entries {
        SlotFrame(s, s', e);
      } else {
        forall u | u in s'.threads ensures !Occupies(s'.threads[u], e) { assert !Occupies(s.At(u), e); }
      }
    }
  }

  lemma SendKeepsInv(s: State, t: Tid)
    requires Inv(s) && Enabled(s, Send(t))
    ensures Inv(Apply(s, Send(t)))
  {
    var s' := Apply(s, Send(t));
    var e := s.threads[t].entry;
    assert SlotExact(s, e);
    forall e' ensures Registered(s', e') == Registered(s, e') {}
    forall u | u in s'.threads ensures EntryOfKey(s', u) { assert EntryOfKey(s, u); }
    forall x | x in s'.sh.entries
      ensures SlotExact(s', x)
    {
      if x == e {
        assert Occupies(s'.threads[t], e);
      } else {
        SlotFrame(s, s', x);
      }
    }
  }

  lemma UnregisterKeepsCount(s: State, t: Tid, k: Key)
    requires CountsExact(s) && DistinctEntries(s) && Enabled(s, Unregister(t)) && EntryOfKey(s, t)
    requires k in Apply(s, Unregister(t)).sh.locks
    ensures Counted(Apply(s, Unregister(t)), k)
  {
    var s' := Apply(s, Unregister(t));
    var key := s.threads[t].key;
    assert Counted(s, key) && Counted(s, k);
    var e := s.sh.locks[k];
    RegisteredUpdate(s, s', t, s'.threads[t], e);
    if k == key {
      assert Registered(s', e) == Registered(s, e) - {t};
    } else {
      assert Registered(s', e) == Registered(s, e);
    }
  }

  /** While another session is registered on the entry, a session that leaves does not delete it. */
  lemma UnregisterKeepsEntry(s: State, t: Tid, u: Tid)
    requires Inv(s) && Enabled(s, Unregister(t)) && u in s.threads
    ensures var s' := Apply(s, Unregister(t)); u in s'.threads && EntryOfKey(s', u)
  {
    var e := s.threads[t].acquired;
    assert EntryOfKey(s, t) && EntryOfKey(s, u) && Counted(s, s.threads[t].key);
    if u != t && RegisteredOn(s.threads[u], e) {
      assert {t, u} <= Registered(s, e) && |{t, u}| == 2;
      SubsetSize({t, u}, Registered(s, e));
    }
  }

  lemma UnregisterKeepsInv(s: State, t: Tid)
    requires Inv(s) && Enabled(s, Unregister(t))
    ensures Inv(Apply(s, Unregister(t)))
  {
    var s' := Apply(s, Unregister(t));
    HolderIsRegistered(s, t);
    assert EntryOfKey(s, t);
    forall k | k in s'.sh.locks ensures Counted(s', k) { UnregisterKeepsCount(s, t, k); }
    forall u | u in s'.threads ensures EntryOfKey(s', u) { UnregisterKeepsEntry(s, t, u); }
    forall x | x in s'.sh.entries ensures SlotExact(s', x) { SlotFrame(s, s', x); }
  }

  lemma ReceiveKeepsInv(s: State, t: Tid)
    requires Inv(s) && Enabled(s, Receive(t))
    ensures Inv(Apply(s, Receive(t)))
  {
    var s' := Apply(s, Receive(t));
    var e := s.threads[t].entry;
    assert SlotExact(s, e) && Occupies(s.threads[t], e);
    forall e' ensures Registered(s', e') == Registered(s, e') {}
    forall u | u in s'.threads ensures EntryOfKey(s', u) { assert EntryOfKey(s, u); }
    forall x | x in s'.sh.entries
      ensures SlotExact(s', x)
    {
      if x != e { SlotFrame(s, s', x); }
    }
  }

  lemma StepKeepsInv(s: State, a: Action)
    requires Inv(s) && Enabled(s, a)
    ensures Inv(Apply(s, a))
  {
    match a
    case Register(t, key, unused) => RegisterKeepsInv(s, t, key, unused);
    case Send(t) => SendKeepsInv(s, t);
    case Unregister(t) => UnregisterKeepsInv(s, t);
    case Receive(t) => ReceiveKeepsInv(s, t);
  }

  lemma {:induction false} RunKeepsInv(states: seq<State>, actions: seq<Action>, i: nat)
    requires Run(states, actions) && i < |states|
    ensures Inv(states[i])
  {
    if i > 0 {
      RunKeepsInv(states, actions, i - 1);
      StepKeepsInv(states[i - 1], actions[i - 1]);
    }
  }

  /******* What callers rely on *******/

  lemma OneHolder(s: State, t: Tid, u: Tid)
    requires Inv(s) && s.At(t).Holding? && s.At(u).Holding? && s.At(t).key == s.At(u).key
    ensures t == u
  {
    assert EntryOfKey(s, t) && EntryOfKey(s, u);
    assert SlotExact(s, s.threads[t].acquired);
  }

  lemma HolderIsRegistered(s: State, t: Tid)
    requires Inv(s) && s.At(t).Holding?
    ensures UnregisterIn(s.sh, s.At(t).key).Some?
  {
    assert EntryOfKey(s, t) && Counted(s, s.At(t).key);
  }

  lemma LeaverReceives(s: State, t: Tid)
    requires Inv(s) && s.At(t).Leaving?
    ensures Enabled(s, Receive(t))
  {
    assert EntryOfKey(s, t);
    assert SlotExact(s, s.threads[t].entry) && Occupies(s.threads[t], s.threads[t].entry);
  }

  /** Keyed mutual exclusion: at no point of any run are two sessions of one key between
      the return of Lock and the call of Unlock. */
  lemma MutualExclusion(states: seq<State>, actions: seq<Action>, i: nat, t: Tid, u: Tid)
    requires Run(states, actions) && i < |states|
    requires states[i].At(t).Holding? && states[i].At(u).Holding?
    requires states[i].At(t).key == states[i].At(u).key
    ensures t == u
  {
    RunKeepsInv(states, actions, i);
    OneHolder(states[i], t, u);
  }

  /** The sessions registered on a key: those inside Lock or holding it. */
  function RegisteredOnKey(s: State, k: Key): set<Tid> {
    set t | t in s.threads && (s.threads[t].Queued? || s.threads[t].Holding?) && s.threads[t].key == k
  }

  /** A key has an entry exactly while some session is registered on it, and the entry
      counts those sessions. */
  lemma Bookkeeping(states: seq<State>, actions: seq<Action>, i: nat, k: Key)
    requires Run(states, actions) && i < |states|
    ensures var s := states[i];
      && (k in s.sh.locks <==> RegisteredOnKey(s, k) != {})
      && (k in s.sh.locks ==>
        s.sh.locks[k] in s.sh.entries && s.sh.entries[s.sh.locks[k]].count == |RegisteredOnKey(s, k)|)
  {
    RunKeepsInv(states, actions, i);
    var s := states[i];
    forall t | t in s.threads ensures EntryOfKey(s, t) {}
    if k in s.sh.locks {
      assert RegisteredOnKey(s, k) == Registered(s, s.sh.locks[k]);
    }
  }

  /** No session panics, a holder's Unlock finds the entry it took, and its receive does
      not block. */
  lemma UnlockIsSafe(states: seq<State>, actions: seq<Action>, i: nat, t: Tid)
    requires Run(states, actions) && i < |states|
    ensures var s := states[i];
      && !s.At(t).Panicked?
      && (s.At(t).Holding? ==>
           var r := UnregisterIn(s.sh, s.At(t).key); r.Some? && r.value.1 == s.At(t).acquired)
      && (s.At(t).Leaving? ==> Enabled(s, Receive(t)))
  {
    RunKeepsInv(states, actions, i);
    var s := states[i];
    if t in s.threads {
      assert EntryOfKey(s, t);
      if s.threads[t].Leaving? { LeaverReceives(s, t); }
    }
  }

  /** The session that a waiter waits for, or the waiter itself if it can go ahead. */
  lemma Obstacle(s: State, t: Tid) returns (u: Tid)
    requires Inv(s) && s.At(t).Queued?
    ensures
      || (u == t && Enabled(s, Send(t)))
      || (&& Occupies(s.At(u), s.At(t).entry) && s.At(u).key == s.At(t).key
          && (Enabled(s, Unregister(u)) || Enabled(s, Receive(u))))
  {
    var e := s.threads[t].entry;
    assert EntryOfKey(s, t) && SlotExact(s, e);
    if s.sh.entries[e].full {
      u :| u in s.threads && Occupies(s.threads[u], e);
      assert EntryOfKey(s, u);
    } else {
      u := t;
    }
  }

  /** No waiter is stuck: its own send can go ahead, or one session of the same key holds or
      is leaving the entry it waits for, and that session's next step is enabled. */
  lemma WaiterProgress(states: seq<State>, actions: seq<Action>, i: nat, t: Tid) returns (u: Tid)
    requires Run(states, actions) && i < |states| && states[i].At(t).Queued?
    ensures var s := states[i];
      || (u == t && Enabled(s, Send(t)))
      || (&& Occupies(s.At(u), s.At(t).entry) && s.At(u).key == s.At(t).key
          && (Enabled(s, Unregister(u)) || Enabled(s, Receive(u))))
  {
    RunKeepsInv(states, actions, i);
    u := Obstacle(states[i], t);
  }

  /** With every session finished the manager keeps no entry in its map. */
  lemma QuiescentIsEmpty(states: seq<State>, actions: seq<Action>, i: nat)
    requires Run(states, actions) && i < |states|
    requires forall t :: states[i].At(t).Idle? || states[i].At(t).Leaving?
    ensures states[i].sh.locks == map[]
  {
    if k :| k in states[i].sh.locks {
      Bookkeeping(states, actions, i, k);
      var t :| t in RegisteredOnKey(states[i], k);
      assert states[i].At(t) == states[i].threads[t];
    }
  }
}
