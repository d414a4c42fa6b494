/** Reading a chain of parents link by link while other requests go on.

    The overlay driver resolves the root of a new volume's parent without a lock, one link at a
    time.  In a run in which children go before parents, the chain above the parent of a
    creation in flight does not move, so the loop ends, and at the root. */
module ParentChains {
  import opened Wrappers
  import opened Forest
  import opened Lifecycle

  lemma NeededStays(s: State, a: Action, p: Handle)
    requires Enabled(s, a) && ChildrenFirst(s, a) && p in s.disk.live && HasDependents(s, p)
    ensures p in Apply(s, a).disk.live && Apply(s, a).disk.live[p] == s.disk.live[p]
  {
    StaysLive(s.disk, EffectOf(s, a), p);
    EffectKeepsLive(s.disk, EffectOf(s, a), p);
  }

  /** What is needed has what it needs. */
  lemma {:induction false} AncestorStays(s: State, a: Action, p: Handle, n: nat)
    requires Enabled(s, a) && ChildrenFirst(s, a) && LiveLinksHold(s.disk) && p in s.disk.live && HasDependents(s, p)
    ensures Ancestor(LinksOf(Apply(s, a).disk), p, n) == Ancestor(LinksOf(s.disk), p, n)
    decreases n
  {
    NeededStays(s, a, p);
    if n > 0 && s.disk.live[p].parent.Some? {
      var q := s.disk.live[p].parent.value;
      assert HasDependents(s, q);
      AncestorStays(s, a, q, n - 1);
    }
  }

  /** From one state to another a creation is in flight under the same parent. */
  ghost predicate InFlightThrough(states: seq<State>, i: nat, j: nat, t: Tid, p: Handle)
    requires i <= j < |states|
  {
    forall k | i <= k <= j :: t in states[k].procs && InFlight(states[k].procs[t], p)
  }

  lemma {:induction false} AncestorsStable(
    states: seq<State>, actions: seq<Action>, i: nat, j: nat, t: Tid, p: Handle, n: nat)
    requires OrderlyRun(states, actions) && i <= j < |states| && InFlightThrough(states, i, j, t, p)
    ensures Ancestor(LinksOf(states[j].disk), p, n) == Ancestor(LinksOf(states[i].disk), p, n)
    decreases j
  {
    if i < j {
      AncestorsStable(states, actions, i, j - 1, t, p, n);
      OrderlyRunKeepsLinks(states, actions, j - 1);
      AncestorStays(states[j - 1], actions[j - 1], p, n);
    }
  }

  lemma {:induction false} AncestorOneMore(l: Links, h: Handle, n: nat, x: Handle)
    requires Ancestor(l, h, n) == Some(x)
    ensures x in l && Ancestor(l, h, n + 1) == if l[x].Some? && l[x].value in l then l[x] else None
    decreases n
  {
    if n == 0 {
      if l[h].Some? { assert Ancestor(l, h, 1) == Ancestor(l, l[h].value, 0); }
    } else {
      AncestorOneMore(l, l[h].value, n - 1, x);
      assert Ancestor(l, h, n + 1) == Ancestor(l, l[h].value, n);
    }
  }

  /** Links read one after the other, each at some moment between two states. */
  ghost predicate ReadUpwards(states: seq<State>, i: nat, j: nat, p: Handle, walk: seq<Handle>, times: seq<nat>)
    requires i <= j < |states|
  {
    && |walk| == |times| + 1 && walk[0] == p
    && forall k | 0 <= k < |times| ::
      && i <= times[k] <= j
      && var l := LinksOf(states[times[k]].disk);
         walk[k] in l && l[walk[k]] == Some(walk[k + 1])
  }

  lemma {:induction false} ReadsAreAncestors(
    states: seq<State>, actions: seq<Action>, i: nat, j: nat, t: Tid, p: Handle,
    walk: seq<Handle>, times: seq<nat>, k: nat)
    requires OrderlyRun(states, actions) && i <= j < |states| && InFlightThrough(states, i, j, t, p)
    requires ReadUpwards(states, i, j, p, walk, times) && k < |walk|
    ensures Ancestor(LinksOf(states[i].disk), p, k) == Some(walk[k])
    decreases k
  {
    if k == 0 {
      OrderlyRunKeepsLinks(states, actions, i);
    } else {
      var at := times[k - 1];
      ReadsAreAncestors(states, actions, i, j, t, p, walk, times, k - 1);
      AncestorsStable(states, actions, i, at, t, p, k - 1);
      AncestorsStable(states, actions, i, at, t, p, k);
      AncestorOneMore(LinksOf(states[at].disk), p, k - 1, walk[k - 1]);
      OrderlyRunKeepsLinks(states, actions, at);
    }
  }

  /** The loop ends: there are no more reads than the rank of the parent. */
  lemma ReadsAreBounded(
    states: seq<State>, actions: seq<Action>, i: nat, j: nat, t: Tid, p: Handle, walk: seq<Handle>, times: seq<nat>)
    requires OrderlyRun(states, actions) && i <= j < |states| && InFlightThrough(states, i, j, t, p)
    requires ReadUpwards(states, i, j, p, walk, times)
    ensures WellFounded(LinksOf(states[i].disk)) && p in LinksOf(states[i].disk)
    ensures |times| <= Rank(LinksOf(states[i].disk), p)
  {
    ParentForest(states, actions, i);
    OrderlyRunKeepsLinks(states, actions, i);
    ReadsAreAncestors(states, actions, i, j, t, p, walk, times, |times|);
    AncestorRank(LinksOf(states[i].disk), p, |times|);
  }

  /** And it ends at the root: the volume whose link is found missing is the root of the chain
      as it was when the reading began, and as it is all along. */
  lemma ReadsEndAtRoot(
    states: seq<State>, actions: seq<Action>, i: nat, j: nat, t: Tid, p: Handle,
    walk: seq<Handle>, times: seq<nat>, last: nat, k: nat)
    requires OrderlyRun(states, actions) && i <= j < |states| && InFlightThrough(states, i, j, t, p)
    requires ReadUpwards(states, i, j, p, walk, times) && i <= last <= j && i <= k <= j
    requires var l := LinksOf(states[last].disk); walk[|times|] in l && l[walk[|times|]].None?
    ensures var l := LinksOf(states[k].disk); WellFounded(l) && p in l && Root(l, p) == walk[|times|]
  {
    var n, x := |times|, walk[|times|];
    ReadsAreAncestors(states, actions, i, j, t, p, walk, times, n);
    NoMoreAncestors(states, actions, i, last, t, p, n, x);
    AncestorsStable(states, actions, i, k, t, p, n);
    AncestorsStable(states, actions, i, k, t, p, n + 1);
    ParentForest(states, actions, k);
    OrderlyRunKeepsLinks(states, actions, k);
    TopIsRoot(LinksOf(states[k].disk), p, n, x);
  }

  lemma NoMoreAncestors(
    states: seq<State>, actions: seq<Action>, i: nat, last: nat, t: Tid, p: Handle, n: nat, x: Handle)
    requires OrderlyRun(states, actions) && i <= last < |states| && InFlightThrough(states, i, last, t, p)
    requires Ancestor(LinksOf(states[i].disk), p, n) == Some(x)
    requires var l := LinksOf(states[last].disk); x in l && l[x].None?
    ensures Ancestor(LinksOf(states[i].disk), p, n + 1) == None
  {
    AncestorsStable(states, actions, i, last, t, p, n);
    AncestorsStable(states, actions, i, last, t, p, n + 1);
    AncestorOneMore(LinksOf(states[last].disk), p, n, x);
  }

  lemma TopIsRoot(l: Links, p: Handle, n: nat, x: Handle)
    requires WellFounded(l) && p in l && Ancestor(l, p, n) == Some(x) && Ancestor(l, p, n + 1) == None
    ensures x == Root(l, p)
  {
    AncestorOneMore(l, p, n, x);
    var m := RootIsTheOnlyTop(l, p);
    if l[x].Some? { ClosedLink(l, x); }
  }

  lemma ClosedLink(l: Links, x: Handle)
    requires WellFounded(l) && x in l && l[x].Some?
    ensures l[x].value in l
  {
    var rank :| RankedBy(l, rank);
  }
}
