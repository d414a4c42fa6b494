/** Destroying a volume together with everything layered on it.

    The recursion lists the live volumes, then walks that listing while its own recursive
    calls are removing volumes from disk, so the listing goes stale under it. */
module DestroyTree {
  import opened Wrappers
  import opened Forest

  /** `x` is `h` or has `h` among its ancestors. */
  ghost predicate Under(l: Links, x: Handle, h: Handle)
    requires WellFounded(l)
    decreases if x in l then Rank(l, x) else 0
  {
    x in l && (x == h || (l[x].Some? && Under(l, l[x].value, h)))
  }

  ghost function Descendants(l: Links, h: Handle): set<Handle>
    requires WellFounded(l)
  {
    set x | x in l && Under(l, x, h)
  }

  lemma {:induction false} UnderReaches(l: Links, x: Handle, h: Handle) returns (n: nat)
    requires WellFounded(l) && Under(l, x, h)
    ensures Ancestor(l, x, n) == Some(h)
    decreases Rank(l, x)
  {
    if x == h {
      n := 0;
    } else {
      var m := UnderReaches(l, l[x].value, h);
      n := m + 1;
    }
  }

  lemma {:induction false} ReachesUnder(l: Links, x: Handle, h: Handle, n: nat)
    requires WellFounded(l) && Ancestor(l, x, n) == Some(h)
    ensures Under(l, x, h)
    decreases n
  {
    if n > 0 { ReachesUnder(l, l[x].value, h, n - 1); }
  }

  /** Under is reachability along parent links. */
  lemma UnderIsAncestry(l: Links, x: Handle, h: Handle)
    requires WellFounded(l)
    ensures Under(l, x, h) <==> exists n: nat :: Ancestor(l, x, n) == Some(h)
  {
    if Under(l, x, h) {
      var n := UnderReaches(l, x, h);
      assert Ancestor(l, x, n) == Some(h);
    }
    if n: nat :| Ancestor(l, x, n) == Some(h) { ReachesUnder(l, x, h, n); }
  }

  /** Removing whole branches does not change who is under whom among the rest. */
  ghost predicate Pruned(l: Links, l': Links) {
    forall x <- l' :: x in l && l'[x] == l[x] && (l[x].Some? ==> l[x].value in l')
  }

  lemma {:induction false} UnderPruned(l: Links, l': Links, x: Handle, h: Handle)
    requires WellFounded(l) && WellFounded(l') && Pruned(l, l') && x in l'
    ensures Under(l', x, h) <==> Under(l, x, h)
    decreases Rank(l, x)
  {
    if l[x].Some? { UnderPruned(l, l', l[x].value, h); }
  }

  lemma {:induction false} UnderRank(l: Links, x: Handle, h: Handle)
    requires WellFounded(l) && h in l && Under(l, x, h)
    ensures Rank(l, h) <= Rank(l, x)
    decreases Rank(l, x)
  {
    if x != h { UnderRank(l, l[x].value, h); }
  }

  /** A proper descendant lies under exactly one child. */
  lemma {:induction false} UnderChild(l: Links, x: Handle, h: Handle) returns (c: Handle)
    requires WellFounded(l) && h in l && Under(l, x, h) && x != h
    ensures c in l && l[c] == Some(h) && Under(l, x, c)
    decreases Rank(l, x)
  {
    if l[x] == Some(h) { c := x; } else { c := UnderChild(l, l[x].value, h); }
  }

  lemma {:induction false} UnderTransitive(l: Links, x: Handle, c: Handle, h: Handle)
    requires WellFounded(l) && c in l && Under(l, x, c) && Under(l, c, h)
    ensures Under(l, x, h)
    decreases Rank(l, x)
  {
    if x != c { UnderTransitive(l, l[x].value, c, h); }
  }

  lemma {:induction false} SiblingsApart(l: Links, x: Handle, c: Handle, c': Handle, h: Handle)
    requires WellFounded(l) && c in l && c' in l && h in l
    requires l[c] == Some(h) && l[c'] == Some(h) && Under(l, x, c) && Under(l, x, c')
    ensures c == c'
    decreases Rank(l, x)
  {
    if x == c && x != c' {
      UnderRank(l, h, c');
    } else if x == c' && x != c {
      UnderRank(l, h, c);
    } else if x != c {
      SiblingsApart(l, l[x].value, c, c', h);
    }
  }

  /** A sequence of destructions of exactly these volumes, each once and each child before
      its parent. */
  ghost predicate BottomUp(l: Links, order: seq<Handle>, all: set<Handle>) {
    && (forall x :: x in order <==> x in all)
    && (forall i, j | 0 <= i < j < |order| :: order[i] != order[j])
    && (forall i, j | 0 <= i < |order| && 0 <= j < |order| && order[i] in l && l[order[i]] == Some(order[j]) :: i < j)
  }

  /** The branches of those children of `h` that are among `cs`. */
  ghost function Branches(l: Links, cs: seq<Handle>, h: Handle): set<Handle>
    requires WellFounded(l)
  {
    set x | x in l && exists c :: c in cs && c in l && l[c] == Some(h) && Under(l, x, c)
  }

  /** No branch below `h` has `h` itself in it, and what remains without them is pruned. */
  lemma BranchesPrune(l: Links, cs: seq<Handle>, h: Handle)
    requires WellFounded(l) && h in l
    ensures h !in Branches(l, cs, h)
    ensures Pruned(l, l - Branches(l, cs, h)) && WellFounded(l - Branches(l, cs, h))
  {
    var gone := Branches(l, cs, h);
    if h in gone {
      var c :| c in cs && c in l && l[c] == Some(h) && Under(l, h, c);
      UnderRank(l, h, c);
    }
    forall x | x in l - gone && l[x].Some?
      ensures l[x].value in l - gone
    {
      assert forall c | c in l :: Under(l, l[x].value, c) ==> Under(l, x, c);
    }
    Restrict(l, l - gone);
  }

  /** A child whose branch is still there has all of it, apart from the branches taken. */
  lemma BranchIntact(l: Links, cs: seq<Handle>, h: Handle, c: Handle)
    requires WellFounded(l) && h in l && WellFounded(l - Branches(l, cs, h))
    requires c in l - Branches(l, cs, h) && l[c] == Some(h)
    ensures Descendants(l - Branches(l, cs, h), c) == Descendants(l, c)
    ensures Descendants(l, c) !! Branches(l, cs, h)
    ensures Branches(l, cs + [c], h) == Branches(l, cs, h) + Descendants(l, c)
    ensures h in Descendants(l, h) && h !in Descendants(l, c) && Descendants(l, c) <= Descendants(l, h)
  {
    BranchesPrune(l, cs, h);
    var gone := Branches(l, cs, h);
    forall x | x in Descendants(l, c)
      ensures x !in gone && Under(l, x, h)
    {
      if x in gone {
        var c' :| c' in cs && c' in l && l[c'] == Some(h) && Under(l, x, c');
        SiblingsApart(l, x, c, c', h);
      }
      UnderTransitive(l, x, c, h);
    }
    forall x | x in l - gone
      ensures Under(l - gone, x, c) <==> Under(l, x, c)
    {
      UnderPruned(l, l - gone, x, c);
    }
    if Under(l, h, c) { UnderRank(l, h, c); }
  }

  /** A candidate that is not a remaining child of `h` adds no branch. */
  lemma NoBranch(l: Links, cs: seq<Handle>, h: Handle, c: Handle)
    requires WellFounded(l) && h in l
    requires c in l && l[c] == Some(h) ==> c in Branches(l, cs, h)
    ensures Branches(l, cs + [c], h) == Branches(l, cs, h)
  {
    if c in l && l[c] == Some(h) {
      var c' :| c' in cs && c' in l && l[c'] == Some(h) && Under(l, c, c');
      assert Under(l, c, c);
      SiblingsApart(l, c, c, c', h);
    }
  }

  lemma AllBranches(l: Links, cs: seq<Handle>, h: Handle)
    requires WellFounded(l) && h in l && forall c :: c in cs <==> c in l
    ensures Descendants(l, h) == Branches(l, cs, h) + {h}
  {
    forall x | x in Descendants(l, h) && x != h
      ensures x in Branches(l, cs, h)
    {
      var c := UnderChild(l, x, h);
      assert c in cs;
    }
    forall x | x in Branches(l, cs, h)
      ensures Under(l, x, h)
    {
      var c :| c in cs && c in l && l[c] == Some(h) && Under(l, x, c);
      UnderTransitive(l, x, c, h);
    }
  }

  /** Bottom-up orders of unrelated sets can follow each other. */
  lemma BottomUpConcat(l: Links, l': Links, a: seq<Handle>, b: seq<Handle>, sa: set<Handle>, sb: set<Handle>)
    requires BottomUp(l, a, sa) && BottomUp(l', b, sb) && sa !! sb
    requires forall x <- sb :: x in l && x in l' && l'[x] == l[x]
    requires forall x | x in sb && x in l && l[x].Some? :: l[x].value !in sa
    ensures BottomUp(l, a + b, sa + sb)
  {
    var ab := a + b;
    forall i, j | 0 <= i < j < |ab|
      ensures ab[i] != ab[j]
    {
      assert i < |a| ==> ab[i] in sa;
      assert j >= |a| ==> ab[j] in sb;
    }
    forall i, j | 0 <= i < |ab| && 0 <= j < |ab| && ab[i] in l && l[ab[i]] == Some(ab[j])
      ensures i < j
    {
      if i >= |a| { assert ab[i] in sb; }
      if j < |a| { assert ab[j] in sa; }
    }
  }

  /** No volume of a branch has its parent in another branch. */
  lemma BranchesUnrelated(l: Links, cs: seq<Handle>, h: Handle, c: Handle, x: Handle)
    requires WellFounded(l) && h in l && c in l && l[c] == Some(h) && c !in Branches(l, cs, h)
    requires x in Descendants(l, c) && l[x].Some?
    ensures l[x].value !in Branches(l, cs, h)
  {
    if l[x].value in Branches(l, cs, h) {
      var c' :| c' in cs && c' in l && l[c'] == Some(h) && Under(l, l[x].value, c');
      assert Under(l, x, c');
      SiblingsApart(l, x, c, c', h);
    }
  }

  /** From `l` and `log`, the volume `h` and its descendants were destroyed, children first. */
  ghost predicate TookAll(l: Links, log: seq<Handle>, h: Handle, l': Links, log': seq<Handle>)
    requires WellFounded(l)
  {
    l' == l - Descendants(l, h) && log <= log' && BottomUp(l, log'[|log|..], Descendants(l, h))
  }

  /** From `l` and `log`, the branches of those children of `h` that are in `cs` were. */
  ghost predicate TookBranches(l: Links, log: seq<Handle>, cs: seq<Handle>, h: Handle, l': Links, log': seq<Handle>)
    requires WellFounded(l)
  {
    l' == l - Branches(l, cs, h) && log <= log' && BottomUp(l, log'[|log|..], Branches(l, cs, h))
  }

  lemma Remove(l: Links, a: set<Handle>, b: set<Handle>)
    ensures l - a - b == l - (a + b)
  {}

  lemma LogConcat(log: seq<Handle>, log1: seq<Handle>, log2: seq<Handle>)
    requires log <= log1 <= log2
    ensures log <= log2 && log2[|log|..] == log1[|log|..] + log2[|log1|..]
  {}

  lemma ParentNotBelow(l: Links, cs: seq<Handle>, h: Handle)
    requires WellFounded(l) && h in l && l[h].Some?
    ensures l[h].value !in Branches(l, cs, h)
  {
    if l[h].value in Branches(l, cs, h) {
      var c :| c in cs && c in l && l[c] == Some(h) && Under(l, l[h].value, c);
      UnderRank(l, l[h].value, c);
    }
  }

  lemma TookNothing(l: Links, log: seq<Handle>, h: Handle)
    requires WellFounded(l)
    ensures TookBranches(l, log, [], h, l, log)
  {
    assert Branches(l, [], h) == {} && l - {} == l && log[|log|..] == [];
  }

  lemma TookOneMore(l: Links, log: seq<Handle>, cs: seq<Handle>, h: Handle, c: Handle,
                    l1: Links, log1: seq<Handle>, l2: Links, log2: seq<Handle>)
    requires WellFounded(l) && WellFounded(l1) && h in l && TookBranches(l, log, cs, h, l1, log1)
    requires c in l1 && l1[c] == Some(h) && TookAll(l1, log1, c, l2, log2)
    ensures TookBranches(l, log, cs + [c], h, l2, log2)
  {
    BranchIntact(l, cs, h, c);
    var gone, more := Branches(l, cs, h), Descendants(l, c);
    forall x | x in more && l[x].Some? ensures l[x].value !in gone { BranchesUnrelated(l, cs, h, c, x); }
    Remove(l, gone, more);
    LogConcat(log, log1, log2);
    BottomUpConcat(l, l1, log1[|log|..], log2[|log1|..], gone, more);
  }

  lemma TookTheRest(l: Links, log: seq<Handle>, cs: seq<Handle>, h: Handle, l1: Links, log1: seq<Handle>)
    requires WellFounded(l) && h in l && (forall c :: c in cs <==> c in l) && TookBranches(l, log, cs, h, l1, log1)
    ensures h in l1 && TookAll(l, log, h, l1 - {h}, log1 + [h])
  {
    AllBranches(l, cs, h);
    BranchesPrune(l, cs, h);
    var gone := Branches(l, cs, h);
    Remove(l, gone, {h});
    LogConcat(log, log1, log1 + [h]);
    if l[h].Some? { ParentNotBelow(l, cs, h); }
    assert BottomUp(l, [h], {h});
    BottomUpConcat(l, l, log1[|log|..], [h], gone, {h});
  }

  lemma BranchSmaller(l: Links, cs: seq<Handle>, h: Handle, c: Handle)
    requires WellFounded(l) && h in l && WellFounded(l - Branches(l, cs, h))
    requires c in l - Branches(l, cs, h) && l[c] == Some(h)
    ensures |Descendants(l - Branches(l, cs, h), c)| < |Descendants(l, h)|
  {
    BranchIntact(l, cs, h, c);
    var all, some := Descendants(l, h), Descendants(l, c);
    assert all == some + (all - some) && h in all - some;
  }

  datatype Outcome = Done | DoesNotExist

  /** The live volumes on disk.  `log` records the destructions in order. */
  class Repository {
    var live: Links
    ghost var log: seq<Handle>

    constructor (live: Links)
      ensures this.live == live && log == []
    {
      this.live := live;
      log := [];
    }

    method ListVolumes() returns (vols: seq<Handle>)
      ensures forall h :: h in vols <==> h in live
    {
      vols := [];
      var todo := live.Keys;
      while todo != {}
        invariant todo <= live.Keys
        invariant forall h :: h in vols <==> h in live && h !in todo
      {
        var h :| h in todo;
        vols := vols + [h];
        todo := todo - {h};
      }
    }

    /** The link is read from disk now: a volume that is gone, or whose parent is, has none. */
    method Parent(h: Handle) returns (parent: Option<Handle>)
      ensures parent == if h in live && live[h].Some? && live[h].value in live then live[h] else None
    {
      if h in live && live[h].Some? && live[h].value in live {
        return live[h];
      }
      return None;
    }

    method DestroyVolume(h: Handle) returns (r: Outcome)
      modifies this
      ensures h in old(live) ==> r.Done? && live == old(live) - {h} && log == old(log) + [h]
      ensures h !in old(live) ==> r.DoesNotExist? && live == old(live) && log == old(log)
    {
      if h !in live {
        return DoesNotExist;
      }
      live := live - {h};
      log := log + [h];
      return Done;
    }

    /** Exactly the volume and its descendants go, children first; everything else stays, and
        the stale listing never makes it fail. */
    method DestroyVolumeAndDescendants(h: Handle) returns (r: Outcome)
      requires WellFounded(live)
      modifies this
      ensures h !in old(live) ==> r.DoesNotExist? && live == old(live) && log == old(log)
      ensures h in old(live) ==> r.Done? && TookAll(old(live), old(log), h, live, log)
      decreases |Descendants(live, h)|
    {
      var allVolumes := ListVolumes();
      if h !in allVolumes {
        return DoesNotExist;
      }
      TookNothing(live, log, h);
      for i := 0 to |allVolumes|
        invariant TookBranches(old(live), old(log), allVolumes[..i], h, live, log)
      {
        ghost var seen := allVolumes[..i];
        assert allVolumes[..i + 1] == seen + [allVolumes[i]];
        BranchesPrune(old(live), seen, h);
        var parent := Parent(allVolumes[i]);
        if parent == Some(h) {
          ghost var live1, log1 := live, log;
          BranchSmaller(old(live), seen, h, allVolumes[i]);
          r := DestroyVolumeAndDescendants(allVolumes[i]);
          TookOneMore(old(live), old(log), seen, h, allVolumes[i], live1, log1, live, log);
        } else {
          NoBranch(old(live), seen, h, allVolumes[i]);
        }
      }
      assert allVolumes[..|allVolumes|] == allVolumes;
      TookTheRest(old(live), old(log), allVolumes, h, live, log);
      r := DestroyVolume(h);
    }
  }
}
