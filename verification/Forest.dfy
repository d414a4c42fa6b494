/** Parent links between volumes.

    A link names its parent by handle, so nothing in the data itself rules out a cycle.  The
    links are well-founded when the volumes can be ranked with every parent below its
    child; module Lifecycle shows that this holds of every reachable disk. */
module Forest {
  import opened Wrappers

  /** The live volumes, each with its parent link if it has one. */
  type Links = map<Handle, Option<Handle>>

  ghost predicate RankedBy(l: Links, rank: map<Handle, nat>) {
    forall h <- l :: h in rank &&
      (l[h].Some? ==> l[h].value in l && l[h].value in rank && rank[l[h].value] < rank[h])
  }

  ghost predicate WellFounded(l: Links) {
    exists rank :: RankedBy(l, rank)
  }

  ghost function Rank(l: Links, h: Handle): nat
    requires WellFounded(l) && h in l
  {
    var rank :| RankedBy(l, rank);
    rank[h]
  }

  /** The n-th ancestor, if the chain is that long. */
  ghost function Ancestor(l: Links, h: Handle, n: nat): Option<Handle>
    decreases n
  {
    if h !in l then None
    else if n == 0 then Some(h)
    else if l[h].None? then None
    else Ancestor(l, l[h].value, n - 1)
  }

  /** The volume at the end of the chain of parents. */
  ghost function Root(l: Links, h: Handle): Handle
    requires WellFounded(l) && h in l
    decreases Rank(l, h)
  {
    if l[h].None? then h else Root(l, l[h].value)
  }

  lemma {:induction false} AncestorRank(l: Links, h: Handle, n: nat)
    requires WellFounded(l) && h in l && Ancestor(l, h, n).Some?
    ensures Ancestor(l, h, n).value in l
    ensures Rank(l, Ancestor(l, h, n).value) + n <= Rank(l, h)
    decreases n
  {
    if n > 0 { AncestorRank(l, l[h].value, n - 1); }
  }

  /** No volume is its own proper ancestor. */
  lemma Acyclic(l: Links, h: Handle, n: nat)
    requires WellFounded(l) && h in l && n > 0
    ensures Ancestor(l, h, n) != Some(h)
  {
    if Ancestor(l, h, n) == Some(h) { AncestorRank(l, h, n); }
  }

  /** The root is an ancestor without a parent, and the only one. */
  lemma {:induction false} RootIsTheOnlyTop(l: Links, h: Handle) returns (n: nat)
    requires WellFounded(l) && h in l
    ensures Ancestor(l, h, n) == Some(Root(l, h)) && Root(l, h) in l && l[Root(l, h)].None?
    ensures forall m: nat, x | Ancestor(l, h, m) == Some(x) && x in l && l[x].None? :: m == n && x == Root(l, h)
    decreases Rank(l, h)
  {
    if l[h].None? {
      n := 0;
    } else {
      var m := RootIsTheOnlyTop(l, l[h].value);
      n := m + 1;
    }
  }

  /** A root depends only on the links along its chain: it is the same in any larger links. */
  lemma {:induction false} RootFrame(l: Links, l': Links, h: Handle)
    requires WellFounded(l) && WellFounded(l') && h in l
    requires forall x <- l :: x in l' && l'[x] == l[x]
    ensures Root(l', h) == Root(l, h)
    decreases Rank(l, h)
  {
    if l[h].Some? { RootFrame(l, l', l[h].value); }
  }

  lemma RootInLinks(l: Links, h: Handle)
    requires WellFounded(l) && h in l
    ensures Root(l, h) in l && l[Root(l, h)].None?
  {
    var _ := RootIsTheOnlyTop(l, h);
  }

  /** Adding a volume that nothing links to yet keeps the links well-founded. */
  lemma AddLeaf(l: Links, h: Handle, parent: Option<Handle>)
    requires WellFounded(l) && h !in l && (parent.Some? ==> parent.value in l)
    ensures WellFounded(l[h := parent])
  {
    var rank :| RankedBy(l, rank);
    var rank' := rank[h := if parent.Some? then rank[parent.value] + 1 else 0];
    assert RankedBy(l[h := parent], rank');
  }

  /** Removing volumes keeps the links well-founded if the parents of those kept are kept. */
  lemma Restrict(l: Links, l': Links)
    requires WellFounded(l)
    requires forall h <- l' :: h in l && l'[h] == l[h] && (l[h].Some? ==> l[h].value in l')
    ensures WellFounded(l')
  {
    var rank :| RankedBy(l, rank);
    assert RankedBy(l', rank);
  }

  ghost predicate HasChild(l: Links, h: Handle) {
    exists c :: c in l && l[c] == Some(h)
  }

  /** Only a volume with children is the root of others. */
  lemma {:induction false} RootHasChild(l: Links, h: Handle)
    requires WellFounded(l) && h in l && l[h].Some?
    ensures HasChild(l, Root(l, h))
    decreases Rank(l, h)
  {
    var p := l[h].value;
    if l[p].Some? { RootHasChild(l, p); } else { assert Root(l, p) == p; }
  }
}
