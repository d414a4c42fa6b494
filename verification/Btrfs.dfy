/** Destroying a btrfs volume: subvolumes are found by a preorder walk and deleted in reverse.

    btrfs refuses to delete a subvolume while another one remains inside it. */
module Btrfs {
  import opened Wrappers

  type Path = seq<string>

  /** A file or directory under its name; only directories can be subvolumes or have entries. */
  datatype Node = Node(name: string, dir: bool, sub: bool, entries: seq<Node>)

  /** Names are unique within a directory, and only directories have what directories have. */
  predicate WellFormed(n: Node) {
    && (!n.dir ==> !n.sub && n.entries == [])
    && (forall i, j | 0 <= i < j < |n.entries| :: n.entries[i].name != n.entries[j].name)
    && (forall e <- n.entries :: WellFormed(e))
  }

  predicate Inside(inner: Path, outer: Path) {
    outer < inner
  }

  function EntryNamed(es: seq<Node>, name: string): (r: Option<Node>)
    ensures r.Some? ==> r.value in es && r.value.name == name
    ensures r.None? ==> forall e <- es :: e.name != name
  {
    if es == [] then None else if es[0].name == name then Some(es[0]) else EntryNamed(es[1..], name)
  }

  /** What is at a path below a node: the names are followed down the entries. */
  function NodeAt(n: Node, path: Path): Option<Node>
    decreases |path|
  {
    if path == [] then Some(n)
    else
      match EntryNamed(n.entries, path[0])
      case None => None
      case Some(e) => NodeAt(e, path[1..])
  }

  predicate SubvolumeAt(n: Node, path: Path) {
    var m := NodeAt(n, path);
    m.Some? && m.value.dir && m.value.sub
  }

  /** The subvolumes of a tree in the order of filepath.Walk: a directory before its entries. */
  function Found(n: Node, at: Path): seq<Path>
    decreases n, 1
  {
    (if n.dir && n.sub then [at] else []) + FoundIn(n.entries, at)
  }

  function FoundIn(es: seq<Node>, at: Path): seq<Path>
    decreases es, 0
  {
    if es == [] then [] else Found(es[0], at + [es[0].name]) + FoundIn(es[1..], at)
  }

  /** Each path that lies inside another comes after it. */
  ghost predicate OuterFirst(ps: seq<Path>) {
    && (forall i, j | 0 <= i < j < |ps| :: ps[i] != ps[j])
    && (forall i, j | 0 <= i < |ps| && 0 <= j < |ps| && Inside(ps[j], ps[i]) :: i < j)
  }

  lemma {:induction false} FoundBelow(n: Node, at: Path, p: Path)
    requires p in Found(n, at)
    ensures at <= p
    decreases n, 1
  {
    if p in FoundIn(n.entries, at) { FoundInBelow(n.entries, at, p); }
  }

  lemma {:induction false} FoundInBelow(es: seq<Node>, at: Path, p: Path)
    requires p in FoundIn(es, at)
    ensures at < p && exists e :: e in es && at + [e.name] <= p
    decreases es, 0
  {
    if p in Found(es[0], at + [es[0].name]) {
      FoundBelow(es[0], at + [es[0].name], p);
    } else {
      FoundInBelow(es[1..], at, p);
    }
  }

  /** The walk finds exactly the subvolumes of the tree, at any depth. */
  lemma {:induction false} WalkFindsAll(n: Node, at: Path, p: Path)
    requires WellFormed(n)
    ensures p in Found(n, at) <==> at <= p && SubvolumeAt(n, p[|at|..])
    decreases n, 1
  {
    EntriesFindAll(n.entries, at, p);
    if p in FoundIn(n.entries, at) { FoundInBelow(n.entries, at, p); }
    if p == at {
      assert p[|at|..] == [];
    } else if at <= p {
      assert p[|at|..][0] == p[|at|] && p[|at|..][1..] == p[|at| + 1..];
    }
  }

  lemma {:induction false} EntriesFindAll(es: seq<Node>, at: Path, p: Path)
    requires forall i, j | 0 <= i < j < |es| :: es[i].name != es[j].name
    requires forall e <- es :: WellFormed(e)
    ensures p in FoundIn(es, at) <==>
      at < p && var e := EntryNamed(es, p[|at|]); e.Some? && SubvolumeAt(e.value, p[|at| + 1..])
    decreases es, 0
  {
    if es != [] {
      var first := at + [es[0].name];
      WalkFindsAll(es[0], first, p);
      EntriesFindAll(es[1..], at, p);
      FirstBranch(at, es[0].name, p);
      if first <= p && at < p {
        assert EntryNamed(es, p[|at|]) == Some(es[0]);
        assert forall e <- es[1..] :: e.name != es[0].name;
      }
    }
  }

  lemma FirstBranch(at: Path, name: string, p: Path)
    ensures at + [name] <= p <==> at < p && p[|at|] == name
  {
    if at < p && p[|at|] == name { assert p[..|at| + 1] == at + [name]; }
    if at + [name] <= p { assert p[|at|] == (at + [name])[|at|]; }
  }

  /** On a disk that has the subvolumes of the tree, the walk finds those on the disk. */
  lemma FoundOnDisk(subvolumes: set<Path>, root: Node, at: Path, paths: seq<Path>)
    requires WellFormed(root) && paths == Found(root, at)
    requires forall p | at <= p :: p in subvolumes <==> SubvolumeAt(root, p[|at|..])
    ensures forall p :: p in subvolumes && at <= p <==> p in paths
  {
    forall p ensures p in subvolumes && at <= p <==> p in paths { WalkFindsAll(root, at, p); }
  }

  lemma DifferentBranches(at: Path, a: string, b: string, p: Path, q: Path)
    requires a != b && at + [a] <= p && at + [b] <= q
    ensures p != q && !Inside(p, q) && !Inside(q, p)
  {
    assert p[|at|] == a && q[|at|] == b;
  }

  lemma OuterFirstConcat(ps: seq<Path>, qs: seq<Path>)
    requires OuterFirst(ps) && OuterFirst(qs)
    requires forall p, q | p in ps && q in qs :: p != q && !Inside(p, q)
    ensures OuterFirst(ps + qs)
  {
    var all := ps + qs;
    forall i, j | 0 <= i < |all| && 0 <= j < |all| && Inside(all[j], all[i])
      ensures i < j
    {
      assert i >= |ps| ==> all[i] in qs;
      assert j < |ps| ==> all[j] in ps;
    }
    forall i, j | 0 <= i < j < |all|
      ensures all[i] != all[j]
    {
      if i < |ps| <= j { assert all[i] in ps && all[j] in qs; }
    }
  }

  /** The walk finds outer subvolumes before those inside them. */
  lemma {:induction false} WalkIsOuterFirst(n: Node, at: Path)
    requires WellFormed(n)
    ensures OuterFirst(Found(n, at))
    decreases n, 1
  {
    EntriesOuterFirst(n.entries, at);
    var mine: seq<Path> := if n.dir && n.sub then [at] else [];
    forall p, q | p in mine && q in FoundIn(n.entries, at)
      ensures p != q && !Inside(p, q)
    {
      FoundInBelow(n.entries, at, q);
    }
    OuterFirstConcat(mine, FoundIn(n.entries, at));
  }

  lemma {:induction false} EntriesOuterFirst(es: seq<Node>, at: Path)
    requires forall i, j | 0 <= i < j < |es| :: es[i].name != es[j].name
    requires forall e <- es :: WellFormed(e)
    ensures OuterFirst(FoundIn(es, at))
    decreases es, 0
  {
    if es != [] {
      var first := at + [es[0].name];
      WalkIsOuterFirst(es[0], first);
      EntriesOuterFirst(es[1..], at);
      forall p, q | p in Found(es[0], first) && q in FoundIn(es[1..], at)
        ensures p != q && !Inside(p, q)
      {
        FoundBelow(es[0], first, p);
        FoundInBelow(es[1..], at, q);
        var e :| e in es[1..] && at + [e.name] <= q;
        DifferentBranches(at, es[0].name, e.name, p, q);
      }
      OuterFirstConcat(Found(es[0], first), FoundIn(es[1..], at));
    }
  }

  /** Once all later paths are deleted, the next one is there and has nothing inside it. */
  lemma NothingInsideRemains(paths: seq<Path>, i: nat, now: set<Path>, start: set<Path>, at: Path)
    requires OuterFirst(paths) && i < |paths| && (forall p <- paths :: at <= p)
    requires forall p :: p in start && at <= p <==> p in paths
    requires forall p :: p in now <==> p in start && p !in paths[i + 1..]
    ensures paths[i] in now && forall q <- now :: !Inside(q, paths[i])
  {
    forall k | i < k < |paths|
      ensures paths[k] !in now
    {
      assert paths[i + 1..][k - (i + 1)] == paths[k];
    }
  }

  /** The subvolumes on disk.  `broken` is the set of paths whose deletion fails for reasons of
      its own. */
  class BtrfsDriver {
    var subvolumes: set<Path>
    const broken: set<Path>

    constructor (subvolumes: set<Path>, broken: set<Path>)
      ensures this.subvolumes == subvolumes && this.broken == broken
    {
      this.subvolumes, this.broken := subvolumes, broken;
    }

    /** The walk over a directory: the callback appends each subvolume it meets. */
    method FindSubvolumes(n: Node, at: Path, before: seq<Path>) returns (paths: seq<Path>)
      ensures paths == before + Found(n, at)
      decreases n, 1
    {
      paths := before;
      if n.dir && n.sub {
        paths := paths + [at];
      }
      paths := FindInEntries(n.entries, at, paths);
    }

    method FindInEntries(es: seq<Node>, at: Path, before: seq<Path>) returns (paths: seq<Path>)
      ensures paths == before + FoundIn(es, at)
      decreases es, 0
    {
      paths := before;
      if es != [] {
        paths := FindSubvolumes(es[0], at + [es[0].name], paths);
        paths := FindInEntries(es[1..], at, paths);
        assert paths == before + (Found(es[0], at + [es[0].name]) + FoundIn(es[1..], at));
      }
    }

    /** `btrfs subvolume delete`. */
    method Delete(p: Path) returns (ok: bool)
      modifies this
      ensures ok <==> p in old(subvolumes) && p !in broken && forall q <- old(subvolumes) :: !Inside(q, p)
      ensures subvolumes == if ok then old(subvolumes) - {p} else old(subvolumes)
    {
      ok := p in subvolumes && p !in broken && forall q <- subvolumes :: !Inside(q, p);
      if ok { subvolumes := subvolumes - {p}; }
    }

    /** The last subvolume of the walk that cannot be deleted is where the deletion stopped. */
    ghost predicate StoppedAtBroken(before: set<Path>, after: set<Path>, paths: seq<Path>) {
      exists i :: StoppedAt(before, after, paths, i)
    }

    ghost predicate StoppedAt(before: set<Path>, after: set<Path>, paths: seq<Path>, i: int) {
      && 0 <= i < |paths| && paths[i] in broken
      && (forall p <- paths[i + 1..] :: p !in broken)
      && forall p :: p in after <==> p in before && p !in paths[i + 1..]
    }

    /** On a disk whose subvolumes under the volume are those of its tree, nesting never makes a
        deletion fail: the call succeeds unless a deletion breaks for reasons of its own, and
        then every subvolume of the volume is gone and all others stay. */
    method DestroyVolume(root: Node, at: Path) returns (ok: bool)
      requires WellFormed(root)
      requires forall p | at <= p :: p in subvolumes <==> SubvolumeAt(root, p[|at|..])
      modifies this
      ensures ok <==> forall p <- old(subvolumes) :: at <= p ==> p !in broken
      ensures ok ==> forall p :: p in subvolumes <==> p in old(subvolumes) && !(at <= p)
      ensures !ok ==> StoppedAtBroken(old(subvolumes), subvolumes, Found(root, at))
      ensures subvolumes <= old(subvolumes) && forall p <- old(subvolumes) :: !(at <= p) ==> p in subvolumes
    {
      var paths := FindSubvolumes(root, at, []);
      assert paths == Found(root, at);
      WalkIsOuterFirst(root, at);
      FoundOnDisk(subvolumes, root, at, paths);
      ok := DeleteBackwards(paths, at);
    }

    /** The loop over the paths found, from the last to the first. */
    method DeleteBackwards(paths: seq<Path>, ghost at: Path) returns (ok: bool)
      requires OuterFirst(paths) && forall p :: p in subvolumes && at <= p <==> p in paths
      modifies this
      ensures ok <==> forall p <- paths :: p !in broken
      ensures ok ==> forall p :: p in subvolumes <==> p in old(subvolumes) && p !in paths
      ensures !ok ==> StoppedAtBroken(old(subvolumes), subvolumes, paths)
    {
      var i := |paths|;
      while i > 0
        invariant 0 <= i <= |paths|
        invariant forall p :: p in subvolumes <==> p in old(subvolumes) && p !in paths[i..]
        invariant forall p <- paths[i..] :: p !in broken
      {
        i := i - 1;
        assert paths[i..] == [paths[i]] + paths[i + 1..];
        NothingInsideRemains(paths, i, subvolumes, old(subvolumes), at);
        var deleted := Delete(paths[i]);
        if !deleted {
          assert StoppedAt(old(subvolumes), subvolumes, paths, i);
          return false;
        }
      }
      assert paths[0..] == paths;
      ok := true;
    }
  }
}
