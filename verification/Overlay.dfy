/** The overlay driver and the naive driver.

    The naive driver copies a parent's whole tree into its child.  The overlay driver mounts
    one private layer over the root of the ancestor chain, after copying the parent's layer
    when the parent is itself layered.  Files are kept as maps from path to node; a mount
    remembers what was mounted under it at the time, as the kernel does. */
module Overlay {
  import opened Wrappers
  import opened Forest

  type Path = string

  /** A file with its owner; what else it holds does not matter here. */
  datatype Node = Node(uid: int, gid: int, body: string)

  type Tree = map<Path, Node>

  /** What a layer directory has at a path: a file, or the mark of a deleted lower file. */
  datatype Slot = File(node: Node) | Whiteout
  type Layer = map<Path, Slot>
  type Layers = map<Handle, Layer>

  /** What is mounted on a data directory: nothing, a layer directory alone, or a layer
      directory over what was mounted at the lower directory. */
  datatype Mount = Bare | Bind(layer: Handle) | Stacked(lower: Mount, upper: Handle)

  /** The data directory of a volume, which goes from place to place with what is mounted on it. */
  datatype Place = AtInit | AtLive | AtDead
  datatype Spot = Spot(place: Place, handle: Handle)
  type Mounts = map<Spot, Mount>

  function LayerAt(layers: Layers, h: Handle): Layer {
    if h in layers then layers[h] else map[]
  }

  function Seen(lower: Tree, upper: Layer, p: Path): Option<Node> {
    if p in upper then (if upper[p].File? then Some(upper[p].node) else None)
    else if p in lower then Some(lower[p])
    else None
  }

  function Merge(lower: Tree, upper: Layer): Tree {
    map p | p in lower.Keys + upper.Keys && Seen(lower, upper, p).Some? :: Seen(lower, upper, p).value
  }

  /** The visible contents of a mount. */
  function Show(layers: Layers, m: Mount): Tree {
    match m
    case Bare => map[]
    case Bind(h) => Merge(map[], LayerAt(layers, h))
    case Stacked(lower, h) => Merge(Show(layers, lower), LayerAt(layers, h))
  }

  function MountAt(mounts: Mounts, v: Spot): Mount {
    if v in mounts then mounts[v] else Bare
  }

  function LiveMount(mounts: Mounts, h: Handle): Mount {
    MountAt(mounts, Spot(AtLive, h))
  }

  /** The mounts after a data directory has been renamed to a place that is free. */
  function Moved(mounts: Mounts, from: Spot, to: Spot): Mounts {
    if from in mounts then (mounts - {from})[to := mounts[from]] else mounts
  }

  /** `mkdir -p` of a layer directory. */
  function MkdirAll(layers: Layers, h: Handle): Layers {
    layers[h := LayerAt(layers, h)]
  }

  /** `cp -a parent/. child`: merge the parent's layer into the child's, overwriting. */
  function CopyLayer(layers: Layers, parent: Handle, child: Handle): Layers {
    layers[child := LayerAt(layers, child) + LayerAt(layers, parent)]
  }

  /** The layers once findRootParent has run: only a layered parent has its layer copied. */
  function InheritLayer(l: Links, layers: Layers, child: Handle, parent: Handle): Layers {
    if parent in l && l[parent].Some? then CopyLayer(layers, parent, child) else layers
  }

  /** What a child's layer inherits from its parent. */
  function Inherits(l: Links, layers: Layers, parent: Handle): Layer {
    if parent in l && l[parent].Some? then LayerAt(layers, parent) else map[]
  }

  /** A copy of `whole` into a layer that stopped after some part of it. */
  ghost predicate CopiedPart(layers: Layers, layers': Layers, h: Handle, whole: Layer, part: Layer) {
    && OnlyLayer(layers, layers', h)
    && (forall p <- part :: p in whole && part[p] == whole[p])
    && LayerAt(layers', h) == LayerAt(layers, h) + part
  }

  /** No layer but the given one differs. */
  ghost predicate OnlyLayer(layers: Layers, layers': Layers, h: Handle) {
    layers' - {h} == layers - {h}
  }

  /** The mount a volume has from its creation: its layer, over its root's unless it is one. */
  ghost function HomeMount(l: Links, h: Handle): Mount
    requires WellFounded(l) && h in l
  {
    if l[h].None? then Bind(h) else Stacked(Bind(Root(l, h)), h)
  }

  /******* Recovery *******/

  /** A listing of the live volumes, in any order. */
  ghost predicate Lists(vols: seq<Handle>, l: Links) {
    && (forall h :: h in vols <==> h in l)
    && (forall i, j | 0 <= i < j < |vols| :: vols[i] != vols[j])
  }

  function RootsOf(l: Links, vols: seq<Handle>): seq<Handle> {
    if vols == [] then []
    else
      var h := vols[|vols| - 1];
      RootsOf(l, vols[..|vols| - 1]) + if h in l && l[h].None? then [h] else []
  }

  function CowsOf(l: Links, vols: seq<Handle>): seq<Handle> {
    if vols == [] then []
    else
      var h := vols[|vols| - 1];
      CowsOf(l, vols[..|vols| - 1]) + if h in l && l[h].Some? then [h] else []
  }

  /** The layers after recovering the volumes of a list one by one. */
  function Recovered(l: Links, layers: Layers, order: seq<Handle>): Layers {
    if order == [] then layers
    else
      var h := order[|order| - 1];
      var before := Recovered(l, layers, order[..|order| - 1]);
      MkdirAll(if h in l && l[h].Some? then InheritLayer(l, before, h, l[h].value) else before, h)
  }

  /** Exactly the given volumes are mounted, each as it was at its creation. */
  ghost predicate HomeMounted(l: Links, mounts: Mounts, hs: seq<Handle>)
    requires WellFounded(l)
  {
    && (forall v :: v in mounts <==> v.place.AtLive? && v.handle in hs)
    && (forall h <- hs :: h in l && LiveMount(mounts, h) == HomeMount(l, h))
  }

  lemma HomeMountedAdd(l: Links, mounts: Mounts, done: seq<Handle>, h: Handle)
    requires WellFounded(l) && h in l && HomeMounted(l, mounts, done)
    ensures HomeMounted(l, mounts[Spot(AtLive, h) := HomeMount(l, h)], done + [h])
  {}

  lemma SnocOne(s: seq<Handle>, i: nat)
    requires i < |s|
    ensures s[..i + 1] == s[..i] + [s[i]]
  {}

  lemma PrefixOf(a: seq<Handle>, b: seq<Handle>, j: nat)
    requires j <= |b|
    ensures a + b[..j] <= a + b
  {}

  lemma SnocAll(s: seq<Handle>)
    ensures s[..|s|] == s
  {}

  lemma SplitSnoc(l: Links, vols: seq<Handle>, i: nat)
    requires i < |vols| && vols[i] in l
    ensures RootsOf(l, vols[..i + 1]) == RootsOf(l, vols[..i]) + if l[vols[i]].None? then [vols[i]] else []
    ensures CowsOf(l, vols[..i + 1]) == CowsOf(l, vols[..i]) + if l[vols[i]].Some? then [vols[i]] else []
    ensures vols[..i + 1] == vols[..i] + [vols[i]]
  {
    assert vols[..i + 1][..i] == vols[..i];
  }

  lemma RecoveredSnoc(l: Links, layers: Layers, order: seq<Handle>, h: Handle)
    requires h in l
    ensures Recovered(l, layers, order + []) == Recovered(l, layers, order)
    ensures Recovered(l, layers, order + [h]) ==
      var before := Recovered(l, layers, order);
      MkdirAll(if l[h].Some? then InheritLayer(l, before, h, l[h].value) else before, h)
  {
    assert order + [] == order && (order + [h])[..|order|] == order;
  }

  /** What one round of the second loop of Recover starts from and gets to. */
  lemma RoundReady(l: Links, layers: Layers, mounts: Mounts, roots: seq<Handle>, cows: seq<Handle>, j: nat)
    requires WellFounded(l) && j < |cows| && cows[j] in l && l[cows[j]].Some?
    requires HomeMounted(l, mounts, roots + cows[..j]) && forall h :: h in roots <==> h in l && l[h].None?
    ensures LiveMount(mounts, Root(l, cows[j])) == Bind(Root(l, cows[j]))
    ensures HomeMounted(l, mounts[Spot(AtLive, cows[j]) := HomeMount(l, cows[j])], roots + cows[..j + 1])
    ensures var before := Recovered(l, layers, cows[..j]);
      Recovered(l, layers, cows[..j + 1]) == MkdirAll(InheritLayer(l, before, cows[j], l[cows[j]].value), cows[j])
  {
    SnocOne(cows, j);
    RecoveredSnoc(l, layers, cows[..j], cows[j]);
    HomeMountedAdd(l, mounts, roots + cows[..j], cows[j]);
    assert roots + cows[..j] + [cows[j]] == roots + cows[..j + 1];
    RootInLinks(l, cows[j]);
    assert Root(l, cows[j]) in roots + cows[..j];
  }

  lemma {:induction false} RecoveredConcat(l: Links, layers: Layers, a: seq<Handle>, b: seq<Handle>)
    ensures Recovered(l, layers, a + b) == Recovered(l, Recovered(l, layers, a), b)
  {
    if b == [] {
      assert a + b == a;
    } else {
      var n := |b| - 1;
      assert (a + b)[..|a| + n] == a + b[..n] && (a + b)[|a| + n] == b[n];
      RecoveredConcat(l, layers, a, b[..n]);
    }
  }

  lemma {:induction false} RootsPrefix(l: Links, vols: seq<Handle>, i: nat)
    requires i <= |vols|
    ensures RootsOf(l, vols[..i]) <= RootsOf(l, vols)
    decreases |vols|
  {
    if i < |vols| {
      var n := |vols| - 1;
      assert vols[..n][..i] == vols[..i];
      RootsPrefix(l, vols[..n], i);
    } else {
      assert vols[..i] == vols;
    }
  }

  /** The layered volumes of a listing, each once. */
  lemma {:induction false} CowsAre(l: Links, vols: seq<Handle>)
    ensures forall h :: h in CowsOf(l, vols) <==> h in vols && h in l && l[h].Some?
    ensures (forall i, j | 0 <= i < j < |vols| :: vols[i] != vols[j]) ==>
      forall i, j | 0 <= i < j < |CowsOf(l, vols)| :: CowsOf(l, vols)[i] != CowsOf(l, vols)[j]
  {
    if vols != [] {
      var n := |vols| - 1;
      CowsAre(l, vols[..n]);
      assert vols == vols[..n] + [vols[n]];
    }
  }

  /******* The drivers *******/

  lemma OwnLayerOnly(layers: Layers, h: Handle, layer: Layer)
    ensures OnlyLayer(layers, layers[h := layer], h) && OnlyLayer(layers, layers - {h}, h)
  {
    assert layers[h := layer] - {h} == layers - {h};
  }

  lemma LitterIs(d: Disk, d': Disk, h: Handle)
    requires d'.links == d.links && OnlyLayer(d.layers, d'.layers, h)
    requires SameElsewhere(d.mounts, d'.mounts, h)
    ensures d' == Littered(d, h, DebrisOf(d'.layers, d'.mounts, h))
    ensures forall x :: LiveMount(d'.mounts, x) == LiveMount(d.mounts, x)
  {
    var own, left := {Spot(AtInit, h), Spot(AtDead, h)}, DebrisOf(d'.layers, d'.mounts, h);
    WithAt(d.layers, d'.layers, h);
    assert forall v :: v in d'.mounts && v !in own <==> v in d'.mounts - own;
    assert forall v :: v in d.mounts && v !in own <==> v in d.mounts - own;
    assert forall v | v in d.mounts && v !in own :: (d.mounts - own)[v] == (d'.mounts - own)[v];
    assert Littered(d, h, left).mounts == d'.mounts;
  }

  lemma WithAt<K, V>(m: map<K, V>, m': map<K, V>, k: K)
    requires m' - {k} == m - {k}
    ensures m' == With(m, k, At(m', k))
  {
    assert forall x :: x in m' && x != k <==> x in m' - {k};
    assert forall x :: x in m && x != k <==> x in m - {k};
    assert forall x | x in m && x != k :: (m - {k})[x] == (m' - {k})[x];
  }

  /** The calls that can fail for reasons of their own, each on a handle. */
  datatype Site =
    | MakeData | MakeLayer | MountOn | ReadLink | Copy | Unmount | RemoveWork | RemoveLayer | RemoveData
    | MakeInit | Complete | RenameToLive | RenameToDead
  datatype Fault = Fault(site: Site, h: Handle)

  /** `broken` are the calls that fail. */
  class OverlayDriver {
    var layers: Layers
    var mounts: Mounts
    const broken: set<Fault>

    constructor (broken: set<Fault>)
      ensures layers == map[] && mounts == map[] && this.broken == broken
    {
      layers, mounts, this.broken := map[], map[], broken;
    }

    /** The links of a volume and all its ancestors can be read. */
    ghost predicate Readable(l: Links, h: Handle)
      requires WellFounded(l) && h in l
      decreases Rank(l, h)
    {
      Fault(ReadLink, h) !in broken && (l[h].Some? ==> Readable(l, l[h].value))
    }

    lemma AllReadable(l: Links, h: Handle)
      requires WellFounded(l) && h in l && broken == {}
      ensures Readable(l, h)
      decreases Rank(l, h)
    {
      if l[h].Some? { AllReadable(l, l[h].value); }
    }

    method BindMount(vol: Spot) returns (ok: bool)
      modifies this
      ensures ok ==> layers == MkdirAll(old(layers), vol.handle) && mounts == old(mounts)[vol := Bind(vol.handle)]
      ensures !ok ==> mounts == old(mounts)
                      && (layers == old(layers) || layers == MkdirAll(old(layers), vol.handle))
      ensures OnlyLayer(old(layers), layers, vol.handle) && old(layers).Keys <= layers.Keys
      ensures ok <==> Fault(MakeLayer, vol.handle) !in broken && Fault(MountOn, vol.handle) !in broken
    {
      OwnLayerOnly(layers, vol.handle, LayerAt(layers, vol.handle));
      if Fault(MakeLayer, vol.handle) in broken { return false; }
      layers := MkdirAll(layers, vol.handle);
      if Fault(MountOn, vol.handle) in broken { return false; }
      mounts := mounts[vol := Bind(vol.handle)];
      return true;
    }

    method OverlayMount(child: Spot, lower: Handle) returns (ok: bool)
      modifies this
      ensures ok ==> layers == MkdirAll(old(layers), child.handle)
                     && mounts == old(mounts)[child := Stacked(LiveMount(old(mounts), lower), child.handle)]
      ensures !ok ==> mounts == old(mounts)
                      && (layers == old(layers) || layers == MkdirAll(old(layers), child.handle))
      ensures OnlyLayer(old(layers), layers, child.handle) && old(layers).Keys <= layers.Keys
      ensures ok <==> Fault(MakeLayer, child.handle) !in broken && Fault(MountOn, child.handle) !in broken
    {
      OwnLayerOnly(layers, child.handle, LayerAt(layers, child.handle));
      if Fault(MakeLayer, child.handle) in broken { return false; }
      layers := MkdirAll(layers, child.handle);
      if Fault(MountOn, child.handle) in broken { return false; }
      mounts := mounts[child := Stacked(LiveMount(mounts, lower), child.handle)];
      return true;
    }

    /** The parent's layer reaches the child, and the loop ends at the root of the chain.  Any
        read of a link may fail, and a copy that fails may have done a part. */
    method FindRootParent(l: Links, child: Handle, parent: Handle)
      returns (ok: bool, rootParent: Handle, ghost part: Layer)
      requires WellFounded(l) && parent in l
      modifies this
      ensures mounts == old(mounts)
      ensures ok ==> rootParent == Root(l, parent) && layers == InheritLayer(l, old(layers), child, parent)
      ensures !ok ==> CopiedPart(old(layers), layers, child, Inherits(l, old(layers), parent), part)
      ensures OnlyLayer(old(layers), layers, child) && old(layers).Keys <= layers.Keys
      ensures ok <==>
        Readable(l, parent) && (l[parent].Some? ==> parent in old(layers) && Fault(Copy, child) !in broken)
    {
      rootParent, part := parent, map[];
      if Fault(ReadLink, parent) in broken { return false, parent, part; }
      if l[parent].None? {
        return true, parent, part;
      }
      if parent !in layers || Fault(Copy, child) in broken {
        var done: set<Path> := *;
        var copied := map p | p in LayerAt(layers, parent) && p in done :: LayerAt(layers, parent)[p];
        if * {
          OwnLayerOnly(layers, child, LayerAt(layers, child) + copied);
          layers := layers[child := LayerAt(layers, child) + copied];
          part := copied;
        }
        return false, parent, part;
      }
      part := LayerAt(layers, parent);
      OwnLayerOnly(layers, child, LayerAt(layers, child) + part);
      layers := CopyLayer(layers, parent, child);
      rootParent := l[parent].value;
      while true
        invariant rootParent in l && Root(l, rootParent) == Root(l, parent)
        invariant Readable(l, rootParent) == Readable(l, parent)
        decreases Rank(l, rootParent)
      {
        if Fault(ReadLink, rootParent) in broken { return false, parent, part; }
        if l[rootParent].None? { break; }
        rootParent := l[rootParent].value;
      }
      ok := true;
    }

    method CreateVolume(vol: Spot) returns (ok: bool)
      modifies this
      ensures ok ==> layers == MkdirAll(old(layers), vol.handle) && mounts == old(mounts)[vol := Bind(vol.handle)]
      ensures !ok ==> mounts == old(mounts)
                      && (layers == old(layers) || layers == MkdirAll(old(layers), vol.handle))
      ensures OnlyLayer(old(layers), layers, vol.handle)
      ensures ok <==> forall site <- {MakeData, MakeLayer, MountOn} :: Fault(site, vol.handle) !in broken
    {
      if Fault(MakeData, vol.handle) in broken { return false; }
      ok := BindMount(vol);
    }

    /** On failure nothing is mounted, but part of the parent's layer may be in the child's. */
    method CreateCopyOnWriteLayer(l: Links, child: Spot, parent: Handle) returns (ok: bool, ghost part: Layer)
      requires WellFounded(l) && parent in l
      modifies this
      ensures ok ==>
        && layers == MkdirAll(InheritLayer(l, old(layers), child.handle, parent), child.handle)
        && mounts == old(mounts)[child := Stacked(LiveMount(old(mounts), Root(l, parent)), child.handle)]
      ensures !ok ==>
        && mounts == old(mounts)
        && CopiedPart(old(layers), layers, child.handle, Inherits(l, old(layers), parent), part)
      ensures ok ==> part == Inherits(l, old(layers), parent)
      ensures OnlyLayer(old(layers), layers, child.handle)
      ensures ok <==>
        && (forall site <- {MakeData, MakeLayer, MountOn} :: Fault(site, child.handle) !in broken)
        && Readable(l, parent)
        && (l[parent].Some? ==> parent in old(layers) && Fault(Copy, child.handle) !in broken)
    {
      part := map[];
      if Fault(MakeData, child.handle) in broken { return false, part; }
      var found, rootParent, copied := FindRootParent(l, child.handle, parent);
      if !found { return false, copied; }
      part := Inherits(l, old(layers), parent);
      ok := OverlayMount(child, rootParent);
    }

    /** After a restart nothing is mounted.  Roots are mounted first, then the layered volumes
        in listing order, each inheriting its parent's layer once more.  `done` are the volumes
        recovered; a recovery that breaks off has touched one layer more at most. */
    method Recover(l: Links, vols: seq<Handle>) returns (ok: bool, ghost done: seq<Handle>, ghost next: Handle)
      requires WellFounded(l) && Lists(vols, l)
      requires mounts == map[]
      modifies this
      ensures HomeMounted(l, mounts, done)
      ensures ok ==> forall h :: h in done <==> h in l
      ensures ok ==> layers == Recovered(l, Recovered(l, old(layers), RootsOf(l, vols)), CowsOf(l, vols))
      ensures !ok ==> done <= RootsOf(l, vols) + CowsOf(l, vols)
                      && OnlyLayer(Recovered(l, old(layers), done), layers, next)
      ensures broken == {} && l.Keys <= old(layers).Keys ==> ok
    {
      var cows, bound;
      cows, bound, done, next := BindRoots(l, vols);
      if !bound { return false, done, next; }
      CowsAre(l, vols);
      ghost var roots, k := done, 0;
      ok, k := RecoverCows(l, cows, roots);
      done := roots + cows[..k];
      if ok {
        SnocAll(cows);
      } else {
        next := cows[k];
        RecoveredConcat(l, old(layers), roots, cows[..k]);
        PrefixOf(roots, cows, k);
      }
    }

    /** The second loop of Recover, over the layered volumes collected by the first. */
    method RecoverCows(l: Links, cows: seq<Handle>, ghost roots: seq<Handle>) returns (ok: bool, ghost k: nat)
      requires WellFounded(l) && HomeMounted(l, mounts, roots)
      requires forall h :: h in roots <==> h in l && l[h].None?
      requires forall h <- cows :: h in l && l[h].Some?
      modifies this
      ensures k <= |cows| && HomeMounted(l, mounts, roots + cows[..k])
      ensures ok ==> k == |cows| && layers == Recovered(l, old(layers), cows)
      ensures !ok ==> k < |cows| && OnlyLayer(Recovered(l, old(layers), cows[..k]), layers, cows[k])
      ensures broken == {} && l.Keys <= old(layers).Keys ==> ok
    {
      assert roots + cows[..0] == roots;
      for j := 0 to |cows|
        invariant layers == Recovered(l, old(layers), cows[..j]) && old(layers).Keys <= layers.Keys
        invariant HomeMounted(l, mounts, roots + cows[..j])
      {
        RoundReady(l, old(layers), mounts, roots, cows, j);
        var recovered := RecoverCow(l, cows[j]);
        if !recovered { return false, j; }
      }
      SnocAll(cows);
      return true, |cows|;
    }

    /** One round of the second loop of Recover. */
    method RecoverCow(l: Links, child: Handle) returns (ok: bool)
      requires WellFounded(l) && child in l && l[child].Some?
      requires LiveMount(mounts, Root(l, child)) == Bind(Root(l, child))
      modifies this
      ensures OnlyLayer(old(layers), layers, child) && old(layers).Keys <= layers.Keys
      ensures broken == {} && l.Keys <= old(layers).Keys ==> ok
      ensures ok ==> layers == MkdirAll(InheritLayer(l, old(layers), child, l[child].value), child)
      ensures mounts == if ok then old(mounts)[Spot(AtLive, child) := HomeMount(l, child)] else old(mounts)
    {
      if broken == {} { AllReadable(l, l[child].value); }
      var found, rootParent, _ := FindRootParent(l, child, l[child].value);
      if !found { return false; }
      ok := OverlayMount(Spot(AtLive, child), rootParent);
    }

    /** The first loop of Recover: mount the roots and collect the layered volumes. */
    method BindRoots(l: Links, vols: seq<Handle>)
      returns (cows: seq<Handle>, ok: bool, ghost done: seq<Handle>, ghost next: Handle)
      requires WellFounded(l) && Lists(vols, l)
      requires mounts == map[]
      modifies this
      ensures HomeMounted(l, mounts, done) && done <= RootsOf(l, vols)
      ensures ok ==>
        && cows == CowsOf(l, vols) && done == RootsOf(l, vols)
        && layers == Recovered(l, old(layers), done)
        && (forall h :: h in done <==> h in l && l[h].None?)
      ensures !ok ==> OnlyLayer(Recovered(l, old(layers), done), layers, next)
      ensures old(layers).Keys <= layers.Keys && (broken == {} ==> ok)
    {
      cows, done, next := [], [], "";
      for i := 0 to |vols|
        invariant cows == CowsOf(l, vols[..i]) && done == RootsOf(l, vols[..i])
        invariant layers == Recovered(l, old(layers), done) && old(layers).Keys <= layers.Keys
        invariant HomeMounted(l, mounts, done)
        invariant forall h :: h in done <==> h in vols[..i] && l[h].None?
      {
        RootsPrefix(l, vols, i);
        SplitSnoc(l, vols, i);
        RecoveredSnoc(l, old(layers), done, vols[i]);
        next := vols[i];
        if Fault(ReadLink, vols[i]) in broken { return cows, false, done, next; }
        if l[vols[i]].Some? {
          cows := cows + [vols[i]];
        } else {
          HomeMountedAdd(l, mounts, done, vols[i]);
          var bound := BindMount(Spot(AtLive, vols[i]));
          if !bound { return cows, false, done, next; }
          done := done + [vols[i]];
        }
      }
      SnocAll(vols);
      ok := true;
    }

    /** Unmounting something that is not mounted is an error, and nothing is removed then.  A
        removal that fails may have removed a part. */
    method DestroyVolume(vol: Spot) returns (ok: bool, ghost gone: set<Path>)
      modifies this
      ensures ok ==> vol in old(mounts) && layers == old(layers) - {vol.handle} && mounts == old(mounts) - {vol}
      ensures !ok ==> mounts == old(mounts) || mounts == old(mounts) - {vol}
      ensures OnlyLayer(old(layers), layers, vol.handle)
      ensures LayerAt(layers, vol.handle) == LayerAt(old(layers), vol.handle) - gone
      ensures ok <==>
        && vol in old(mounts)
        && (forall site <- {Unmount, RemoveWork, RemoveData} :: Fault(site, vol.handle) !in broken)
        && (vol.handle in old(layers) ==> Fault(RemoveLayer, vol.handle) !in broken)
    {
      gone := {};
      var h := vol.handle;
      if vol !in mounts || Fault(Unmount, h) in broken { return false, gone; }
      mounts := mounts - {vol};
      if Fault(RemoveWork, h) in broken { return false, gone; }
      if h in layers && Fault(RemoveLayer, h) in broken {
        var some: set<Path> := *;
        layers := layers[h := layers[h] - some];
        return false, some;
      }
      gone := LayerAt(layers, h).Keys;
      layers := layers - {h};
      ok := Fault(RemoveData, h) !in broken;
    }

    /** The driver's part of a creation, with or without a parent. */
    method Materialize(l: Links, init: Spot, parent: Option<Handle>) returns (ok: bool, ghost part: Layer)
      requires WellFounded(l) && (parent.Some? ==> parent.value in l)
      modifies this
      ensures ok ==> part == Inherited(l, old(layers), parent)
      ensures ok ==> layers == MkdirAll(InheritedBy(l, old(layers), init.handle, parent), init.handle)
      ensures ok ==> mounts == old(mounts)[init := NewMount(l, old(mounts), init.handle, parent)]
      ensures !ok ==> mounts == old(mounts)
      ensures CopiedPart(old(layers), layers, init.handle, Inherited(l, old(layers), parent), part)
      ensures broken == {} ==> (ok <==> ParentLayered(l, old(layers), parent))
    {
      if broken == {} && parent.Some? { AllReadable(l, parent.value); }
      if parent.None? {
        ok := CreateVolume(init);
        part := map[];
      } else {
        ok, part := CreateCopyOnWriteLayer(l, init, parent.value);
      }
    }

    /** The deferred destruction of a creation that fails: the rename to dead, which needs the
        name free there, and the driver's destruction. */
    method Abandon(h: Handle) returns (ghost gone: set<Path>)
      modifies this
      ensures SameElsewhere(old(mounts), mounts, h)
      ensures OnlyLayer(old(layers), layers, h) && LayerAt(layers, h) == LayerAt(old(layers), h) - gone
      ensures broken == {} && Spot(AtDead, h) !in old(mounts) && Spot(AtInit, h) in old(mounts) ==>
        mounts == old(mounts) - {Spot(AtInit, h)} && layers == old(layers) - {h}
    {
      var init, dead := Spot(AtInit, h), Spot(AtDead, h);
      if dead in mounts || Fault(RenameToDead, h) in broken { return {}; }
      mounts := Moved(mounts, init, dead);
      var _, paths := DestroyVolume(dead);
      gone := paths;
    }

    /** A whole creation as the repository carries it out: the driver's work in init, whatever
        else may fail, the rename to live, which needs the name free there, and the deferred
        destruction if that point is not reached. */
    method Create(l: Links, h: Handle, parent: Option<Handle>) returns (ok: bool, ghost end: Ending)
      requires WellFounded(l) && (parent.Some? ==> parent.value in l)
      modifies this
      ensures ok ==> h !in l
      ensures ok ==>
        Disk(l[h := parent], layers, mounts) == Step(Disk(l, old(layers), old(mounts)), Creation(h, parent))
      ensures !ok ==>
        Disk(l, layers, mounts) == Littered(Disk(l, old(layers), old(mounts)), h, DebrisOf(layers, mounts, h))
      ensures !ok ==>
        CreatedAgain(Disk(l, old(layers), old(mounts)), Disk(l, layers, mounts), h,
                     Inherited(l, old(layers), parent), end)
      ensures broken == {} ==>
        (ok <==> h !in l && Spot(AtInit, h) !in old(mounts) && ParentLayered(l, old(layers), parent))
      ensures broken == {} && h in l && Spot(AtInit, h) !in old(mounts) && Spot(AtDead, h) !in old(mounts)
              && ParentLayered(l, old(layers), parent) ==>
        mounts == old(mounts) && layers == old(layers) - {h}
    {
      ghost var was := Disk(l, old(layers), old(mounts));
      end := Stopped(map[]);
      var init := Spot(AtInit, h);
      if init in mounts || Fault(MakeInit, h) in broken {
        LitterIs(was, was, h);
        return false, end;
      }
      var made, part := Materialize(l, init, parent);
      end := Stopped(part);
      if !made {
        LitterIs(was, Disk(l, layers, mounts), h);
        return false, end;
      }
      if h !in l && Fault(Complete, h) !in broken && Fault(RenameToLive, h) !in broken {
        mounts := Moved(mounts, init, Spot(AtLive, h));
        return true, end;
      }
      var gone := Abandon(h);
      end := Removed(gone);
      LitterIs(was, Disk(l, layers, mounts), h);
      ok := false;
    }

    /** A whole destruction: the rename to dead, which needs the name free there, and the
        driver's destruction. */
    method Destroy(l: Links, h: Handle) returns (ok: bool)
      requires WellFounded(l)
      modifies this
      ensures ok ==> h in l
      ensures ok ==> Disk(l - {h}, layers, mounts) == Step(Disk(l, old(layers), old(mounts)), Op.Destroy(h))
      ensures !ok ==>
        || (layers == old(layers) && mounts == old(mounts))
        || (h in l && Disk(l - {h}, layers, mounts) ==
              Step(Disk(l, old(layers), old(mounts)), FailedDestroy(h, DebrisOf(layers, mounts, h))))
      ensures broken == {} ==>
        (ok <==> h in l && Spot(AtLive, h) in old(mounts) && Spot(AtDead, h) !in old(mounts))
    {
      var live, dead := Spot(AtLive, h), Spot(AtDead, h);
      if h !in l || dead in mounts || Fault(RenameToDead, h) in broken { return false; }
      mounts := Moved(mounts, live, dead);
      ghost var was := Disk(l - {h}, old(layers), old(mounts) - {live});
      var destroyed, _ := DestroyVolume(dead);
      LitterIs(was, Disk(l - {h}, layers, mounts), h);
      ok := destroyed;
    }
  }

  /** The reference: every volume has a whole tree of its own.  `broken` are the volumes on which
      calls fail. */
  class NaiveDriver {
    var data: map<Handle, Tree>
    const broken: set<Handle>

    constructor (broken: set<Handle>)
      ensures data == map[] && this.broken == broken
    {
      data, this.broken := map[], broken;
    }

    method CreateVolume(vol: Handle) returns (ok: bool)
      modifies this
      ensures ok <==> vol !in old(data) && vol !in broken
      ensures data == if ok then NaiveStep(old(data), Op.Create(vol)) else old(data)
    {
      ok := vol !in data && vol !in broken;
      if ok { data := data[vol := map[]]; }
    }

    /** The child gets all that its parent has and is otherwise independent of it; a copy that
        fails touches nothing but the child. */
    method CreateCopyOnWriteLayer(child: Handle, parent: Handle) returns (ok: bool)
      modifies this
      ensures ok <==> parent in old(data) && child !in broken
      ensures ok ==> data == NaiveStep(old(data), CreateCow(child, parent))
      ensures ok && child !in old(data) ==> data[child] == old(data)[parent]
      ensures ok ==> forall p <- old(data)[parent] :: p in data[child] && data[child][p] == old(data)[parent][p]
      ensures data - {child} == old(data) - {child}
    {
      if parent !in data || child in broken {
        var partial: Tree := *;
        if * { data := data[child := partial]; }
        return false;
      }
      if child !in data { CopyIsParent(data, child, parent); }
      data := CopyTree(data, parent, child);
      ok := true;
    }

    method DestroyVolume(vol: Handle) returns (ok: bool)
      modifies this
      ensures ok <==> vol !in old(data) || vol !in broken
      ensures ok ==> data == NaiveStep(old(data), Op.Destroy(vol))
      ensures data - {vol} == old(data) - {vol}
    {
      if vol in data && vol in broken {
        var partial: Tree := *;
        data := data[vol := partial];
        return false;
      }
      data := data - {vol};
      ok := true;
    }
  }

  /** `cp -a parent/. child` on the data directories. */
  function CopyTree(data: map<Handle, Tree>, parent: Handle, child: Handle): map<Handle, Tree>
    requires parent in data
  {
    data[child := (if child in data then data[child] else map[]) + data[parent]]
  }

  /******* Histories *******/

  datatype Disk = Disk(links: Links, layers: Layers, mounts: Mounts)

  /** What a failed operation may leave under its handle outside live. */
  datatype Debris = Debris(layer: Option<Layer>, init: Option<Mount>, dead: Option<Mount>)

  /** What happens to volumes.  Edit writes a node or, with None, deletes a path, through the
      volume's mount.  A creation or a destruction that fails, at any point and with any of its
      cleanup failing, leaves debris. */
  datatype Op =
    | Create(h: Handle)
    | CreateCow(h: Handle, parent: Handle)
    | FailedCreate(h: Handle, left: Debris)
    | Edit(h: Handle, path: Path, content: Option<Node>)
    | Destroy(h: Handle)
    | FailedDestroy(h: Handle, left: Debris)

  function Creation(h: Handle, parent: Option<Handle>): Op {
    if parent.Some? then CreateCow(h, parent.value) else Create(h)
  }

  function DebrisOf(layers: Layers, mounts: Mounts, h: Handle): Debris {
    Debris(At(layers, h), At(mounts, Spot(AtInit, h)), At(mounts, Spot(AtDead, h)))
  }

  function At<K, V>(m: map<K, V>, k: K): Option<V> {
    if k in m then Some(m[k]) else None
  }

  function With<K, V>(m: map<K, V>, k: K, v: Option<V>): map<K, V> {
    if v.Some? then m[k := v.value] else m - {k}
  }

  function Littered(d: Disk, h: Handle, left: Debris): Disk {
    d.(layers := With(d.layers, h, left.layer),
       mounts := With(With(d.mounts, Spot(AtInit, h), left.init), Spot(AtDead, h), left.dead))
  }

  /** Where a second creation of a live handle ends with the layer that it shares with the live
      volume: with a part of the parent's layer copied in, or with that copied in and then
      some paths removed. */
  datatype Ending = Stopped(part: Layer) | Removed(gone: set<Path>)

  function Inherited(l: Links, layers: Layers, parent: Option<Handle>): Layer {
    if parent.Some? then Inherits(l, layers, parent.value) else map[]
  }

  /** A layered parent's layer is there to be copied. */
  predicate ParentLayered(l: Links, layers: Layers, parent: Option<Handle>) {
    parent.Some? && parent.value in l && l[parent.value].Some? ==> parent.value in layers
  }

  function EndLayer(layer: Layer, whole: Layer, end: Ending): Layer {
    match end
    case Stopped(part) => layer + part
    case Removed(gone) => (layer + whole) - gone
  }

  function InheritedBy(l: Links, layers: Layers, h: Handle, parent: Option<Handle>): Layers {
    if parent.Some? then InheritLayer(l, layers, h, parent.value) else layers
  }

  ghost function NewMount(l: Links, mounts: Mounts, h: Handle, parent: Option<Handle>): Mount
    requires WellFounded(l) && (parent.Some? ==> parent.value in l)
  {
    if parent.Some? then Stacked(LiveMount(mounts, Root(l, parent.value)), h) else Bind(h)
  }

  /** Mounts that differ at most at a handle's own places outside live. */
  ghost predicate SameElsewhere(mounts: Mounts, mounts': Mounts, h: Handle) {
    var own := {Spot(AtInit, h), Spot(AtDead, h)};
    mounts' - own == mounts - own
  }

  ghost predicate CreatedAgain(d: Disk, d': Disk, h: Handle, whole: Layer, end: Ending) {
    && d'.links == d.links
    && (forall x :: LiveMount(d'.mounts, x) == LiveMount(d.mounts, x))
    && OnlyLayer(d.layers, d'.layers, h)
    && LayerAt(d'.layers, h) == EndLayer(LayerAt(d.layers, h), whole, end)
    && (end.Stopped? ==> forall p <- end.part :: p in whole && end.part[p] == whole[p])
  }

  /** What a volume shows. */
  function Contents(d: Disk, h: Handle): Tree {
    Show(d.layers, LiveMount(d.mounts, h))
  }

  function Put(t: Tree, p: Path, content: Option<Node>): Tree {
    if content.Some? then t[p := content.value] else t - {p}
  }

  function Get(t: Tree, p: Path): Option<Node> {
    if p in t then Some(t[p]) else None
  }

  /** A layer after a write or deletion above `lower`: deleting a lower file leaves a whiteout. */
  function EditLayer(lower: Tree, layer: Layer, p: Path, content: Option<Node>): Layer {
    if content.Some? then layer[p := File(content.value)]
    else if p in lower then layer[p := Whiteout]
    else layer - {p}
  }

  /** A write or deletion through a mount lands in its top layer. */
  function EditLayers(layers: Layers, m: Mount, p: Path, content: Option<Node>): Layers {
    match m
    case Bare => layers
    case Bind(h) => layers[h := EditLayer(map[], LayerAt(layers, h), p, content)]
    case Stacked(lower, h) => layers[h := EditLayer(Show(layers, lower), LayerAt(layers, h), p, content)]
  }

  /** Handles are created once and with no layer left over, parents are live, children go
      before parents, and a root is edited only while nothing is layered over it. */
  ghost predicate Legal(d: Disk, op: Op) {
    match op
    case Create(h) => h !in d.links && h !in d.layers
    case CreateCow(h, parent) => h !in d.links && h !in d.layers && parent in d.links
    case FailedCreate(h, _) => h !in d.links
    case Edit(h, _, _) => h in d.links && (d.links[h].Some? || !HasChild(d.links, h))
    case Destroy(h) => h in d.links && !HasChild(d.links, h)
    case FailedDestroy(h, _) => h in d.links && !HasChild(d.links, h)
  }

  /** The histories have all that can happen to a handle that is not live, bar a creation over a
      leftover layer, and to a live one that nothing is layered on. */
  lemma HistoriesCover(d: Disk, h: Handle, parent: Option<Handle>, left: Debris, p: Path, content: Option<Node>)
    requires parent.Some? ==> parent.value in d.links
    ensures h !in d.links ==> Legal(d, FailedCreate(h, left))
    ensures h !in d.links && h !in d.layers ==> Legal(d, Creation(h, parent))
    ensures h in d.links && !HasChild(d.links, h) ==>
      Legal(d, Edit(h, p, content)) && Legal(d, Destroy(h)) && Legal(d, FailedDestroy(h, left))
    ensures h in d.links && d.links[h].Some? ==> Legal(d, Edit(h, p, content))
  {}

  /** The overlay driver's disk after an operation, as the driver's methods Create and Destroy
      leave it. */
  ghost function Step(d: Disk, op: Op): Disk
    requires WellFounded(d.links)
    requires op.CreateCow? ==> op.parent in d.links
    requires op.Edit? ==> op.h in d.links
  {
    match op
    case Create(h) =>
      Disk(d.links[h := None], MkdirAll(d.layers, h), d.mounts[Spot(AtLive, h) := Bind(h)])
    case CreateCow(h, parent) =>
      Disk(d.links[h := Some(parent)],
           MkdirAll(InheritLayer(d.links, d.layers, h, parent), h),
           d.mounts[Spot(AtLive, h) := Stacked(LiveMount(d.mounts, Root(d.links, parent)), h)])
    case FailedCreate(h, left) => Littered(d, h, left)
    case Edit(h, p, content) => d.(layers := EditLayers(d.layers, LiveMount(d.mounts, h), p, content))
    case Destroy(h) => Disk(d.links - {h}, d.layers - {h}, d.mounts - {Spot(AtLive, h)})
    case FailedDestroy(h, left) =>
      Littered(Disk(d.links - {h}, d.layers, d.mounts - {Spot(AtLive, h)}), h, left)
  }

  /** The naive driver's data directories after the same operation. */
  function NaiveStep(n: map<Handle, Tree>, op: Op): map<Handle, Tree> {
    match op
    case Create(h) => n[h := map[]]
    case CreateCow(h, parent) => if parent in n then CopyTree(n, parent, h) else n
    case FailedCreate(_, _) => n
    case Edit(h, p, content) => if h in n then n[h := Put(n[h], p, content)] else n
    case Destroy(h) => n - {h}
    case FailedDestroy(h, _) => n - {h}
  }

  /** Both drivers show the same contents for the same volumes. */
  ghost predicate Refines(d: Disk, n: map<Handle, Tree>) {
    && d.links.Keys == n.Keys
    && forall h <- d.links :: Contents(d, h) == n[h]
  }

  /******* The invariant *******/

  ghost predicate Inv(d: Disk) {
    && WellFounded(d.links)
    && forall h <- d.links :: h in d.layers && LiveMount(d.mounts, h) == HomeMount(d.links, h)
  }

  lemma MergeIsSeen(lower: Tree, upper: Layer, p: Path)
    ensures Get(Merge(lower, upper), p) == Seen(lower, upper, p)
  {}

  lemma SameTree(a: Tree, b: Tree)
    requires forall p :: Get(a, p) == Get(b, p)
    ensures a == b
  {
    forall p
      ensures p in a <==> p in b
      ensures p in a ==> a[p] == b[p]
    {
      assert Get(a, p) == Get(b, p);
    }
  }

  lemma EmptyUpper(t: Tree)
    ensures Merge(t, map[]) == t
  {}

  lemma EditMerges(lower: Tree, layer: Layer, p: Path, content: Option<Node>)
    ensures Merge(lower, EditLayer(lower, layer, p, content)) == Put(Merge(lower, layer), p, content)
  {
    var layer' := EditLayer(lower, layer, p, content);
    forall q
      ensures Get(Merge(lower, layer'), q) == Get(Put(Merge(lower, layer), p, content), q)
    {
      MergeIsSeen(lower, layer', q);
      MergeIsSeen(lower, layer, q);
    }
    SameTree(Merge(lower, layer'), Put(Merge(lower, layer), p, content));
  }

  lemma EditShows(layers: Layers, m: Mount, p: Path, content: Option<Node>)
    requires !m.Bare? && (m.Stacked? ==> m.lower.Bind? && m.lower.layer != m.upper)
    ensures Show(EditLayers(layers, m, p, content), m) == Put(Show(layers, m), p, content)
  {
    var layers' := EditLayers(layers, m, p, content);
    if m.Bind? {
      EditMerges(map[], LayerAt(layers, m.layer), p, content);
    } else {
      assert LayerAt(layers', m.lower.layer) == LayerAt(layers, m.lower.layer);
      EditMerges(Show(layers, m.lower), LayerAt(layers, m.upper), p, content);
    }
  }

  /** An operation touches the layer and the mount of its own handle only. */
  ghost predicate ElsewhereKept(d: Disk, d': Disk, op: Op) {
    && (forall x | x != op.h :: LayerAt(d'.layers, x) == LayerAt(d.layers, x) && (x in d.layers ==> x in d'.layers))
    && (forall x | x != op.h :: LiveMount(d'.mounts, x) == LiveMount(d.mounts, x))
  }

  lemma TouchesOnly(d: Disk, op: Op)
    requires WellFounded(d.links) && Legal(d, op)
    requires op.Edit? ==> LiveMount(d.mounts, op.h) == HomeMount(d.links, op.h)
    ensures ElsewhereKept(d, Step(d, op), op)
  {}

  lemma LinksStayFounded(d: Disk, op: Op)
    requires WellFounded(d.links) && Legal(d, op)
    ensures WellFounded(Step(d, op).links)
  {
    match op {
      case Create(h) => AddLeaf(d.links, h, None);
      case CreateCow(h, parent) => AddLeaf(d.links, h, Some(parent));
      case Destroy(h) => Restrict(d.links, Step(d, op).links);
      case FailedDestroy(h, _) => Restrict(d.links, Step(d, op).links);
      case _ =>
    }
  }

  lemma StepKeepsInv(d: Disk, op: Op)
    requires Inv(d) && Legal(d, op)
    ensures Inv(Step(d, op))
  {
    var d' := Step(d, op);
    TouchesOnly(d, op);
    LinksStayFounded(d, op);
    forall x | x in d'.links
      ensures x in d'.layers && LiveMount(d'.mounts, x) == HomeMount(d'.links, x)
    {
      if op.Destroy? || op.FailedDestroy? {
        RootFrame(d'.links, d.links, x);
      } else if x in d.links {
        RootFrame(d.links, d'.links, x);
      } else if op.CreateCow? {
        RootInLinks(d.links, op.parent);
        RootFrame(d.links, d'.links, op.parent);
      }
    }
  }

  /** A volume other than the one an operation is about keeps its contents. */
  lemma OthersKept(d: Disk, op: Op, x: Handle)
    requires Inv(d) && Legal(d, op) && x in d.links && x != op.h
    ensures var d' := Step(d, op); Contents(d', x) == Contents(d, x)
  {
    var d' := Step(d, op);
    TouchesOnly(d, op);
    if d.links[x].Some? {
      RootInLinks(d.links, x);
      RootHasChild(d.links, x);
      assert Root(d.links, x) != op.h;
    }
    SameHomeLayers(d.links, d.layers, d'.layers, x);
  }

  lemma SameHomeLayers(l: Links, layers: Layers, layers': Layers, x: Handle)
    requires WellFounded(l) && x in l && LayerAt(layers', x) == LayerAt(layers, x)
    requires LayerAt(layers', Root(l, x)) == LayerAt(layers, Root(l, x))
    ensures Show(layers', HomeMount(l, x)) == Show(layers, HomeMount(l, x))
  {}

  lemma StackedShows(layers: Layers, root: Handle, h: Handle)
    ensures Show(layers, Stacked(Bind(root), h)) == Merge(Merge(map[], LayerAt(layers, root)), LayerAt(layers, h))
    ensures Show(layers, Bind(root)) == Merge(map[], LayerAt(layers, root))
  {}

  /** A fresh copy-on-write volume, at any depth, shows exactly what its parent shows. */
  lemma CowShowsParent(d: Disk, h: Handle, parent: Handle)
    requires Inv(d) && Legal(d, CreateCow(h, parent))
    ensures var d' := Step(d, CreateCow(h, parent));
      Contents(d', h) == Contents(d, parent)
  {
    var d' := Step(d, CreateCow(h, parent));
    var root := Root(d.links, parent);
    RootInLinks(d.links, parent);
    assert LiveMount(d.mounts, root) == Bind(root);
    assert LayerAt(d'.layers, root) == LayerAt(d.layers, root);
    if d.links[parent].None? {
      EmptyUpper(Show(d.layers, Bind(parent)));
    } else {
      assert LayerAt(d'.layers, h) == LayerAt(d.layers, parent);
      StackedShows(d.layers, root, parent);
    }
    StackedShows(d'.layers, root, h);
  }

  lemma EditShown(d: Disk, h: Handle, p: Path, content: Option<Node>)
    requires Inv(d) && h in d.links
    ensures var d' := Step(d, Edit(h, p, content));
      Contents(d', h) == Put(Contents(d, h), p, content)
  {
    if d.links[h].Some? { RootInLinks(d.links, h); }
    EditShows(d.layers, LiveMount(d.mounts, h), p, content);
  }

  lemma CreatedShowsNothing(d: Disk, h: Handle)
    requires WellFounded(d.links) && h !in d.layers
    ensures var d' := Step(d, Create(h)); Contents(d', h) == map[]
  {}

  lemma CopyIsParent(n: map<Handle, Tree>, h: Handle, parent: Handle)
    requires parent in n && h !in n
    ensures CopyTree(n, parent, h)[h] == n[parent]
  {
    assert map[] + n[parent] == n[parent];
  }

  /** The volume an operation is about shows what the full copy would show. */
  lemma OwnRefines(d: Disk, n: map<Handle, Tree>, op: Op)
    requires Inv(d) && Legal(d, op) && Refines(d, n)
    requires op.Create? || op.CreateCow? || op.Edit?
    ensures var d' := Step(d, op); Contents(d', op.h) == NaiveStep(n, op)[op.h]
  {
    if op.Create? {
      CreatedShowsNothing(d, op.h);
    } else if op.CreateCow? {
      CowShowsParent(d, op.h, op.parent);
      CopyIsParent(n, op.h, op.parent);
    } else {
      EditShown(d, op.h, op.path, op.content);
    }
  }

  lemma StepRefines(d: Disk, n: map<Handle, Tree>, op: Op)
    requires Inv(d) && Legal(d, op) && Refines(d, n)
    ensures Refines(Step(d, op), NaiveStep(n, op))
  {
    var d', n' := Step(d, op), NaiveStep(n, op);
    assert d'.links.Keys == n'.Keys;
    forall x | x in d'.links
      ensures Contents(d', x) == n'[x]
    {
      if x == op.h { OwnRefines(d, n, op); } else { OthersKept(d, op, x); }
    }
  }

  /** The states of both drivers after a history. */
  ghost predicate History(ds: seq<Disk>, ns: seq<map<Handle, Tree>>, ops: seq<Op>) {
    && |ds| == |ns| == |ops| + 1
    && ds[0] == Disk(map[], map[], map[]) && ns[0] == map[]
    && forall i :: 0 <= i < |ops| ==>
      && WellFounded(ds[i].links) && Legal(ds[i], ops[i])
      && ds[i + 1] == Step(ds[i], ops[i]) && ns[i + 1] == NaiveStep(ns[i], ops[i])
  }

  /** The overlay driver refines the naive one: after every history of creations, copy-on-write
      creations at any depth, writes, deletions and destructions, failed ones included, each
      volume shows what a full copy would show. */
  lemma {:induction false} OverlayRefinesNaive(ds: seq<Disk>, ns: seq<map<Handle, Tree>>, ops: seq<Op>, i: nat)
    requires History(ds, ns, ops) && i < |ds|
    ensures Inv(ds[i]) && Refines(ds[i], ns[i])
  {
    if i == 0 {
      assert RankedBy(ds[0].links, map[]);
    } else {
      OverlayRefinesNaive(ds, ns, ops, i - 1);
      StepKeepsInv(ds[i - 1], ops[i - 1]);
      StepRefines(ds[i - 1], ns[i - 1], ops[i - 1]);
    }
  }
}
