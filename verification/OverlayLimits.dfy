/** Where the overlay driver's shortcut stops being a full copy, exactly.

    What the refinement assumes away is settled here for all inputs: a leftover layer at
    creation, a second creation of a live handle, an edit of a root that has volumes layered
    over it, and recovery after a restart.  Each result is an equivalence with a condition on
    the layers beforehand. */
module OverlayLimits {
  import opened Wrappers
  import opened Forest
  import opened Overlay

  /** Putting `over` on top of `under` hides `under` exactly when each path that `under` alone
      has shows the same without it. */
  lemma UnderlayExact(lower: Tree, under: Layer, over: Layer)
    ensures Merge(lower, under + over) == Merge(lower, over) <==>
      forall p | p in under && p !in over :: Seen(lower, under, p) == Get(lower, p)
  {
    forall p
      ensures Get(Merge(lower, under + over), p) == Seen(lower, under + over, p)
      ensures Get(Merge(lower, over), p) == Seen(lower, over, p)
    {
      MergeIsSeen(lower, under + over, p);
      MergeIsSeen(lower, over, p);
    }
    if forall p | p in under && p !in over :: Seen(lower, under, p) == Get(lower, p) {
      SameTree(Merge(lower, under + over), Merge(lower, over));
    }
    if Merge(lower, under + over) == Merge(lower, over) {
      forall p | p in under && p !in over
        ensures Seen(lower, under, p) == Get(lower, p)
      {
        assert Get(Merge(lower, under + over), p) == Get(Merge(lower, over), p);
      }
    }
  }

  /** A root created over a leftover layer shows nothing exactly when the leftover has no file. */
  lemma LeftoverRootExact(d: Disk, h: Handle)
    requires WellFounded(d.links)
    ensures Contents(Step(d, Create(h)), h) == map[] <==>
      forall p <- LayerAt(d.layers, h) :: LayerAt(d.layers, h)[p].Whiteout?
  {
    var layer := LayerAt(d.layers, h);
    forall p ensures Get(Merge(map[], layer), p) == Seen(map[], layer, p) { MergeIsSeen(map[], layer, p); }
    assert Contents(Step(d, Create(h)), h) == Merge(map[], layer);
    if forall p <- layer :: layer[p].Whiteout? {
      SameTree(Merge(map[], layer), map[]);
    } else {
      var p :| p in layer && !layer[p].Whiteout?;
      assert Get(Merge(map[], layer), p) == Some(layer[p].node);
    }
  }

  /** A destroyed volume's file comes back: a volume is created, written to and destroyed, its
      layer is not removed, and the handle is created again. */
  lemma LeftoverShows(h: Handle, p: Path, v: Node)
    ensures
      var d0 := Disk(map[], map[], map[]);
      && WellFounded(d0.links) && Legal(d0, Create(h))
      && var d1 := Step(d0, Create(h));
         && WellFounded(d1.links) && Legal(d1, Edit(h, p, Some(v)))
         && var d2 := Step(d1, Edit(h, p, Some(v)));
            var destroy := FailedDestroy(h, Debris(At(d2.layers, h), None, None));
            && WellFounded(d2.links) && Legal(d2, destroy)
            && var d3 := Step(d2, destroy);
               WellFounded(d3.links) && h !in d3.links && Get(Contents(Step(d3, Create(h)), h), p) == Some(v)
  {
    assert RankedBy(map[], map[]);
    assert RankedBy(map[h := None], map[h := 0]);
    var layer: Layer := map[p := File(v)];
    MergeIsSeen(map[], layer, p);
    var d1 := Step(Disk(map[], map[], map[]), Create(h));
    assert d1 == Disk(map[h := None], map[h := map[]], map[Spot(AtLive, h) := Bind(h)]);
    assert EditLayer(map[], map[], p, Some(v)) == layer;
    var d2 := Step(d1, Edit(h, p, Some(v)));
    assert d2.layers == map[h := layer];
    var d3 := Step(d2, FailedDestroy(h, Debris(At(d2.layers, h), None, None)));
    assert d3.links == map[] && d3.layers == map[h := layer];
  }

  /** A copy-on-write creation over a leftover layer shows its parent's contents exactly when
      nothing the leftover has, and the parent's layer does not overwrite, differs from the
      root. */
  lemma LeftoverLayerExact(d: Disk, h: Handle, parent: Handle)
    requires Inv(d) && h !in d.links && parent in d.links
    ensures
      var root := Show(d.layers, Bind(Root(d.links, parent)));
      var copied := Inherits(d.links, d.layers, parent);
      Contents(Step(d, CreateCow(h, parent)), h) == Contents(d, parent) <==>
        forall p | p in LayerAt(d.layers, h) && p !in copied :: Seen(root, LayerAt(d.layers, h), p) == Get(root, p)
  {
    var d', root := Step(d, CreateCow(h, parent)), Root(d.links, parent);
    var copied := Inherits(d.links, d.layers, parent);
    RootInLinks(d.links, parent);
    assert LiveMount(d.mounts, root) == Bind(root);
    assert LayerAt(d'.layers, root) == LayerAt(d.layers, root);
    assert LayerAt(d'.layers, h) == LayerAt(d.layers, h) + copied;
    StackedShows(d'.layers, root, h);
    StackedShows(d.layers, root, parent);
    UnderlayExact(Show(d.layers, Bind(root)), LayerAt(d.layers, h), copied);
    EmptyUpper(Show(d.layers, Bind(root)));
  }

  /******* A second creation of a live handle *******/

  /** What lies under the layer of a volume. */
  ghost function Below(d: Disk, h: Handle): Tree
    requires WellFounded(d.links) && h in d.links
  {
    if d.links[h].None? then map[] else Show(d.layers, Bind(Root(d.links, h)))
  }

  lemma ContentsAre(d: Disk, h: Handle)
    requires Inv(d) && h in d.links
    ensures Contents(d, h) == Merge(Below(d, h), LayerAt(d.layers, h))
  {
    if d.links[h].Some? { StackedShows(d.layers, Root(d.links, h), h); }
  }

  /** Overriding by one layer and then removing paths, against leaving the layer alone. */
  lemma RemovedExact(lower: Tree, layer: Layer, over: Layer, gone: set<Path>)
    ensures Merge(lower, (layer + over) - gone) == Merge(lower, layer) <==>
      && (forall p | p in over && p !in gone :: Seen(lower, over, p) == Seen(lower, layer, p))
      && (forall p | p in layer && p in gone :: Seen(lower, layer, p) == Get(lower, p))
  {
    var layer' := (layer + over) - gone;
    forall p
      ensures Get(Merge(lower, layer'), p) == Seen(lower, layer', p)
      ensures Get(Merge(lower, layer), p) == Seen(lower, layer, p)
    {
      MergeIsSeen(lower, layer', p);
      MergeIsSeen(lower, layer, p);
    }
    if && (forall p | p in over && p !in gone :: Seen(lower, over, p) == Seen(lower, layer, p))
       && (forall p | p in layer && p in gone :: Seen(lower, layer, p) == Get(lower, p)) {
      SameTree(Merge(lower, layer'), Merge(lower, layer));
    }
    if Merge(lower, layer') == Merge(lower, layer) {
      forall p ensures Seen(lower, layer', p) == Seen(lower, layer, p) {
        assert Get(Merge(lower, layer'), p) == Get(Merge(lower, layer), p);
      }
      assert forall p | p in over && p !in gone :: Seen(lower, layer', p) == Seen(lower, over, p);
      assert forall p | p in gone :: Seen(lower, layer', p) == Get(lower, p);
    }
  }

  /** Layer directories go by handle, so a second creation of a live handle works on the live
      volume's layer, and can only fail.  What the live volume shows survives a creation that
      stops short of the cleanup exactly when each path copied so far shows the same in the
      volume; it survives the cleanup exactly when that holds of the paths not removed, and
      each path that was removed was of no effect. */
  lemma SecondCreationExact(d: Disk, d': Disk, h: Handle, whole: Layer, end: Ending)
    requires Inv(d) && h in d.links && CreatedAgain(d, d', h, whole, end)
    ensures
      var lower, layer := Below(d, h), LayerAt(d.layers, h);
      Contents(d', h) == Contents(d, h) <==>
        match end
        case Stopped(part) => forall p <- part :: Seen(lower, part, p) == Seen(lower, layer, p)
        case Removed(gone) =>
          && (forall p | p in whole && p !in gone :: Seen(lower, whole, p) == Seen(lower, layer, p))
          && (forall p | p in layer && p in gone :: Seen(lower, layer, p) == Get(lower, p))
  {
    var lower, layer := Below(d, h), LayerAt(d.layers, h);
    ContentsAre(d, h);
    AgainShows(d, d', h, whole, end);
    match end
    case Stopped(part) => OverrideExact(lower, layer, part);
    case Removed(gone) => RemovedExact(lower, layer, whole, gone);
  }

  /** Before the call: a second creation is harmless however it ends if and only if each path of
      what it would copy shows the same in the volume, and the volume's layer has no effect. */
  lemma SecondCreationHarmless(d: Disk, h: Handle, whole: Layer)
    requires Inv(d) && h in d.links
    ensures
      var lower, layer := Below(d, h), LayerAt(d.layers, h);
      (forall d', end | CreatedAgain(d, d', h, whole, end) :: Contents(d', h) == Contents(d, h)) <==>
        && (forall p <- whole :: Seen(lower, whole, p) == Seen(lower, layer, p))
        && (forall p <- layer :: Seen(lower, layer, p) == Get(lower, p))
  {
    var lower, layer := Below(d, h), LayerAt(d.layers, h);
    if && (forall p <- whole :: Seen(lower, whole, p) == Seen(lower, layer, p))
       && (forall p <- layer :: Seen(lower, layer, p) == Get(lower, p)) {
      forall d', end | CreatedAgain(d, d', h, whole, end) ensures Contents(d', h) == Contents(d, h) {
        SecondCreationExact(d, d', h, whole, end);
      }
    }
    if forall d', end | CreatedAgain(d, d', h, whole, end) :: Contents(d', h) == Contents(d, h) {
      var copied := AgainWith(d, h, whole, Stopped(whole));
      SecondCreationExact(d, copied, h, whole, Stopped(whole));
      var gone := layer.Keys + whole.Keys;
      var removed := AgainWith(d, h, whole, Removed(gone));
      SecondCreationExact(d, removed, h, whole, Removed(gone));
    }
  }

  lemma AgainWith(d: Disk, h: Handle, whole: Layer, end: Ending) returns (d': Disk)
    requires end.Stopped? ==> forall p <- end.part :: p in whole && end.part[p] == whole[p]
    ensures CreatedAgain(d, d', h, whole, end)
  {
    d' := d.(layers := d.layers[h := EndLayer(LayerAt(d.layers, h), whole, end)]);
    OwnLayerOnly(d.layers, h, EndLayer(LayerAt(d.layers, h), whole, end));
  }

  lemma OtherLayersKept(layers: Layers, layers': Layers, h: Handle, x: Handle)
    requires OnlyLayer(layers, layers', h) && x != h
    ensures LayerAt(layers', x) == LayerAt(layers, x)
  {
    assert x in layers' <==> x in layers' - {h};
    assert x in layers <==> x in layers - {h};
  }

  lemma AgainShows(d: Disk, d': Disk, h: Handle, whole: Layer, end: Ending)
    requires Inv(d) && h in d.links && CreatedAgain(d, d', h, whole, end)
    ensures Contents(d', h) == Merge(Below(d, h), EndLayer(LayerAt(d.layers, h), whole, end))
  {
    assert LiveMount(d'.mounts, h) == HomeMount(d.links, h);
    if d.links[h].Some? {
      RootInLinks(d.links, h);
      OtherLayersKept(d.layers, d'.layers, h, Root(d.links, h));
      StackedShows(d'.layers, Root(d.links, h), h);
      StackedShows(d.layers, Root(d.links, h), h);
    }
  }

  /** A volume that is neither the live one nor layered over it is not affected. */
  lemma SecondCreationFrame(d: Disk, d': Disk, h: Handle, whole: Layer, end: Ending, x: Handle)
    requires Inv(d) && h in d.links && CreatedAgain(d, d', h, whole, end)
    requires x in d.links && x != h && Root(d.links, x) != h
    ensures Contents(d', x) == Contents(d, x)
  {
    OtherLayersKept(d.layers, d'.layers, h, x);
    OtherLayersKept(d.layers, d'.layers, h, Root(d.links, x));
    SameHomeLayers(d.links, d.layers, d'.layers, x);
  }

  lemma LowerExact(lower: Tree, lower': Tree, upper: Layer)
    ensures Merge(lower', upper) == Merge(lower, upper) <==> forall p | p !in upper :: Get(lower', p) == Get(lower, p)
  {
    forall p
      ensures Get(Merge(lower', upper), p) == Seen(lower', upper, p)
      ensures Get(Merge(lower, upper), p) == Seen(lower, upper, p)
    {
      MergeIsSeen(lower', upper, p);
      MergeIsSeen(lower, upper, p);
    }
    if forall p | p !in upper :: Get(lower', p) == Get(lower, p) {
      SameTree(Merge(lower', upper), Merge(lower, upper));
    }
    if Merge(lower', upper) == Merge(lower, upper) {
      forall p | p !in upper ensures Get(lower', p) == Get(lower, p) {
        assert Get(Merge(lower', upper), p) == Get(Merge(lower, upper), p);
      }
    }
  }

  /** A volume layered over the live one is left alone exactly when its own layer covers every
      path at which the live one's layer shows something else afterwards. */
  lemma SecondCreationAboveExact(d: Disk, d': Disk, h: Handle, whole: Layer, end: Ending, x: Handle)
    requires Inv(d) && h in d.links && CreatedAgain(d, d', h, whole, end)
    requires x in d.links && x != h && Root(d.links, x) == h
    ensures
      var layer := LayerAt(d.layers, h);
      Contents(d', x) == Contents(d, x) <==>
        forall p | p !in LayerAt(d.layers, x) :: Seen(map[], EndLayer(layer, whole, end), p) == Seen(map[], layer, p)
  {
    var layer, layer' := LayerAt(d.layers, h), EndLayer(LayerAt(d.layers, h), whole, end);
    OtherLayersKept(d.layers, d'.layers, h, x);
    assert LiveMount(d'.mounts, x) == LiveMount(d.mounts, x) == HomeMount(d.links, x);
    StackedShows(d.layers, h, x);
    StackedShows(d'.layers, h, x);
    LowerExact(Merge(map[], layer), Merge(map[], layer'), LayerAt(d.layers, x));
    forall p
      ensures Get(Merge(map[], layer), p) == Seen(map[], layer, p)
      ensures Get(Merge(map[], layer'), p) == Seen(map[], layer', p)
    {
      MergeIsSeen(map[], layer, p);
      MergeIsSeen(map[], layer', p);
    }
  }

  /** The cleanup takes everything: a written root is empty afterwards. */
  lemma SecondCreationEmpties(d: Disk, d': Disk, h: Handle, p: Path, v: Node)
    requires Inv(d) && h in d.links && d.links[h].None? && LayerAt(d.layers, h) == map[p := File(v)]
    requires CreatedAgain(d, d', h, map[], Removed({p}))
    ensures Get(Contents(d, h), p) == Some(v) && Contents(d', h) == map[]
  {
    ContentsAre(d, h);
    AgainShows(d, d', h, map[], Removed({p}));
    MergeIsSeen(map[], LayerAt(d.layers, h), p);
    var left: Layer := map[];
    assert EndLayer(LayerAt(d.layers, h), map[], Removed({p})) == left;
    EmptyUpper(map[]);
  }

  /** A copy that stops at the mount takes over: whatever the disk, where `h` has its own version
      of a file that the layer of `a` has too, `h` shows the version of `a` once a second
      creation of `h` over `a` has failed. */
  lemma SecondCreationOverwrites(d: Disk, d': Disk, h: Handle, a: Handle, x: Path, v: Node, w: Node)
    requires Inv(d) && h in d.links && a in d.links && d.links[a].Some?
    requires x in LayerAt(d.layers, h) && LayerAt(d.layers, h)[x] == File(w)
    requires x in LayerAt(d.layers, a) && LayerAt(d.layers, a)[x] == File(v)
    requires var whole := Inherited(d.links, d.layers, Some(a)); CreatedAgain(d, d', h, whole, Stopped(whole))
    ensures Get(Contents(d, h), x) == Some(w) && Get(Contents(d', h), x) == Some(v)
  {
    var over := LayerAt(d.layers, a);
    ContentsAre(d, h);
    AgainShows(d, d', h, over, Stopped(over));
    MergeIsSeen(Below(d, h), LayerAt(d.layers, h), x);
    MergeIsSeen(Below(d, h), LayerAt(d.layers, h) + over, x);
  }

  /** An edit of a root leaves a volume layered over it alone exactly when that volume's layer
      has the path, or the edit changes nothing. */
  lemma EditBelowExact(lower: Tree, upper: Layer, p: Path, content: Option<Node>)
    ensures Merge(Put(lower, p, content), upper) == Merge(lower, upper) <==>
      p in upper || Get(lower, p) == content
  {
    var lower' := Put(lower, p, content);
    forall q
      ensures Get(Merge(lower', upper), q) == Seen(lower', upper, q)
      ensures Get(Merge(lower, upper), q) == Seen(lower, upper, q)
    {
      MergeIsSeen(lower', upper, q);
      MergeIsSeen(lower, upper, q);
    }
    assert Get(lower', p) == content;
    if p in upper || Get(lower, p) == content {
      SameTree(Merge(lower', upper), Merge(lower, upper));
    } else {
      assert Get(Merge(lower', upper), p) != Get(Merge(lower, upper), p);
    }
  }

  lemma RootEditAt(d: Disk, h: Handle, p: Path, content: Option<Node>, c: Handle)
    requires Inv(d) && h in d.links && d.links[h].None? && c in d.links && c != h
    ensures
      var d' := Step(d, Edit(h, p, content));
      Contents(d', c) == Contents(d, c) <==>
        (Root(d.links, c) == h ==> p in LayerAt(d.layers, c) || Get(Show(d.layers, Bind(h)), p) == content)
  {
    var d' := Step(d, Edit(h, p, content));
    EditShows(d.layers, Bind(h), p, content);
    assert LayerAt(d'.layers, c) == LayerAt(d.layers, c);
    if Root(d.links, c) == h {
      assert LiveMount(d.mounts, c) == Stacked(Bind(h), c);
      EditBelowExact(Show(d.layers, Bind(h)), LayerAt(d.layers, c), p, content);
    } else {
      assert LayerAt(d'.layers, Root(d.links, c)) == LayerAt(d.layers, Root(d.links, c));
      SameHomeLayers(d.links, d.layers, d'.layers, c);
    }
  }

  lemma RootEditShown(d: Disk, n: map<Handle, Tree>, h: Handle, p: Path, content: Option<Node>, c: Handle)
    requires Inv(d) && Refines(d, n) && h in d.links && d.links[h].None? && c in d.links
    ensures
      var d' := Step(d, Edit(h, p, content));
      Contents(d', c) == NaiveStep(n, Edit(h, p, content))[c] <==>
        (c != h && Root(d.links, c) == h ==> p in LayerAt(d.layers, c) || Get(n[h], p) == content)
  {
    assert LiveMount(d.mounts, h) == Bind(h);
    if c == h {
      EditShown(d, h, p, content);
    } else {
      RootEditAt(d, h, p, content, c);
    }
  }

  /** An edit of a root keeps the refinement exactly when every volume layered over that root
      has the path in its own layer, or the edit changes nothing. */
  lemma RootEditExact(d: Disk, n: map<Handle, Tree>, h: Handle, p: Path, content: Option<Node>)
    requires Inv(d) && Refines(d, n) && h in d.links && d.links[h].None?
    ensures
      Refines(Step(d, Edit(h, p, content)), NaiveStep(n, Edit(h, p, content))) <==>
        forall c | c in d.links && c != h && Root(d.links, c) == h ::
          p in LayerAt(d.layers, c) || Get(n[h], p) == content
  {
    var d', n' := Step(d, Edit(h, p, content)), NaiveStep(n, Edit(h, p, content));
    assert d'.links == d.links && n'.Keys == n.Keys;
    forall c | c in d.links
      ensures Contents(d', c) == n'[c] <==>
        (c != h && Root(d.links, c) == h ==> p in LayerAt(d.layers, c) || Get(n[h], p) == content)
    {
      RootEditShown(d, n, h, p, content, c);
    }
  }

  /** A file written to a root appears in the volume over it, which a full copy would not have. */
  lemma RootEditShows(r: Handle, c: Handle, p: Path, v: Node)
    requires r != c
    ensures
      var l: Links := map[r := None, c := Some(r)];
      var d := Disk(l, map[r := map[], c := map[]],
                    map[Spot(AtLive, r) := Bind(r), Spot(AtLive, c) := Stacked(Bind(r), c)]);
      && Inv(d) && Contents(d, c) == map[]
      && Get(Contents(Step(d, Edit(r, p, Some(v))), c), p) == Some(v)
  {
    var l: Links := map[r := None, c := Some(r)];
    assert RankedBy(l, map[r := 0, c := 1]);
    assert Root(l, r) == r && Root(l, c) == r;
    var d := Disk(l, map[r := map[], c := map[]],
                  map[Spot(AtLive, r) := Bind(r), Spot(AtLive, c) := Stacked(Bind(r), c)]);
    var d' := Step(d, Edit(r, p, Some(v)));
    StackedShows(d.layers, r, c);
    StackedShows(d'.layers, r, c);
    EmptyUpper(map[]);
    MergeIsSeen(map[], LayerAt(d'.layers, r), p);
    EmptyUpper(Merge(map[], LayerAt(d'.layers, r)));
  }

  /******* Recovery *******/

  lemma {:induction false} RecoveredElsewhere(l: Links, layers: Layers, order: seq<Handle>, x: Handle)
    requires x !in order
    ensures LayerAt(Recovered(l, layers, order), x) == LayerAt(layers, x)
  {
    if order != [] { RecoveredElsewhere(l, layers, order[..|order| - 1], x); }
  }

  /** A volume's layer is settled once recovery has passed it. */
  lemma {:induction false} RecoveredOnce(l: Links, layers: Layers, order: seq<Handle>, k: nat, x: Handle)
    requires k <= |order| && x !in order[k..]
    ensures LayerAt(Recovered(l, layers, order), x) == LayerAt(Recovered(l, layers, order[..k]), x)
    decreases |order|
  {
    if k == |order| {
      assert order[..k] == order;
    } else {
      var n := |order| - 1;
      assert order[k..] == order[..n][k..] + [order[n]] && order[..n][..k] == order[..k];
      RecoveredOnce(l, layers, order[..n], k, x);
    }
  }

  /** What the parent of a layered volume contributes to it: its layer, if it is layered. */
  function FromParent(l: Links, layers: Layers, h: Handle): Layer {
    if h in l && l[h].Some? && l[h].value in l && l[l[h].value].Some? then LayerAt(layers, l[h].value) else map[]
  }

  /** Recovery overrides each layered volume's layer by its parent's as that stands when the
      volume is reached: already recovered if the parent comes earlier, untouched otherwise. */
  lemma RecoveredLayer(l: Links, layers: Layers, order: seq<Handle>, i: nat)
    requires WellFounded(l) && i < |order|
    requires forall j, k | 0 <= j < k < |order| :: order[j] != order[k]
    requires order[i] in l && l[order[i]].Some?
    ensures
      var c, p := order[i], l[order[i]].value;
      var final := Recovered(l, layers, order);
      LayerAt(final, c) ==
        LayerAt(layers, c) + FromParent(l, if p in order[..i] then final else layers, c)
  {
    var c, p := order[i], l[order[i]].value;
    var before := Recovered(l, layers, order[..i]);
    assert order[..i + 1][..i] == order[..i];
    RecoveredOnce(l, layers, order, i + 1, c);
    RecoveredElsewhere(l, layers, order[..i], c);
    if p in order[..i] {
      assert p !in order[i..];
      RecoveredOnce(l, layers, order, i, p);
    } else {
      RecoveredElsewhere(l, layers, order[..i], p);
    }
  }

  /** Each layer already has all that its parent would contribute. */
  ghost predicate LayersNested(l: Links, layers: Layers) {
    forall c <- l :: NestedAt(l, layers, c)
  }

  ghost predicate NestedAt(l: Links, layers: Layers, c: Handle) {
    LayerAt(layers, c) + FromParent(l, layers, c) == LayerAt(layers, c)
  }

  lemma {:induction false} NestedUnchanged(l: Links, layers: Layers, order: seq<Handle>, x: Handle)
    requires WellFounded(l) && LayersNested(l, layers)
    ensures LayerAt(Recovered(l, layers, order), x) == LayerAt(layers, x)
  {
    if order != [] {
      var n := |order| - 1;
      var h := order[n];
      NestedUnchanged(l, layers, order[..n], x);
      NestedUnchanged(l, layers, order[..n], h);
      if h in l && l[h].Some? { NestedUnchanged(l, layers, order[..n], l[h].value); }
    }
  }

  lemma RootsAreRoots(l: Links, vols: seq<Handle>, h: Handle)
    requires h in RootsOf(l, vols)
    ensures h in l && l[h].None?
  {
    if vols != [] && h in RootsOf(l, vols[..|vols| - 1]) { RootsAreRoots(l, vols[..|vols| - 1], h); }
  }

  /** Recovering roots changes no layer's contents. */
  lemma {:induction false} RootsUnchanged(l: Links, layers: Layers, order: seq<Handle>, x: Handle)
    requires forall h <- order :: h in l && l[h].None?
    ensures LayerAt(Recovered(l, layers, order), x) == LayerAt(layers, x)
  {
    if order != [] { RootsUnchanged(l, layers, order[..|order| - 1], x); }
  }

  /** The layers that Recover leaves. */
  function AfterRecover(l: Links, layers: Layers, vols: seq<Handle>): Layers {
    Recovered(l, Recovered(l, layers, RootsOf(l, vols)), CowsOf(l, vols))
  }

  lemma RootsPassUnchanged(l: Links, layers: Layers, vols: seq<Handle>, x: Handle)
    ensures LayerAt(Recovered(l, layers, RootsOf(l, vols)), x) == LayerAt(layers, x)
  {
    forall h | h in RootsOf(l, vols) ensures h in l && l[h].None? { RootsAreRoots(l, vols, h); }
    RootsUnchanged(l, layers, RootsOf(l, vols), x);
  }

  lemma UnchangedIsNested(l: Links, layers: Layers, cows: seq<Handle>, c: Handle)
    requires WellFounded(l) && c in l
    requires forall i, j | 0 <= i < j < |cows| :: cows[i] != cows[j]
    requires l[c].Some? ==> c in cows
    requires forall x <- l :: LayerAt(Recovered(l, layers, cows), x) == LayerAt(layers, x)
    ensures NestedAt(l, layers, c)
  {
    if l[c].Some? {
      var i :| 0 <= i < |cows| && cows[i] == c;
      RecoveredLayer(l, layers, cows, i);
    }
  }

  /** Recovery keeps every layer exactly when the layers are nested. */
  lemma RecoverKeepsLayersExact(l: Links, layers: Layers, vols: seq<Handle>)
    requires WellFounded(l) && Lists(vols, l)
    ensures (forall x <- l :: LayerAt(AfterRecover(l, layers, vols), x) == LayerAt(layers, x)) <==>
      LayersNested(l, layers)
  {
    var mid := Recovered(l, layers, RootsOf(l, vols));
    var cows := CowsOf(l, vols);
    forall x ensures LayerAt(mid, x) == LayerAt(layers, x) { RootsPassUnchanged(l, layers, vols, x); }
    assert LayersNested(l, layers) <==> LayersNested(l, mid);
    if LayersNested(l, mid) {
      forall x ensures LayerAt(Recovered(l, mid, cows), x) == LayerAt(mid, x) { NestedUnchanged(l, mid, cows, x); }
    }
    if forall x <- l :: LayerAt(Recovered(l, mid, cows), x) == LayerAt(mid, x) {
      CowsAre(l, vols);
      forall c | c in l
        ensures NestedAt(l, mid, c)
      {
        UnchangedIsNested(l, mid, cows, c);
      }
    }
  }

  /** With nested layers every volume shows after recovery what it showed before the restart. */
  lemma RecoverKeepsVolumes(d: Disk, vols: seq<Handle>, h: Handle)
    requires Inv(d) && Lists(vols, d.links) && LayersNested(d.links, d.layers) && h in d.links
    ensures Show(AfterRecover(d.links, d.layers, vols), HomeMount(d.links, h)) == Contents(d, h)
  {
    RecoverKeepsLayersExact(d.links, d.layers, vols);
    RootInLinks(d.links, h);
    SameHomeLayers(d.links, d.layers, AfterRecover(d.links, d.layers, vols), h);
  }

  /** Every layered parent comes before its layered children. */
  ghost predicate ParentsFirst(l: Links, cows: seq<Handle>) {
    forall i | 0 <= i < |cows| && cows[i] in l && l[cows[i]].Some? ::
      var p := l[cows[i]].value; p in l && l[p].Some? ==> p in cows[..i]
  }

  /** One recovery suffices when parents are listed first: a second one changes no layer. */
  lemma RecoverTwice(l: Links, layers: Layers, vols: seq<Handle>, again: seq<Handle>)
    requires WellFounded(l) && Lists(vols, l) && Lists(again, l) && ParentsFirst(l, CowsOf(l, vols))
    ensures var once := AfterRecover(l, layers, vols);
      forall x <- l :: LayerAt(AfterRecover(l, once, again), x) == LayerAt(once, x)
  {
    var once := AfterRecover(l, layers, vols);
    forall c | c in l
      ensures NestedAt(l, once, c)
    {
      ParentsFirstNested(l, layers, vols, c);
    }
    RecoverKeepsLayersExact(l, once, again);
  }

  lemma ParentsFirstNested(l: Links, layers: Layers, vols: seq<Handle>, c: Handle)
    requires WellFounded(l) && Lists(vols, l) && ParentsFirst(l, CowsOf(l, vols)) && c in l
    ensures NestedAt(l, AfterRecover(l, layers, vols), c)
  {
    if l[c].Some? {
      var cows, mid := CowsOf(l, vols), Recovered(l, layers, RootsOf(l, vols));
      CowsAre(l, vols);
      assert c in cows;
      var i :| 0 <= i < |cows| && cows[i] == c;
      RecoveredLayer(l, mid, cows, i);
      OverrideTwice(LayerAt(mid, c), FromParent(l, AfterRecover(l, layers, vols), c));
    } else {
      OverrideTwice(LayerAt(AfterRecover(l, layers, vols), c), map[]);
    }
  }

  lemma OverrideTwice(a: Layer, b: Layer)
    ensures a + b + b == a + b && a + map[] == a
  {}

  /** A layered volume listed before its layered parent. */
  ghost predicate ListedLate(l: Links, cows: seq<Handle>, i: int, j: int) {
    0 <= i < j < |cows| && cows[i] in l && cows[j] in l && l[cows[i]] == Some(cows[j]) && l[cows[j]].Some?
  }

  /** What recovery lays over the parent is already in the volume's layer overridden by the
      parent's. */
  ghost predicate Settled(l: Links, layers: Layers, cows: seq<Handle>, i: int, j: int)
    requires ListedLate(l, cows, i, j)
  {
    var own := LayerAt(layers, cows[i]) + LayerAt(layers, cows[j]);
    own + LaidOver(l, layers, cows, j) == own
  }

  /** A second recovery changes no layer exactly when each layered volume listed before its
      layered parent already has what the first recovery lays over the parent. */
  lemma RecoverTwiceExact(l: Links, layers: Layers, vols: seq<Handle>, again: seq<Handle>)
    requires WellFounded(l) && Lists(vols, l) && Lists(again, l)
    ensures
      var once, cows := AfterRecover(l, layers, vols), CowsOf(l, vols);
      (forall x <- l :: LayerAt(AfterRecover(l, once, again), x) == LayerAt(once, x)) <==>
        forall i, j | ListedLate(l, cows, i, j) :: Settled(l, layers, cows, i, j)
  {
    var once, cows := AfterRecover(l, layers, vols), CowsOf(l, vols);
    RecoverKeepsLayersExact(l, once, again);
    forall i, j | ListedLate(l, cows, i, j)
      ensures NestedAt(l, once, cows[i]) <==> Settled(l, layers, cows, i, j)
    {
      LateParentNested(l, layers, vols, i, j);
    }
    if forall i, j | ListedLate(l, cows, i, j) :: Settled(l, layers, cows, i, j) {
      forall c | c in l ensures NestedAt(l, once, c) { SettledIsNested(l, layers, vols, c); }
    }
  }

  lemma SettledIsNested(l: Links, layers: Layers, vols: seq<Handle>, c: Handle)
    requires WellFounded(l) && Lists(vols, l) && c in l
    requires var cows := CowsOf(l, vols); forall i, j | ListedLate(l, cows, i, j) :: Settled(l, layers, cows, i, j)
    ensures NestedAt(l, AfterRecover(l, layers, vols), c)
  {
    var cows := CowsOf(l, vols);
    CowsAre(l, vols);
    if l[c].None? || l[c].value !in l || l[l[c].value].None? {
      OverrideTwice(LayerAt(AfterRecover(l, layers, vols), c), map[]);
    } else {
      var i := IndexOf(cows, c);
      var j := IndexOf(cows, l[c].value);
      NotItsOwnParent(l, c);
      if j < i {
        PassedParentNested(l, layers, vols, i, j);
      } else {
        assert ListedLate(l, cows, i, j) && Settled(l, layers, cows, i, j);
        LateParentNested(l, layers, vols, i, j);
      }
    }
  }

  lemma LateParentNested(l: Links, layers: Layers, vols: seq<Handle>, i: int, j: int)
    requires WellFounded(l) && Lists(vols, l) && ListedLate(l, CowsOf(l, vols), i, j)
    ensures NestedAt(l, AfterRecover(l, layers, vols), CowsOf(l, vols)[i]) <==>
      Settled(l, layers, CowsOf(l, vols), i, j)
  {
    var cows := CowsOf(l, vols);
    CowsAre(l, vols);
    assert cows[j] !in cows[..i];
    LateParent(l, layers, vols, i);
    LaidOverIs(l, layers, vols, j);
    OverrideChain(LayerAt(layers, cows[i]), LayerAt(layers, cows[j]), LaidOver(l, layers, cows, j));
  }

  lemma OverrideChain(a: Layer, b: Layer, c: Layer)
    ensures (a + b) + (b + c) == (a + b) + c
  {}

  lemma IndexOf(hs: seq<Handle>, h: Handle) returns (i: nat)
    requires h in hs
    ensures i < |hs| && hs[i] == h
  {
    i :| i < |hs| && hs[i] == h;
  }

  lemma PassedParentNested(l: Links, layers: Layers, vols: seq<Handle>, i: nat, j: nat)
    requires WellFounded(l) && Lists(vols, l) && j < i < |CowsOf(l, vols)|
    requires var cows := CowsOf(l, vols); cows[i] in l && l[cows[i]] == Some(cows[j])
    ensures NestedAt(l, AfterRecover(l, layers, vols), CowsOf(l, vols)[i])
  {
    var cows, mid := CowsOf(l, vols), Recovered(l, layers, RootsOf(l, vols));
    CowsAre(l, vols);
    assert cows[..i][j] == cows[j];
    RecoveredLayer(l, mid, cows, i);
    OverrideTwice(LayerAt(mid, cows[i]), FromParent(l, AfterRecover(l, layers, vols), cows[i]));
  }

  lemma NotItsOwnParent(l: Links, c: Handle)
    requires WellFounded(l) && c in l
    ensures l[c] != Some(c)
  {
    var rank :| RankedBy(l, rank);
  }

  /** With children listed first recovery is not done after one pass: over `r`, `a`, `b` and `c`
      in a chain, what `a` has reaches `b` the first time and `c` only the second. */
  lemma RecoverTwiceDiffers(r: Handle, a: Handle, b: Handle, c: Handle, x: Path, v: Node)
    requires r != a && r != b && r != c && a != b && a != c && b != c
    ensures
      var l: Links := map[r := None, a := Some(r), b := Some(a), c := Some(b)];
      var layers: Layers := map[r := map[], a := map[x := File(v)], b := map[], c := map[]];
      var once := AfterRecover(l, layers, [c, b, a, r]);
      && WellFounded(l) && Lists([c, b, a, r], l)
      && LayerAt(once, c) == map[] && LayerAt(AfterRecover(l, once, [c, b, a, r]), c) == map[x := File(v)]
  {
    var l: Links := map[r := None, a := Some(r), b := Some(a), c := Some(b)];
    var layers: Layers := map[r := map[], a := map[x := File(v)], b := map[], c := map[]];
    assert RankedBy(l, map[r := 0, a := 1, b := 2, c := 3]);
    ChainTwice(l, layers, r, a, b, c);
  }

  lemma ChainTwice(l: Links, layers: Layers, r: Handle, a: Handle, b: Handle, c: Handle)
    requires WellFounded(l) && Lists([c, b, a, r], l)
    requires l[r].None? && l[a].Some? && l[b] == Some(a) && l[c] == Some(b)
    requires LayerAt(layers, b) == map[] && LayerAt(layers, c) == map[]
    ensures var once := AfterRecover(l, layers, [c, b, a, r]);
      LayerAt(once, c) == map[] && LayerAt(AfterRecover(l, once, [c, b, a, r]), c) == LayerAt(layers, a)
  {
    ChainOnce(l, layers, r, a, b, c);
    ChainOnce(l, AfterRecover(l, layers, [c, b, a, r]), r, a, b, c);
    var none: Layer := map[];
    assert none + LayerAt(layers, a) == LayerAt(layers, a) && none + none == none;
  }

  /** One pass over a chain listed from the bottom: each volume gets its parent's old layer. */
  lemma ChainOnce(l: Links, layers: Layers, r: Handle, a: Handle, b: Handle, c: Handle)
    requires WellFounded(l) && Lists([c, b, a, r], l)
    requires l[r].None? && l[a].Some? && l[b] == Some(a) && l[c] == Some(b)
    ensures var once := AfterRecover(l, layers, [c, b, a, r]);
      && LayerAt(once, c) == LayerAt(layers, c) + LayerAt(layers, b)
      && LayerAt(once, b) == LayerAt(layers, b) + LayerAt(layers, a)
  {
    var vols := [c, b, a, r];
    assert vols[0] == c && vols[1] == b && vols[2] == a && vols[3] == r && a != c;
    CowsOfChain(l, r, a, b, c);
    var cows := CowsOf(l, vols);
    assert cows[0] == c && cows[1] == b && cows[..1] == [c];
    LateParent(l, layers, vols, 0);
    LateParent(l, layers, vols, 1);
  }

  /** A volume whose parent recovery has not reached gets the parent's layer as it was. */
  lemma LateParent(l: Links, layers: Layers, vols: seq<Handle>, i: nat)
    requires WellFounded(l) && Lists(vols, l) && i < |CowsOf(l, vols)|
    requires var c := CowsOf(l, vols)[i]; c in l && l[c].Some? && l[c].value !in CowsOf(l, vols)[..i]
    ensures var c := CowsOf(l, vols)[i];
      LayerAt(AfterRecover(l, layers, vols), c) == LayerAt(layers, c) + FromParent(l, layers, c)
  {
    LaidOverIs(l, layers, vols, i);
  }

  lemma CowsOfChain(l: Links, r: Handle, a: Handle, b: Handle, c: Handle)
    requires r in l && a in l && b in l && c in l
    requires l[r].None? && l[a].Some? && l[b].Some? && l[c].Some?
    ensures CowsOf(l, [c, b, a, r]) == [c, b, a]
  {
    CowsSnoc(l, [], c);
    CowsSnoc(l, [c], b);
    CowsSnoc(l, [c, b], a);
    CowsSnoc(l, [c, b, a], r);
    assert [] + [c] == [c] && [c] + [b] == [c, b] && [c, b] + [a] == [c, b, a] && [c, b, a] + [r] == [c, b, a, r];
  }

  lemma CowsSnoc(l: Links, vols: seq<Handle>, h: Handle)
    requires h in l
    ensures CowsOf(l, vols + [h]) == CowsOf(l, vols) + if l[h].Some? then [h] else []
  {
    assert (vols + [h])[..|vols|] == vols;
  }

  /** Over an unchanged root, overriding a layer keeps what is shown exactly when each path of
      the overriding layer shows the same before and after. */
  lemma OverrideExact(lower: Tree, layer: Layer, over: Layer)
    ensures Merge(lower, layer + over) == Merge(lower, layer) <==>
      forall p <- over :: Seen(lower, over, p) == Seen(lower, layer, p)
  {
    forall p
      ensures Get(Merge(lower, layer + over), p) == Seen(lower, layer + over, p)
      ensures Get(Merge(lower, layer), p) == Seen(lower, layer, p)
    {
      MergeIsSeen(lower, layer + over, p);
      MergeIsSeen(lower, layer, p);
    }
    if forall p <- over :: Seen(lower, over, p) == Seen(lower, layer, p) {
      SameTree(Merge(lower, layer + over), Merge(lower, layer));
    }
    if Merge(lower, layer + over) == Merge(lower, layer) {
      forall p | p in over
        ensures Seen(lower, over, p) == Seen(lower, layer, p)
      {
        assert Get(Merge(lower, layer + over), p) == Get(Merge(lower, layer), p);
      }
    }
  }

  /** Recovery undoes writes: whatever the disk, let `b` be created over a volume `a` that sits
      on a root, and let `b` write a path that the layer of `a` has.  After a restart `b` is
      back to the version of `a`. */
  lemma RecoverUndoesWrite(d: Disk, a: Handle, b: Handle, x: Path, w: Node, vols: seq<Handle>)
    requires Inv(d) && a in d.links && d.links[a].Some? && d.links[d.links[a].value].None?
    requires Legal(d, CreateCow(b, a)) && x in LayerAt(d.layers, a)
    requires Lists(vols, d.links[b := Some(a)])
    ensures
      var d1 := Step(d, CreateCow(b, a));
      && Inv(d1) && Legal(d1, Edit(b, x, Some(w)))
      && var d2 := Step(d1, Edit(b, x, Some(w)));
         && Inv(d2)
         && Get(Contents(d2, b), x) == Some(w)
         && Get(Show(AfterRecover(d2.links, d2.layers, vols), HomeMount(d2.links, b)), x) ==
            Seen(map[], LayerAt(d.layers, a), x)
  {
    var d1 := Step(d, CreateCow(b, a));
    StepKeepsInv(d, CreateCow(b, a));
    var d2 := Step(d1, Edit(b, x, Some(w)));
    StepKeepsInv(d1, Edit(b, x, Some(w)));
    var l := d2.links;
    MergeIsSeen(Show(d2.layers, Bind(Root(l, b))), LayerAt(d2.layers, b), x);
    RecoveredAtop(l, d2.layers, vols, a, b);
    var final := AfterRecover(l, d2.layers, vols);
    MergeIsSeen(Show(final, Bind(Root(l, b))), LayerAt(final, b), x);
  }

  /** What recovery makes of a layered volume, by the layers before and after. */
  lemma RecoveredCow(l: Links, layers: Layers, vols: seq<Handle>, c: Handle)
    requires WellFounded(l) && Lists(vols, l) && c in l && l[c].Some?
    ensures
      var final := AfterRecover(l, layers, vols);
      || LayerAt(final, c) == LayerAt(layers, c) + FromParent(l, final, c)
      || LayerAt(final, c) == LayerAt(layers, c) + FromParent(l, layers, c)
  {
    CowsAre(l, vols);
    var cows := CowsOf(l, vols);
    var mid := Recovered(l, layers, RootsOf(l, vols));
    RootsPassUnchanged(l, layers, vols, c);
    RootsPassUnchanged(l, layers, vols, l[c].value);
    assert c in cows;
    var i :| 0 <= i < |cows| && cows[i] == c;
    RecoveredLayer(l, mid, cows, i);
  }

  /** What recovery lays over the layer of a layered volume, by the layers beforehand: the
      layer of its parent, which has been through recovery if the listing has it earlier. */
  function LaidOver(l: Links, layers: Layers, cows: seq<Handle>, i: nat): Layer
    requires i < |cows| && cows[i] in l && l[cows[i]].Some?
  {
    FromParent(l, if l[cows[i]].value in cows[..i] then Recovered(l, layers, cows[..i]) else layers, cows[i])
  }

  /** Recovery keeps what a layered volume shows exactly when each path of the layer laid over
      it shows the same there as in the volume. */
  lemma RecoverKeepsViewExact(l: Links, layers: Layers, vols: seq<Handle>, i: nat)
    requires WellFounded(l) && Lists(vols, l) && i < |CowsOf(l, vols)|
    requires CowsOf(l, vols)[i] in l && l[CowsOf(l, vols)[i]].Some?
    ensures
      var c := CowsOf(l, vols)[i];
      var root := Show(layers, Bind(Root(l, c)));
      var over := LaidOver(l, layers, CowsOf(l, vols), i);
      Show(AfterRecover(l, layers, vols), HomeMount(l, c)) == Show(layers, HomeMount(l, c)) <==>
        forall p <- over :: Seen(root, over, p) == Seen(root, LayerAt(layers, c), p)
  {
    var cows := CowsOf(l, vols);
    var c := cows[i];
    var over := LaidOver(l, layers, cows, i);
    LaidOverIs(l, layers, vols, i);
    RootKept(l, layers, vols, c);
    OverrideExact(Show(layers, Bind(Root(l, c))), LayerAt(layers, c), over);
  }

  /** Recovery depends on what the layers hold and on nothing else about them. */
  lemma {:induction false} RecoveredAlike(l: Links, a: Layers, b: Layers, order: seq<Handle>, x: Handle)
    requires forall y :: LayerAt(a, y) == LayerAt(b, y)
    ensures LayerAt(Recovered(l, a, order), x) == LayerAt(Recovered(l, b, order), x)
  {
    if order != [] {
      var n := |order| - 1;
      var h := order[n];
      RecoveredAlike(l, a, b, order[..n], x);
      RecoveredAlike(l, a, b, order[..n], h);
      if h in l && l[h].Some? { RecoveredAlike(l, a, b, order[..n], l[h].value); }
    }
  }

  lemma LaidOverIs(l: Links, layers: Layers, vols: seq<Handle>, i: nat)
    requires WellFounded(l) && Lists(vols, l) && i < |CowsOf(l, vols)|
    requires CowsOf(l, vols)[i] in l && l[CowsOf(l, vols)[i]].Some?
    ensures
      var c := CowsOf(l, vols)[i];
      LayerAt(AfterRecover(l, layers, vols), c) == LayerAt(layers, c) + LaidOver(l, layers, CowsOf(l, vols), i)
  {
    var cows := CowsOf(l, vols);
    var p := l[cows[i]].value;
    var mid := Recovered(l, layers, RootsOf(l, vols));
    CowsAre(l, vols);
    forall y ensures LayerAt(mid, y) == LayerAt(layers, y) { RootsPassUnchanged(l, layers, vols, y); }
    RecoveredLayer(l, mid, cows, i);
    RecoveredAlike(l, mid, layers, cows[..i], p);
    if p in cows[..i] {
      assert p !in cows[i..];
      RecoveredOnce(l, mid, cows, i, p);
    }
  }

  lemma RootKept(l: Links, layers: Layers, vols: seq<Handle>, h: Handle)
    requires WellFounded(l) && h in l
    ensures LayerAt(AfterRecover(l, layers, vols), Root(l, h)) == LayerAt(layers, Root(l, h))
  {
    RootInLinks(l, h);
    CowsAre(l, vols);
    RootsPassUnchanged(l, layers, vols, Root(l, h));
    RecoveredElsewhere(l, Recovered(l, layers, RootsOf(l, vols)), CowsOf(l, vols), Root(l, h));
  }

  lemma RecoveredAtop(l: Links, layers: Layers, vols: seq<Handle>, a: Handle, b: Handle)
    requires WellFounded(l) && Lists(vols, l)
    requires b in l && l[b] == Some(a) && l[a].Some? && l[l[a].value].None?
    ensures LayerAt(AfterRecover(l, layers, vols), b) == LayerAt(layers, b) + LayerAt(layers, a)
  {
    RecoveredCow(l, layers, vols, a);
    RecoveredCow(l, layers, vols, b);
    assert LayerAt(layers, a) + map[] == LayerAt(layers, a);
  }

  /** The smallest instance: `b` over `a` over `r`, with `a` and `b` each holding its own
      version of a file. */
  lemma RecoverLosesWrite(r: Handle, a: Handle, b: Handle, x: Path, v: Node, w: Node)
    requires r != a && r != b && a != b
    ensures
      var l: Links := map[r := None, a := Some(r), b := Some(a)];
      var layers: Layers := map[r := map[], a := map[x := File(v)], b := map[x := File(w)]];
      && WellFounded(l) && Lists([a, b, r], l)
      && Get(Show(layers, HomeMount(l, b)), x) == Some(w)
      && Get(Show(AfterRecover(l, layers, [a, b, r]), HomeMount(l, b)), x) == Some(v)
  {
    var l: Links := map[r := None, a := Some(r), b := Some(a)];
    var layers: Layers := map[r := map[], a := map[x := File(v)], b := map[x := File(w)]];
    assert RankedBy(l, map[r := 0, a := 1, b := 2]);
    assert Root(l, r) == r;
    assert Root(l, a) == r;
    assert Root(l, b) == Root(l, a);
    RecoveredAtop(l, layers, [a, b, r], a, b);
    MergeIsSeen(Show(layers, Bind(r)), LayerAt(layers, b), x);
    var final := AfterRecover(l, layers, [a, b, r]);
    MergeIsSeen(Show(final, Bind(r)), LayerAt(final, b), x);
  }
}
