/** Whether file owners follow the privileged flag, over the overlay driver.

    A change of privilege walks the volume and changes the owner of one file after the other
    through the volume's mount.  A volume layered over a root shows the root's files where its
    own layer has nothing, so a walk over a root changes what the volumes over it show. */
module Ownership {
  import opened Wrappers
  import opened Forest
  import opened Overlay
  import opened OverlayLimits
  import Id = IdMapping

  /** A file with its owner mapped for a privileged or an unprivileged volume. */
  function Mapped(q: bool, maxID: int, n: Node): Node {
    n.(uid := Id.Find(Id.Ranges(q, maxID), n.uid), gid := Id.Find(Id.Ranges(q, maxID), n.gid))
  }

  /** The id that a volume must not have: the one that its mapping maps away. */
  function Forbidden(q: bool, maxID: int): int {
    if q then maxID else 0
  }

  predicate Has(n: Node, id: int) {
    n.uid == id || n.gid == id
  }

  ghost predicate Clean(t: Tree, id: int) {
    forall p <- t :: !Has(t[p], id)
  }

  lemma MappedIs(q: bool, maxID: int, n: Node)
    requires maxID >= 1
    ensures !Has(Mapped(q, maxID, n), Forbidden(q, maxID))
    ensures Mapped(q, maxID, n) != n <==> Has(n, Forbidden(q, maxID))
    ensures Has(Mapped(q, maxID, n), Forbidden(!q, maxID)) <==>
      Has(n, Forbidden(q, maxID)) || Has(n, Forbidden(!q, maxID))
    ensures Mapped(q, maxID, Mapped(q, maxID, n)) == Mapped(q, maxID, n)
  {
    var m := Mapped(q, maxID, n);
    Id.FindIs(q, maxID, n.uid);
    Id.FindIs(q, maxID, n.gid);
    Id.FindIs(q, maxID, m.uid);
    Id.FindIs(q, maxID, m.gid);
  }

  /******* Walks *******/

  /** The disk after a walk over a volume's paths that changes the owner of each file whose owner
      is mapped to another. */
  ghost function Walk(d: Disk, h: Handle, q: bool, maxID: int, walk: seq<Path>): (d': Disk)
    requires WellFounded(d.links) && h in d.links
    ensures d'.links == d.links
  {
    if walk == [] then d
    else
      var before, p := Walk(d, h, q, maxID, walk[..|walk| - 1]), walk[|walk| - 1];
      var t := Contents(before, h);
      if p in t && Mapped(q, maxID, t[p]) != t[p] then Step(before, Edit(h, p, Some(Mapped(q, maxID, t[p]))))
      else before
  }

  /** The disk after files have been put into a volume. */
  ghost function Filled(d: Disk, h: Handle, files: seq<(Path, Node)>): (d': Disk)
    requires WellFounded(d.links) && h in d.links
    ensures d'.links == d.links
  {
    if files == [] then d
    else
      var n := |files| - 1;
      Step(Filled(d, h, files[..n]), Edit(h, files[n].0, Some(files[n].1)))
  }

  /** Nothing but the layer of one volume has changed. */
  ghost predicate Touched(d: Disk, d': Disk, h: Handle) {
    d'.links == d.links && d'.mounts == d.mounts && OnlyLayer(d.layers, d'.layers, h) && Inv(d')
  }

  lemma EditTouches(d: Disk, h: Handle, p: Path, content: Option<Node>)
    requires Inv(d) && h in d.links
    ensures var d' := Step(d, Edit(h, p, content));
      Touched(d, d', h) && Contents(d', h) == Put(Contents(d, h), p, content)
  {
    var d' := Step(d, Edit(h, p, content));
    assert LiveMount(d.mounts, h) == HomeMount(d.links, h);
    OwnLayerOnly(d.layers, h, LayerAt(d'.layers, h));
    EditShown(d, h, p, content);
  }

  lemma {:induction false} FilledTouches(d: Disk, h: Handle, files: seq<(Path, Node)>)
    requires Inv(d) && h in d.links
    ensures Touched(d, Filled(d, h, files), h)
  {
    if files != [] {
      var n := |files| - 1;
      FilledTouches(d, h, files[..n]);
      EditTouches(Filled(d, h, files[..n]), h, files[n].0, Some(files[n].1));
    }
  }

  function MappedAt(q: bool, maxID: int, t: Tree, walk: seq<Path>): Tree {
    map p | p in t :: if p in walk then Mapped(q, maxID, t[p]) else t[p]
  }

  lemma MappedSnoc(q: bool, maxID: int, t: Tree, walk: seq<Path>, p: Path)
    requires maxID >= 1
    ensures
      var before := MappedAt(q, maxID, t, walk);
      MappedAt(q, maxID, t, walk + [p]) ==
        if p in before then Put(before, p, Some(Mapped(q, maxID, before[p]))) else before
  {
    if p in t { MappedIs(q, maxID, t[p]); }
  }

  /** One step of a walk. */
  lemma PathMapped(d: Disk, h: Handle, q: bool, maxID: int, walk: seq<Path>)
    requires WellFounded(d.links) && h in d.links && walk != [] && Inv(Walk(d, h, q, maxID, walk[..|walk| - 1]))
    ensures
      var before, after := Walk(d, h, q, maxID, walk[..|walk| - 1]), Walk(d, h, q, maxID, walk);
      var t, p := Contents(before, h), walk[|walk| - 1];
      && Touched(before, after, h)
      && Contents(after, h) == if p in t then Put(t, p, Some(Mapped(q, maxID, t[p]))) else t
  {
    var before, p := Walk(d, h, q, maxID, walk[..|walk| - 1]), walk[|walk| - 1];
    var t := Contents(before, h);
    if p in t {
      EditTouches(before, h, p, Some(Mapped(q, maxID, t[p])));
      assert Mapped(q, maxID, t[p]) == t[p] ==> Put(t, p, Some(t[p])) == t;
    }
  }

  /** A walk maps exactly the files it meets, however often it meets them. */
  lemma {:induction false} WalkMaps(d: Disk, h: Handle, q: bool, maxID: int, walk: seq<Path>)
    requires Inv(d) && h in d.links && maxID >= 1
    ensures var d' := Walk(d, h, q, maxID, walk);
      Touched(d, d', h) && Contents(d', h) == MappedAt(q, maxID, Contents(d, h), walk)
  {
    if walk == [] {
      assert MappedAt(q, maxID, Contents(d, h), []) == Contents(d, h);
    } else {
      var n := |walk| - 1;
      WalkMaps(d, h, q, maxID, walk[..n]);
      PathMapped(d, h, q, maxID, walk);
      MappedSnoc(q, maxID, Contents(d, h), walk[..n], walk[n]);
      assert walk[..n] + [walk[n]] == walk;
    }
  }

  /** A walk that meets every path leaves no file of the id that it maps away. */
  lemma WalkCleans(d: Disk, h: Handle, q: bool, maxID: int, walk: seq<Path>)
    requires Inv(d) && h in d.links && maxID >= 1 && forall p <- Contents(d, h) :: p in walk
    ensures Clean(Contents(Walk(d, h, q, maxID, walk), h), Forbidden(q, maxID))
  {
    WalkMaps(d, h, q, maxID, walk);
    var t := Contents(d, h);
    forall p | p in t ensures !Has(Mapped(q, maxID, t[p]), Forbidden(q, maxID)) { MappedIs(q, maxID, t[p]); }
  }

  /** What happens to one volume's layer reaches only the volumes over it. */
  lemma TouchedFrame(d: Disk, d': Disk, h: Handle, x: Handle)
    requires Inv(d) && Touched(d, d', h) && x in d.links && x != h && Root(d.links, x) != h
    ensures Contents(d', x) == Contents(d, x)
  {
    OtherLayersKept(d.layers, d'.layers, h, x);
    OtherLayersKept(d.layers, d'.layers, h, Root(d.links, x));
    SameHomeLayers(d.links, d.layers, d'.layers, x);
  }

  lemma OverRootShows(d: Disk, r: Handle, c: Handle)
    requires Inv(d) && r in d.links && c in d.links && c != r && Root(d.links, c) == r
    ensures Contents(d, c) == Merge(Contents(d, r), LayerAt(d.layers, c))
  {
    RootInLinks(d.links, c);
    StackedShows(d.layers, r, c);
  }

  lemma OnlyRootsAreBelow(l: Links, h: Handle, c: Handle)
    requires WellFounded(l) && h in l && c in l && c != h && Root(l, c) == h
    ensures l[h].None?
  {
    RootInLinks(l, c);
  }

  /******* A privilege change, exactly *******/

  /** The layer of `c` has every path at which `r` has a file of the id. */
  ghost predicate Covers(d: Disk, c: Handle, r: Handle, id: int) {
    var t := Contents(d, r);
    forall p <- t :: Has(t[p], id) ==> p in LayerAt(d.layers, c)
  }

  lemma ShownOver(d: Disk, d': Disk, h: Handle, c: Handle, q: bool, maxID: int, walk: seq<Path>, p: Path)
    requires Inv(d) && h in d.links && maxID >= 1 && d' == Walk(d, h, q, maxID, walk)
    requires forall p <- Contents(d, h) :: p in walk
    requires c in d.links && c != h && Root(d.links, c) == h
    ensures
      var t := Contents(d, h);
      Get(Contents(d', c), p) ==
        if p in t && p !in LayerAt(d.layers, c) then Some(Mapped(q, maxID, t[p])) else Get(Contents(d, c), p)
  {
    WalkMaps(d, h, q, maxID, walk);
    OverRootShows(d, h, c);
    OverRootShows(d', h, c);
    OtherLayersKept(d.layers, d'.layers, h, c);
    MergeIsSeen(Contents(d, h), LayerAt(d.layers, c), p);
    MergeIsSeen(Contents(d', h), LayerAt(d.layers, c), p);
  }

  /** After a change of a root's privilege a clean volume over it is clean if and only if its flag
      is the one set, or its own layer has every path at which the root had a file of the id
      that the change maps away. */
  lemma PrivilegeChangeExact(d: Disk, h: Handle, c: Handle, flag: bool, q: bool, maxID: int, walk: seq<Path>)
    requires Inv(d) && h in d.links && maxID >= 1 && forall p <- Contents(d, h) :: p in walk
    requires c in d.links && c != h && Root(d.links, c) == h && Clean(Contents(d, c), Forbidden(flag, maxID))
    ensures Clean(Contents(Walk(d, h, q, maxID, walk), c), Forbidden(flag, maxID)) <==>
      flag == q || Covers(d, c, h, Forbidden(q, maxID))
  {
    var d', t := Walk(d, h, q, maxID, walk), Contents(d, h);
    forall p
      ensures Get(Contents(d', c), p) ==
        if p in t && p !in LayerAt(d.layers, c) then Some(Mapped(q, maxID, t[p])) else Get(Contents(d, c), p)
    {
      ShownOver(d, d', h, c, q, maxID, walk, p);
    }
    forall p | p in t && p !in LayerAt(d.layers, c)
      ensures Get(Contents(d, c), p) == Some(t[p])
    {
      OverRootShows(d, h, c);
      MergeIsSeen(t, LayerAt(d.layers, c), p);
    }
    CleanExact(Contents(d, c), Contents(d', c), t, LayerAt(d.layers, c), flag, q, maxID);
  }

  /** The same on trees: `u` and `u'` are what the volume shows before and after. */
  lemma CleanExact(u: Tree, u': Tree, t: Tree, layer: Layer, flag: bool, q: bool, maxID: int)
    requires maxID >= 1 && Clean(u, Forbidden(flag, maxID))
    requires forall p :: Get(u', p) == if p in t && p !in layer then Some(Mapped(q, maxID, t[p])) else Get(u, p)
    requires forall p | p in t && p !in layer :: Get(u, p) == Some(t[p])
    ensures Clean(u', Forbidden(flag, maxID)) <==>
      flag == q || forall p <- t :: Has(t[p], Forbidden(q, maxID)) ==> p in layer
  {
    var id := Forbidden(flag, maxID);
    forall p | p in t && p !in layer
      ensures p in u && u[p] == t[p] && p in u' && u'[p] == Mapped(q, maxID, t[p])
      ensures Has(u'[p], id) <==> flag != q && Has(t[p], Forbidden(q, maxID))
    {
      assert Get(u, p) == Some(t[p]) && Get(u', p) == Some(Mapped(q, maxID, t[p]));
      MappedIs(q, maxID, t[p]);
    }
    forall p | p in u' && (p !in t || p in layer)
      ensures !Has(u'[p], id)
    {
      assert Get(u', p) == Get(u, p);
    }
    if p :| p in t && Has(t[p], Forbidden(q, maxID)) && p !in layer {
      assert p in u' && (flag != q ==> Has(u'[p], id));
    }
  }

  /******* Runs *******/

  datatype State = State(d: Disk, flags: map<Handle, bool>)

  /** What the repository and the users of volumes do.  `walk` is the listing of the volume's
      paths that the change of owners goes by; Other is an edit, a destruction or an operation
      that fails. */
  datatype Request =
    | NewVolume(h: Handle, files: seq<(Path, Node)>, q: bool, walk: seq<Path>)
    | NewSubvolume(h: Handle, parent: Handle, q: bool, walk: seq<Path>)
    | SetPrivileged(h: Handle, q: bool, walk: seq<Path>)
    | Other(op: Op)

  /** The disk on which the walk of a request begins. */
  ghost function Before(d: Disk, r: Request): Disk
    requires WellFounded(d.links) && !r.Other?
    requires (r.NewVolume? ==> Legal(d, Op.Create(r.h))) && (r.NewSubvolume? ==> Legal(d, Op.CreateCow(r.h, r.parent)))
  {
    match r
    case NewVolume(h, files, _, _) =>
      LinksStayFounded(d, Op.Create(h));
      Filled(Step(d, Op.Create(h)), h, files)
    case NewSubvolume(h, parent, _, _) => Step(d, Op.CreateCow(h, parent))
    case SetPrivileged(_, _, _) => d
  }

  /** A volume's walk lists what it shows.  Volumes are created fresh; users give files no owner
      that the volume must not have; and a root whose privilege changes has over it only
      volumes with the same flag or whose layers cover the files that change owner. */
  ghost predicate Allowed(x: State, maxID: int, r: Request) {
    && WellFounded(x.d.links)
    && match r
       case NewVolume(h, files, q, walk) =>
         Legal(x.d, Op.Create(h)) && forall p <- Contents(Before(x.d, r), h) :: p in walk
       case NewSubvolume(h, parent, q, walk) =>
         Legal(x.d, Op.CreateCow(h, parent)) && forall p <- Contents(Before(x.d, r), h) :: p in walk
       case SetPrivileged(h, q, walk) =>
         && h in x.d.links && h in x.flags && (forall p <- Contents(x.d, h) :: p in walk)
         && Harmless(x, maxID, h, q)
       case Other(op) =>
         && Legal(x.d, op) && !op.Create? && !op.CreateCow?
         && (op.Edit? && op.content.Some? ==>
               op.h in x.flags && !Has(op.content.value, Forbidden(x.flags[op.h], maxID)))
  }

  ghost predicate Harmless(x: State, maxID: int, h: Handle, q: bool)
    requires WellFounded(x.d.links)
  {
    forall c | c in x.d.links && c in x.flags && c != h && Root(x.d.links, c) == h ::
      x.flags[c] == q || Covers(x.d, c, h, Forbidden(q, maxID))
  }

  ghost function Serve(x: State, maxID: int, r: Request): State
    requires Allowed(x, maxID, r)
  {
    match r
    case Other(op) => x.(d := Step(x.d, op))
    case _ =>
      var d := Before(x.d, r);
      if WellFounded(d.links) && r.h in d.links then State(Walk(d, r.h, r.q, maxID, r.walk), x.flags[r.h := r.q]) else x
  }

  ghost predicate Sound(x: State, maxID: int) {
    && Inv(x.d)
    && forall h <- x.d.links :: h in x.flags && Clean(Contents(x.d, h), Forbidden(x.flags[h], maxID))
  }

  lemma BeforeIs(d: Disk, r: Request)
    requires Inv(d) && !r.Other? && (r.SetPrivileged? ==> r.h in d.links)
    requires (r.NewVolume? ==> Legal(d, Op.Create(r.h))) && (r.NewSubvolume? ==> Legal(d, Op.CreateCow(r.h, r.parent)))
    ensures Inv(Before(d, r)) && r.h in Before(d, r).links
    ensures Before(d, r).links == (if r.NewVolume? then d.links[r.h := None]
                                   else if r.NewSubvolume? then d.links[r.h := Some(r.parent)] else d.links)
    ensures d.links.Keys <= Before(d, r).links.Keys
    ensures forall x <- Before(d, r).links :: x == r.h || (x in d.links && Contents(Before(d, r), x) == Contents(d, x))
    ensures !r.SetPrivileged? ==> forall x <- Before(d, r).links :: x != r.h ==> Root(Before(d, r).links, x) != r.h
  {
    match r
    case NewVolume(h, files, _, _) =>
      CreationIs(d, Op.Create(h));
      FilledTouches(Step(d, Op.Create(h)), h, files);
      forall x | x in d.links ensures Contents(Before(d, r), x) == Contents(d, x) {
        TouchedFrame(Step(d, Op.Create(h)), Before(d, r), h, x);
      }
    case NewSubvolume(h, parent, _, _) => CreationIs(d, Op.CreateCow(h, parent));
    case SetPrivileged(h, _, _) =>
  }

  lemma CreationIs(d: Disk, op: Op)
    requires Inv(d) && Legal(d, op) && (op.Create? || op.CreateCow?)
    ensures var d' := Step(d, op);
      && Inv(d') && d'.links.Keys == d.links.Keys + {op.h}
      && forall x <- d.links :: Contents(d', x) == Contents(d, x) && Root(d'.links, x) != op.h
  {
    var d' := Step(d, op);
    StepKeepsInv(d, op);
    forall x | x in d.links
      ensures Contents(d', x) == Contents(d, x) && Root(d'.links, x) != op.h
    {
      OthersKept(d, op, x);
      RootFrame(d.links, d'.links, x);
      RootInLinks(d.links, x);
    }
  }

  /** What a walk leaves of a volume other than its own. */
  lemma StaysClean(d: Disk, h: Handle, q: bool, maxID: int, walk: seq<Path>, c: Handle, flag: bool)
    requires Inv(d) && h in d.links && maxID >= 1 && forall p <- Contents(d, h) :: p in walk
    requires c in d.links && c != h && Clean(Contents(d, c), Forbidden(flag, maxID))
    requires Root(d.links, c) == h ==> flag == q || Covers(d, c, h, Forbidden(q, maxID))
    ensures Clean(Contents(Walk(d, h, q, maxID, walk), c), Forbidden(flag, maxID))
  {
    if Root(d.links, c) == h {
      PrivilegeChangeExact(d, h, c, flag, q, maxID, walk);
    } else {
      WalkMaps(d, h, q, maxID, walk);
      TouchedFrame(d, Walk(d, h, q, maxID, walk), h, c);
    }
  }

  lemma WalkSound(d: Disk, flags: map<Handle, bool>, h: Handle, q: bool, maxID: int, walk: seq<Path>)
    requires Inv(d) && h in d.links && maxID >= 1 && forall p <- Contents(d, h) :: p in walk
    requires forall c <- d.links :: c != h ==>
      && c in flags && Clean(Contents(d, c), Forbidden(flags[c], maxID))
      && (Root(d.links, c) == h ==> flags[c] == q || Covers(d, c, h, Forbidden(q, maxID)))
    ensures Sound(State(Walk(d, h, q, maxID, walk), flags[h := q]), maxID)
  {
    WalkMaps(d, h, q, maxID, walk);
    WalkCleans(d, h, q, maxID, walk);
    forall c | c in d.links && c != h
      ensures Clean(Contents(Walk(d, h, q, maxID, walk), c), Forbidden(flags[c], maxID))
    {
      StaysClean(d, h, q, maxID, walk, c, flags[c]);
    }
  }

  lemma WalkKeepsSound(x: State, maxID: int, r: Request)
    requires Sound(x, maxID) && Allowed(x, maxID, r) && maxID >= 1 && !r.Other?
    ensures Sound(Serve(x, maxID, r), maxID)
  {
    BeforeIs(x.d, r);
    WalkSound(Before(x.d, r), x.flags, r.h, r.q, maxID, r.walk);
  }

  lemma OtherKeepsSound(x: State, maxID: int, op: Op)
    requires Sound(x, maxID) && Allowed(x, maxID, Other(op))
    ensures Sound(Serve(x, maxID, Other(op)), maxID)
  {
    var d' := Step(x.d, op);
    StepKeepsInv(x.d, op);
    forall c | c in d'.links
      ensures c in x.flags && Clean(Contents(d', c), Forbidden(x.flags[c], maxID))
    {
      if c == op.h { EditShown(x.d, op.h, op.path, op.content); } else { OthersKept(x.d, op, c); }
    }
  }

  lemma ServeKeepsSound(x: State, maxID: int, r: Request)
    requires Sound(x, maxID) && Allowed(x, maxID, r) && maxID >= 1
    ensures Sound(Serve(x, maxID, r), maxID)
  {
    if r.Other? { OtherKeepsSound(x, maxID, r.op); } else { WalkKeepsSound(x, maxID, r); }
  }

  ghost predicate Run(xs: seq<State>, maxID: int, rs: seq<Request>) {
    && |xs| == |rs| + 1
    && xs[0] == State(Disk(map[], map[], map[]), map[])
    && forall i :: 0 <= i < |rs| ==> Allowed(xs[i], maxID, rs[i]) && xs[i + 1] == Serve(xs[i], maxID, rs[i])
  }

  /** Ownership follows the flag: in every run no unprivileged volume shows a file owned by id 0
      and no privileged volume one owned by the maximum id. */
  lemma {:induction false} OwnershipFollowsFlag(xs: seq<State>, maxID: int, rs: seq<Request>, i: nat)
    requires Run(xs, maxID, rs) && i < |xs| && maxID >= 1
    ensures Sound(xs[i], maxID)
  {
    if i == 0 {
      assert RankedBy(xs[0].d.links, map[]);
    } else {
      OwnershipFollowsFlag(xs, maxID, rs, i - 1);
      ServeKeepsSound(xs[i - 1], maxID, rs[i - 1]);
    }
  }

  /** The guard on a change of privilege is exact: every volume keeps its guarantee if and only
      if each volume over the one that changes has the same flag or covers what changes. */
  lemma SetPrivilegedExact(x: State, maxID: int, h: Handle, q: bool, walk: seq<Path>)
    requires Sound(x, maxID) && maxID >= 1 && h in x.d.links && forall p <- Contents(x.d, h) :: p in walk
    ensures Sound(State(Walk(x.d, h, q, maxID, walk), x.flags[h := q]), maxID) <==> Harmless(x, maxID, h, q)
  {
    var x' := State(Walk(x.d, h, q, maxID, walk), x.flags[h := q]);
    if Harmless(x, maxID, h, q) {
      WalkKeepsSound(x, maxID, SetPrivileged(h, q, walk));
      assert Serve(x, maxID, SetPrivileged(h, q, walk)) == x';
    } else {
      var c :| c in x.d.links && c in x.flags && c != h && Root(x.d.links, c) == h
        && x.flags[c] != q && !Covers(x.d, c, h, Forbidden(q, maxID));
      PrivilegeChangeExact(x.d, h, c, x.flags[c], q, maxID, walk);
      assert !Clean(Contents(x'.d, c), Forbidden(x'.flags[c], maxID));
    }
  }

  /******* What a request does *******/

  /** The one id that changes, and to what. */
  function Exchanged(q: bool, maxID: int, id: int): int {
    if q && id == maxID then 0 else if !q && id == 0 then maxID else id
  }

  /** Files laid out one after the other. */
  function Laid(t: Tree, files: seq<(Path, Node)>): Tree {
    if files == [] then t
    else
      var n := |files| - 1;
      Laid(t, files[..n])[files[n].0 := files[n].1]
  }

  lemma {:induction false} FilledShows(d: Disk, h: Handle, files: seq<(Path, Node)>)
    requires Inv(d) && h in d.links
    ensures Contents(Filled(d, h, files), h) == Laid(Contents(d, h), files)
  {
    if files != [] {
      var n := |files| - 1;
      FilledShows(d, h, files[..n]);
      FilledTouches(d, h, files[..n]);
      EditTouches(Filled(d, h, files[..n]), h, files[n].0, Some(files[n].1));
    }
  }

  /** What a volume holds when the walk of a request begins. */
  ghost function Given(d: Disk, r: Request): Tree
    requires !r.Other?
  {
    match r
    case NewVolume(_, files, _, _) => Laid(map[], files)
    case NewSubvolume(_, parent, _, _) => Contents(d, parent)
    case SetPrivileged(h, _, _) => Contents(d, h)
  }

  lemma BeforeShows(d: Disk, r: Request)
    requires Inv(d) && !r.Other? && (r.SetPrivileged? ==> r.h in d.links)
    requires r.NewVolume? ==> Legal(d, Op.Create(r.h))
    requires r.NewSubvolume? ==> Legal(d, Op.CreateCow(r.h, r.parent))
    ensures Contents(Before(d, r), r.h) == Given(d, r)
  {
    match r
    case NewVolume(h, files, _, _) =>
      CreationIs(d, Op.Create(h));
      CreatedShowsNothing(d, h);
      FilledShows(Step(d, Op.Create(h)), h, files);
    case NewSubvolume(h, parent, _, _) => CowShowsParent(d, h, parent);
    case SetPrivileged(_, _, _) =>
  }

  /** A creation or privilege change sets the flag it was asked to set and no other, shows exactly
      the files it was given with the one id exchanged, and leaves every volume alone that is
      not its own or layered over it. */
  lemma ServeDoes(x: State, maxID: int, r: Request)
    requires Inv(x.d) && Allowed(x, maxID, r) && maxID >= 1 && !r.Other?
    ensures
      var x', t := Serve(x, maxID, r), Given(x.d, r);
      && x'.flags == x.flags[r.h := r.q] && r.h in x'.d.links
      && x'.d.links == (if r.NewVolume? then x.d.links[r.h := None]
                        else if r.NewSubvolume? then x.d.links[r.h := Some(r.parent)] else x.d.links)
      && Contents(x'.d, r.h).Keys == t.Keys
      && (forall p <- t :: Contents(x'.d, r.h)[p] ==
            t[p].(uid := Exchanged(r.q, maxID, t[p].uid), gid := Exchanged(r.q, maxID, t[p].gid)))
      && (forall c <- x.d.links :: c != r.h && Root(x'.d.links, c) != r.h ==> Contents(x'.d, c) == Contents(x.d, c))
  {
    BeforeIs(x.d, r);
    BeforeShows(x.d, r);
    var d, t := Before(x.d, r), Given(x.d, r);
    WalkMaps(d, r.h, r.q, maxID, r.walk);
    forall p | p in t
      ensures Mapped(r.q, maxID, t[p]) ==
        t[p].(uid := Exchanged(r.q, maxID, t[p].uid), gid := Exchanged(r.q, maxID, t[p].gid))
    {
      Id.FindIs(r.q, maxID, t[p].uid);
      Id.FindIs(r.q, maxID, t[p].gid);
    }
    forall c | c in x.d.links && c != r.h && Root(d.links, c) != r.h
      ensures Contents(Walk(d, r.h, r.q, maxID, r.walk), c) == Contents(x.d, c)
    {
      TouchedFrame(d, Walk(d, r.h, r.q, maxID, r.walk), r.h, c);
    }
  }

  /** The other requests change no flag; an edit is that edit of what its volume shows, a
      destruction takes its volume away, and every other volume stays as it was. */
  lemma ServeOtherDoes(x: State, maxID: int, op: Op)
    requires Inv(x.d) && Allowed(x, maxID, Other(op))
    ensures
      var x' := Serve(x, maxID, Other(op));
      && x'.flags == x.flags
      && (op.Edit? ==> op.h in x'.d.links && Contents(x'.d, op.h) == Put(Contents(x.d, op.h), op.path, op.content))
      && (op.Destroy? || op.FailedDestroy? ==> op.h !in x'.d.links)
      && (forall c <- x.d.links :: c != op.h ==> c in x'.d.links && Contents(x'.d, c) == Contents(x.d, c))
  {
    if op.Edit? { EditShown(x.d, op.h, op.path, op.content); }
    forall c | c in x.d.links && c != op.h ensures Contents(Step(x.d, op), c) == Contents(x.d, c) {
      OthersKept(x.d, op, c);
    }
  }

  /******* The smallest failing run *******/

  /** The disk with a root `r` that has one file and an untouched volume `c` over it. */
  function TwoVolumes(r: Handle, c: Handle, p: Path, n: Node): Disk {
    Disk(map[r := None, c := Some(r)], map[r := map[p := File(n)], c := map[]],
         map[Spot(AtLive, r) := Bind(r), Spot(AtLive, c) := Stacked(Bind(r), c)])
  }

  lemma RootMade(r: Handle, p: Path, n: Node, maxID: int) returns (x: State)
    requires maxID >= 1 && !Has(n, 0)
    ensures
      var x0, make := State(Disk(map[], map[], map[]), map[]), NewVolume(r, [(p, n)], false, [p]);
      Allowed(x0, maxID, make) && x == Serve(x0, maxID, make)
    ensures x.d == Disk(map[r := None], map[r := map[p := File(n)]], map[Spot(AtLive, r) := Bind(r)])
    ensures x.flags == map[r := false]
  {
    var d0 := Disk(map[], map[], map[]);
    assert RankedBy(d0.links, map[]) && RankedBy(map[r := None], map[r := 0]);
    var d1, make := Step(d0, Op.Create(r)), NewVolume(r, [(p, n)], false, [p]);
    assert d1 == Disk(map[r := None], map[r := map[]], map[Spot(AtLive, r) := Bind(r)]);
    assert Filled(d1, r, [(p, n)][..0]) == d1;
    var d2 := Before(d0, make);
    assert d2 == Step(d1, Edit(r, p, Some(n)));
    assert d2 == Disk(map[r := None], map[r := map[p := File(n)]], map[Spot(AtLive, r) := Bind(r)]);
    assert Contents(d2, r) == Merge(map[], map[p := File(n)]) == map[p := n];
    MappedIs(false, maxID, n);
    assert Walk(d2, r, false, maxID, [p][..0]) == d2;
    assert Walk(d2, r, false, maxID, [p]) == d2;
    x := State(d2, map[r := false]);
  }

  lemma CowMade(x: State, r: Handle, c: Handle, p: Path, n: Node, maxID: int) returns (x': State)
    requires maxID >= 1 && !Has(n, 0) && r != c && x.flags == map[r := false]
    requires x.d == Disk(map[r := None], map[r := map[p := File(n)]], map[Spot(AtLive, r) := Bind(r)])
    ensures var make := NewSubvolume(c, r, false, [p]); Allowed(x, maxID, make) && x' == Serve(x, maxID, make)
    ensures x'.d == TwoVolumes(r, c, p, n) && x'.flags == map[r := false, c := false]
  {
    assert RankedBy(x.d.links, map[r := 0]) && RankedBy(map[r := None, c := Some(r)], map[r := 0, c := 1]);
    var d := Step(x.d, Op.CreateCow(c, r));
    assert Root(x.d.links, r) == r;
    assert d == TwoVolumes(r, c, p, n);
    StackedShows(d.layers, r, c);
    EmptyUpper(map[p := n]);
    assert Merge(map[], map[p := File(n)]) == map[p := n];
    assert Contents(d, c) == map[p := n];
    MappedIs(false, maxID, n);
    assert Walk(d, c, false, maxID, [p][..0]) == d;
    assert Walk(d, c, false, maxID, [p]) == d;
    x' := State(d, x.flags[c := false]);
  }

  lemma TwoVolumesReached(r: Handle, c: Handle, p: Path, n: Node, maxID: int)
    returns (xs: seq<State>, rs: seq<Request>)
    requires maxID >= 1 && !Has(n, 0) && r != c
    ensures Run(xs, maxID, rs) && |rs| == 2
    ensures xs[2] == State(TwoVolumes(r, c, p, n), map[r := false, c := false])
  {
    var x0 := State(Disk(map[], map[], map[]), map[]);
    var x1 := RootMade(r, p, n, maxID);
    var x2 := CowMade(x1, r, c, p, n, maxID);
    xs, rs := [x0, x1, x2], [NewVolume(r, [(p, n)], false, [p]), NewSubvolume(c, r, false, [p])];
  }

  /** On that disk let the file have the maximum id and the root be made privileged: the
      unprivileged volume over it then shows a file of id 0. */
  lemma RootChangeLeaks(r: Handle, c: Handle, p: Path, n: Node, maxID: int)
    requires maxID >= 1 && r != c && n.uid == maxID
    ensures
      var d := TwoVolumes(r, c, p, n);
      && Inv(d) && Contents(d, r) == map[p := n] && Contents(d, c) == map[p := n]
      && Get(Contents(Walk(d, r, true, maxID, [p]), c), p) == Some(Mapped(true, maxID, n))
      && Mapped(true, maxID, n).uid == 0
  {
    var d := TwoVolumes(r, c, p, n);
    assert RankedBy(d.links, map[r := 0, c := 1]);
    assert Root(d.links, r) == r && Root(d.links, c) == r;
    StackedShows(d.layers, r, c);
    EmptyUpper(map[p := n]);
    assert Merge(map[], map[p := File(n)]) == map[p := n];
    ShownOver(d, Walk(d, r, true, maxID, [p]), r, c, true, maxID, [p], p);
    Id.FindIs(true, maxID, n.uid);
  }
}
