/** ListVolumes: reading the live directories back, each to one of four ends.

    Other processes go on while the listing runs, so what reading the two metadata files of
    each listed directory gives is an input. */
module Listing {
  import opened Wrappers
  import opened Properties

  /** Missing is the error of a file that cannot be opened, Broken any other. */
  datatype Read<+T> = Loaded(value: T) | Missing | Broken

  datatype Listed = Listed(handle: Handle, props: Read<Properties>, priv: Read<bool>)

  datatype Volume = Volume(handle: Handle, props: Properties, priv: bool)

  function VolumeFrom(d: Listed): Read<Volume> {
    match d.props
    case Missing => Missing
    case Broken => Broken
    case Loaded(props) =>
      match d.priv
      case Missing => Missing
      case Broken => Broken
      case Loaded(priv) => Loaded(Volume(d.handle, props, priv))
  }

  datatype Class = Matching | Other | Corrupted | Vanished

  /** What a listed directory is to a query: the first file that cannot be read decides. */
  ghost function ClassOf(d: Listed, query: Properties): Class {
    if d.props.Missing? || (d.props.Loaded? && d.priv.Missing?) then Vanished
    else if d.props.Broken? || d.priv.Broken? then Corrupted
    else if Includes(d.props.value, query) then Matching
    else Other
  }

  ghost function Classes(ds: seq<Listed>, query: Properties): seq<Class> {
    seq(|ds|, i requires 0 <= i < |ds| => ClassOf(ds[i], query))
  }

  /** The positions of a class in a listing. */
  function Positions(cs: seq<Class>, c: Class): seq<nat> {
    if cs == [] then []
    else
      var n := |cs| - 1;
      Positions(cs[..n], c) + if cs[n] == c then [n] else []
  }

  /** Positions in listing order, without repetition, of members of a class and of all of them. */
  ghost predicate Exactly(cs: seq<Class>, c: Class, ps: seq<nat>) {
    && (forall i, j | 0 <= i < j < |ps| :: ps[i] < ps[j])
    && (forall i | 0 <= i < |ps| :: ps[i] < |cs|)
    && (forall k | 0 <= k < |cs| :: k in ps <==> cs[k] == c)
  }

  lemma {:induction false} PositionsExact(cs: seq<Class>, c: Class)
    ensures Exactly(cs, c, Positions(cs, c))
  {
    if cs != [] {
      var n := |cs| - 1;
      var before := Positions(cs[..n], c);
      PositionsExact(cs[..n], c);
      forall k | 0 <= k < n
        ensures k in before <==> cs[k] == c
      {
        assert cs[..n][k] == cs[k];
      }
      if cs[n] == c {
        assert Positions(cs, c) == before + [n];
      } else {
        assert Positions(cs, c) == before && n !in before;
      }
    }
  }

  /** The classes in terms of what the two files hold. */
  lemma ClassesExact(ds: seq<Listed>, query: Properties, k: nat)
    requires k < |ds|
    ensures var cs, d := Classes(ds, query), ds[k];
      && (k in Positions(cs, Matching) <==> d.props.Loaded? && d.priv.Loaded? && Includes(d.props.value, query))
      && (k in Positions(cs, Other) <==> d.props.Loaded? && d.priv.Loaded? && !Includes(d.props.value, query))
      && (k in Positions(cs, Corrupted) <==> d.props.Broken? || (d.props.Loaded? && d.priv.Broken?))
      && (k in Positions(cs, Vanished) <==> d.props.Missing? || (d.props.Loaded? && d.priv.Missing?))
  {
    var cs := Classes(ds, query);
    PositionsExact(cs, Matching);
    PositionsExact(cs, Other);
    PositionsExact(cs, Corrupted);
    PositionsExact(cs, Vanished);
    assert cs[k] == ClassOf(ds[k], query);
  }

  /** The four classes share the listing out. */
  lemma {:induction false} FourWays(cs: seq<Class>)
    ensures |Positions(cs, Matching)| + |Positions(cs, Other)|
      + |Positions(cs, Corrupted)| + |Positions(cs, Vanished)| == |cs|
  {
    if cs != [] { FourWays(cs[..|cs| - 1]); }
  }

  /** A listed directory as a volume, where both of its files could be read. */
  function VolumeOf(d: Listed): Volume {
    Volume(d.handle, if d.props.Loaded? then d.props.value else map[], d.priv.Loaded? && d.priv.value)
  }

  function VolumesOf(ds: seq<Listed>): seq<Volume> {
    seq(|ds|, i requires 0 <= i < |ds| => VolumeOf(ds[i]))
  }

  function HandlesOf(ds: seq<Listed>): seq<Handle> {
    seq(|ds|, i requires 0 <= i < |ds| => ds[i].handle)
  }

  /** The items at the given positions, one after the other. */
  ghost predicate Picks<T>(items: seq<T>, ps: seq<nat>, out: seq<T>) {
    |out| == |ps| && forall i | 0 <= i < |ps| :: ps[i] < |items| && out[i] == items[ps[i]]
  }

  lemma PositionsSnoc(cs: seq<Class>, n: nat, c: Class)
    requires n < |cs|
    ensures Positions(cs[..n + 1], c) == Positions(cs[..n], c) + if cs[n] == c then [n] else []
  {
    assert cs[..n + 1][..n] == cs[..n];
  }

  lemma HydratedIs(d: Listed, query: Properties)
    ensures VolumeFrom(d).Missing? <==> ClassOf(d, query) == Vanished
    ensures VolumeFrom(d).Broken? <==> ClassOf(d, query) == Corrupted
    ensures VolumeFrom(d).Loaded? ==>
      && VolumeFrom(d).value == VolumeOf(d)
      && (ClassOf(d, query) == Matching <==> Includes(VolumeOf(d).props, query))
  {}

  /** The volumes carry their handles and what was read from their files. */
  ghost predicate AsRead(ds: seq<Listed>, ps: seq<nat>, vs: seq<Volume>) {
    |vs| == |ps| && forall i | 0 <= i < |vs| ::
      ps[i] < |ds| && ds[ps[i]] == Listed(vs[i].handle, Loaded(vs[i].props), Loaded(vs[i].priv))
  }

  lemma PickedAsRead(ds: seq<Listed>, query: Properties, vs: seq<Volume>)
    requires Picks(VolumesOf(ds), Positions(Classes(ds, query), Matching), vs)
    ensures AsRead(ds, Positions(Classes(ds, query), Matching), vs)
  {
    var cs := Classes(ds, query);
    var ps := Positions(cs, Matching);
    PositionsExact(cs, Matching);
    forall i | 0 <= i < |vs|
      ensures ds[ps[i]] == Listed(vs[i].handle, Loaded(vs[i].props), Loaded(vs[i].priv))
    {
      assert ps[i] in ps && cs[ps[i]] == ClassOf(ds[ps[i]], query) == Matching;
    }
  }

  /** The matching volumes as they were read, and the handles of the corrupted ones. */
  method ListVolumes(ds: seq<Listed>, query: Properties) returns (healthy: seq<Volume>, corrupted: seq<Handle>)
    ensures Picks(VolumesOf(ds), Positions(Classes(ds, query), Matching), healthy)
    ensures Picks(HandlesOf(ds), Positions(Classes(ds, query), Corrupted), corrupted)
    ensures AsRead(ds, Positions(Classes(ds, query), Matching), healthy)
  {
    healthy, corrupted := [], [];
    ghost var cs := Classes(ds, query);
    for n := 0 to |ds|
      invariant Picks(VolumesOf(ds), Positions(cs[..n], Matching), healthy)
      invariant Picks(HandlesOf(ds), Positions(cs[..n], Corrupted), corrupted)
    {
      PositionsSnoc(cs, n, Matching);
      PositionsSnoc(cs, n, Corrupted);
      HydratedIs(ds[n], query);
      assert cs[n] == ClassOf(ds[n], query);
      var volume := VolumeFrom(ds[n]);
      match volume
      case Missing =>
      case Broken => corrupted := corrupted + [ds[n].handle];
      case Loaded(v) =>
        var matches := HasProperties(v.props, query);
        if matches { healthy := healthy + [v]; }
    }
    assert cs[..|ds|] == cs;
    PickedAsRead(ds, query, healthy);
  }
}
