/** Remapping of file owners between privileged and unprivileged volumes.

    The same id ranges are used twice: in user space, where a walk over the tree changes
    owners one file at a time, and by the kernel, which maps ids for a process in a user
    namespace (user_namespaces(7)). */
module IdMapping {
  import opened Wrappers

  datatype Range = Range(container: int, host: int, size: int)

  function PrivilegedRanges(maxID: int): seq<Range> {
    [Range(maxID, 0, 1), Range(1, 1, maxID - 1)]
  }

  function UnprivilegedRanges(maxID: int): seq<Range> {
    [Range(0, maxID, 1), Range(1, 1, maxID - 1)]
  }

  function Ranges(privileged: bool, maxID: int): seq<Range> {
    if privileged then PrivilegedRanges(maxID) else UnprivilegedRanges(maxID)
  }

  /** Only the ranges of size one count; the first that starts at the id decides. */
  function Find(ranges: seq<Range>, id: int): int {
    if ranges == [] then id
    else if ranges[0].size == 1 && ranges[0].container == id then ranges[0].host
    else Find(ranges[1..], id)
  }

  method FindMapping(idMap: seq<Range>, fromID: int) returns (r: int)
    ensures r == Find(idMap, fromID)
  {
    for i := 0 to |idMap|
      invariant Find(idMap, fromID) == Find(idMap[i..], fromID)
    {
      if idMap[i].size != 1 {
        continue;
      }
      if idMap[i].container == fromID {
        return idMap[i].host;
      }
    }
    return fromID;
  }

  /** In user space the two mappings swap 0 and the maximum one way each and keep all else. */
  lemma FindIs(privileged: bool, maxID: int, id: int)
    requires maxID >= 1
    ensures Find(Ranges(privileged, maxID), id) ==
      if privileged then (if id == maxID then 0 else id) else (if id == 0 then maxID else id)
  {
    var r := Ranges(privileged, maxID);
    assert r[1..] == [r[1]] && r[1..][1..] == [];
    assert Find(r[1..], id) == id;
  }

  /******* The kernel's view *******/

  /** The host id of a container id, if some range covers it. */
  function ToHost(ranges: seq<Range>, c: int): Option<int> {
    if ranges == [] then None
    else if 0 <= c - ranges[0].container < ranges[0].size then Some(ranges[0].host + (c - ranges[0].container))
    else ToHost(ranges[1..], c)
  }

  /** The container id that a host id appears as, if some range covers it. */
  function ToContainer(ranges: seq<Range>, h: int): Option<int> {
    if ranges == [] then None
    else if 0 <= h - ranges[0].host < ranges[0].size then Some(ranges[0].container + (h - ranges[0].host))
    else ToContainer(ranges[1..], h)
  }

  /** Both directions in closed form: the ids between are kept, the two ends change places. */
  lemma KernelMapIs(privileged: bool, maxID: int, id: int)
    requires maxID >= 1
    ensures var r := Ranges(privileged, maxID);
      && ToHost(r, id) == (if id == (if privileged then maxID else 0) then Some(if privileged then 0 else maxID)
                           else if 1 <= id < maxID then Some(id) else None)
      && ToContainer(r, id) == (if id == (if privileged then 0 else maxID) then Some(if privileged then maxID else 0)
                                else if 1 <= id < maxID then Some(id) else None)
  {
    var r := Ranges(privileged, maxID);
    assert r[1..] == [Range(1, 1, maxID - 1)] && r[1..][1..] == [];
    assert ToHost(r[1..][1..], id) == None && ToContainer(r[1..][1..], id) == None;
  }

  /** For every maximum id of at least 1 the kernel's map is injective, its two directions are
      inverse to each other, it agrees with the user-space map on every id it covers, and the
      privileged and unprivileged maps are inverse bijections. */
  lemma KernelMapsAgree(privileged: bool, maxID: int, c: int, h: int)
    requires maxID >= 1
    ensures
      var r := Ranges(privileged, maxID);
      && (ToHost(r, c) == Some(h) <==> ToContainer(r, h) == Some(c))
      && (ToHost(r, c).Some? ==> ToHost(r, c) == Some(Find(r, c)))
      && (ToHost(r, c) == Some(h) <==> ToHost(Ranges(!privileged, maxID), h) == Some(c))
  {
    KernelMapIs(privileged, maxID, c);
    KernelMapIs(privileged, maxID, h);
    KernelMapIs(!privileged, maxID, h);
    FindIs(privileged, maxID, c);
  }

  /** Ids covered: all valid ones but 0 seen from outside an unprivileged namespace. */
  lemma UnprivilegedCovers(maxID: int, h: int)
    requires maxID >= 1
    ensures ToContainer(UnprivilegedRanges(maxID), h).Some? <==> 1 <= h <= maxID
  {
    KernelMapIs(false, maxID, h);
  }

  /** The id files of uncovered owners appear to have inside a namespace. */
  const OVERFLOW_ID := 65534

  /** An owner as recorded by a tar running in the unprivileged namespace. */
  function StreamedOut(maxID: int, h: int): int {
    var c := ToContainer(UnprivilegedRanges(maxID), h);
    if c.Some? then c.value else OVERFLOW_ID
  }

  /** The owner a tar in that namespace gives an extracted file; None if it cannot. */
  function StreamedIn(maxID: int, c: int): Option<int> {
    ToHost(UnprivilegedRanges(maxID), c)
  }

  /** Streaming out of one unprivileged volume and into another keeps every valid owner except
      0, which such a volume does not have; 0 is never kept. */
  lemma StreamKeepsOwner(maxID: int, h: int)
    requires maxID >= 1 && 0 <= h <= maxID
    ensures StreamedIn(maxID, StreamedOut(maxID, h)) == Some(h) <==> h != 0
  {
    UnprivilegedCovers(maxID, h);
    if h != 0 {
      KernelMapsAgree(false, maxID, ToContainer(UnprivilegedRanges(maxID), h).value, h);
    } else {
      KernelMapsAgree(false, maxID, OVERFLOW_ID, 0);
    }
  }

  /******* Changing owners on disk *******/

  type Inode = nat

  datatype File = File(uid: int, gid: int, perm: nat, setid: bool, symlink: bool)

  function Translate(privileged: bool, maxID: int, f: File): File {
    f.(uid := Find(Ranges(privileged, maxID), f.uid), gid := Find(Ranges(privileged, maxID), f.gid))
  }

  /** Changing the owner of a file clears its set-id bits. */
  function Chown(f: File, uid: int, gid: int): File {
    f.(uid := uid, gid := gid, setid := f.setid && f.symlink)
  }

  type Files = map<Inode, File>

  function Namespaced(privileged: bool, maxID: int, files: Files): Files {
    map i | i in files :: Translate(privileged, maxID, files[i])
  }

  /** Mapping owners twice is mapping them once. */
  lemma TranslateTwice(privileged: bool, maxID: int, f: File)
    requires maxID >= 1
    ensures Translate(privileged, maxID, Translate(privileged, maxID, f)) == Translate(privileged, maxID, f)
  {
    FindIs(privileged, maxID, f.uid);
    FindIs(privileged, maxID, f.gid);
    FindIs(privileged, maxID, Find(Ranges(privileged, maxID), f.uid));
    FindIs(privileged, maxID, Find(Ranges(privileged, maxID), f.gid));
  }

  /** A file after an attempt to map its owner.  The code ignores failures: without the change of
      owner nothing changes, and without the change of mode the set-id bits stay cleared. */
  function Attempt(privileged: bool, maxID: int, f: File, chownFails: bool, chmodFails: bool): File {
    var g := Translate(privileged, maxID, f);
    if chownFails || g == f then f
    else if chmodFails then Chown(f, g.uid, g.gid)
    else g
  }

  /** Changing an owner costs a regular file its set-id bits, and setting its mode again restores
      them. */
  lemma ModeRestored(privileged: bool, maxID: int, f: File)
    requires maxID >= 1 && Translate(privileged, maxID, f) != f && !f.symlink
    ensures Attempt(privileged, maxID, f, false, false).setid == f.setid
    ensures !Attempt(privileged, maxID, f, false, true).setid
    ensures Attempt(privileged, maxID, f, false, true).perm == f.perm
  {}

  lemma AttemptTwice(privileged: bool, maxID: int, f: File, chownFails: bool, chmodFails: bool)
    requires maxID >= 1
    ensures var f' := Attempt(privileged, maxID, f, chownFails, chmodFails);
      Attempt(privileged, maxID, f', chownFails, chmodFails) == f'
  {
    var f' := Attempt(privileged, maxID, f, chownFails, chmodFails);
    TranslateTwice(privileged, maxID, f);
    FindIs(privileged, maxID, f'.uid);
    FindIs(privileged, maxID, f'.gid);
    FindIs(privileged, maxID, f.uid);
    FindIs(privileged, maxID, f.gid);
  }

  function Attempted(privileged: bool, maxID: int, files: Files, unchowned: set<Inode>, unmoded: set<Inode>): Files {
    map i | i in files :: Attempt(privileged, maxID, files[i], i in unchowned, i in unmoded)
  }

  /** `unchowned` and `unmoded` are the files whose owner or mode cannot be changed. */
  class Namespacer {
    const privileged: bool
    const maxID: int
    const unchowned: set<Inode>
    const unmoded: set<Inode>
    var files: Files

    constructor (privileged: bool, maxID: int, files: Files, unchowned: set<Inode>, unmoded: set<Inode>)
      ensures this.privileged == privileged && this.maxID == maxID && this.files == files
      ensures this.unchowned == unchowned && this.unmoded == unmoded
    {
      this.privileged, this.maxID, this.files := privileged, maxID, files;
      this.unchowned, this.unmoded := unchowned, unmoded;
    }

    /** Where both calls work the owner is mapped and everything else about the file stays, its
        mode included. */
    method TranslatePath(i: Inode)
      requires i in files
      modifies this
      ensures files == old(files)[i := Attempt(privileged, maxID, old(files)[i], i in unchowned, i in unmoded)]
      ensures i !in unchowned && i !in unmoded ==> files[i] == Translate(privileged, maxID, old(files)[i])
    {
      var info := files[i];
      var touid := FindMapping(Ranges(privileged, maxID), info.uid);
      var togid := FindMapping(Ranges(privileged, maxID), info.gid);
      if touid != info.uid || togid != info.gid {
        if i !in unchowned {
          files := files[i := Chown(info, touid, togid)];
        }
        if !info.symlink && i !in unmoded {
          files := files[i := files[i].(perm := info.perm, setid := info.setid)];
        }
      }
    }

    /** The walk visits every path; a file with several hard links is met several times. */
    method NamespacePath(walk: seq<Inode>)
      requires maxID >= 1 && forall i :: i in walk <==> i in files
      modifies this
      ensures files == Attempted(privileged, maxID, old(files), unchowned, unmoded)
      ensures unchowned == {} && unmoded == {} ==> files == Namespaced(privileged, maxID, old(files))
    {
      for k := 0 to |walk|
        invariant files.Keys == old(files).Keys
        invariant forall i <- files ::
          files[i] == if i in walk[..k]
                      then Attempt(privileged, maxID, old(files)[i], i in unchowned, i in unmoded)
                      else old(files)[i]
      {
        AttemptTwice(privileged, maxID, old(files)[walk[k]], walk[k] in unchowned, walk[k] in unmoded);
        TranslatePath(walk[k]);
        assert walk[..k + 1] == walk[..k] + [walk[k]];
      }
      assert walk[..|walk|] == walk;
    }
  }

  /******* Runs of creations and privilege changes *******/

  datatype Volume = Volume(privileged: bool, files: Files)

  /** Creation with given contents, as an independent copy of another volume, or a change of privilege. */
  datatype Op =
    | Create(h: Handle, contents: Files, privileged: bool)
    | CreateCow(h: Handle, parent: Handle, privileged: bool)
    | SetPrivileged(h: Handle, privileged: bool)

  function Step(vols: map<Handle, Volume>, maxID: int, op: Op): map<Handle, Volume> {
    match op
    case Create(h, contents, p) =>
      if h in vols then vols else vols[h := Volume(p, Namespaced(p, maxID, contents))]
    case CreateCow(h, parent, p) =>
      if h in vols || parent !in vols then vols
      else vols[h := Volume(p, Namespaced(p, maxID, vols[parent].files))]
    case SetPrivileged(h, p) =>
      if h in vols then vols[h := Volume(p, Namespaced(p, maxID, vols[h].files))] else vols
  }

  function Run(maxID: int, ops: seq<Op>): map<Handle, Volume> {
    if ops == [] then map[] else Step(Run(maxID, ops[..|ops| - 1]), maxID, ops[|ops| - 1])
  }

  /** The one id that changes, and to what. */
  function Exchanged(privileged: bool, maxID: int, id: int): int {
    if privileged && id == maxID then 0 else if !privileged && id == 0 then maxID else id
  }

  /** A tree with that id exchanged in every owner, and nothing else changed. */
  ghost predicate OwnersExchanged(privileged: bool, maxID: int, before: Files, after: Files) {
    && after.Keys == before.Keys
    && (forall i <- before :: after[i] == OwnerExchanged(privileged, maxID, before[i]))
  }

  function OwnerExchanged(privileged: bool, maxID: int, f: File): File {
    f.(uid := Exchanged(privileged, maxID, f.uid), gid := Exchanged(privileged, maxID, f.gid))
  }

  lemma NamespacedExchanges(privileged: bool, maxID: int, files: Files)
    requires maxID >= 1
    ensures OwnersExchanged(privileged, maxID, files, Namespaced(privileged, maxID, files))
  {
    forall i | i in files
      ensures Translate(privileged, maxID, files[i]) == OwnerExchanged(privileged, maxID, files[i])
    {
      FindIs(privileged, maxID, files[i].uid);
      FindIs(privileged, maxID, files[i].gid);
    }
  }

  /** The files that an operation on an existing or new volume starts from; None if it fails. */
  function Source(vols: map<Handle, Volume>, op: Op): Option<Files> {
    match op
    case Create(h, contents, _) => if h in vols then None else Some(contents)
    case CreateCow(h, parent, _) => if h !in vols && parent in vols then Some(vols[parent].files) else None
    case SetPrivileged(h, _) => if h in vols then Some(vols[h].files) else None
  }

  /** An operation that can be carried out sets the flag it was asked for, exchanges the one id in
      the files it starts from, and touches no other volume; any other changes nothing. */
  lemma StepDoes(vols: map<Handle, Volume>, maxID: int, op: Op)
    requires maxID >= 1
    ensures
      var vols', source := Step(vols, maxID, op), Source(vols, op);
      && (source.None? ==> vols' == vols)
      && (source.Some? ==>
            && op.h in vols' && vols'[op.h].privileged == op.privileged && vols' - {op.h} == vols - {op.h}
            && OwnersExchanged(op.privileged, maxID, source.value, vols'[op.h].files))
  {
    if Source(vols, op).Some? { NamespacedExchanges(op.privileged, maxID, Source(vols, op).value); }
  }

  ghost predicate NoOwner(files: Files, id: int) {
    forall i <- files :: files[i].uid != id && files[i].gid != id
  }

  lemma NamespacedOwners(privileged: bool, maxID: int, files: Files)
    requires maxID >= 1
    ensures NoOwner(Namespaced(privileged, maxID, files), if privileged then maxID else 0)
  {
    forall i | i in files
      ensures var f := Translate(privileged, maxID, files[i]); var id := if privileged then maxID else 0;
        f.uid != id && f.gid != id
    {
      FindIs(privileged, maxID, files[i].uid);
      FindIs(privileged, maxID, files[i].gid);
    }
  }

  /** A walk leaves no file of the id it maps away exactly when no file that cannot be changed
      has it. */
  lemma OwnersExact(privileged: bool, maxID: int, files: Files, unchowned: set<Inode>, unmoded: set<Inode>)
    requires maxID >= 1
    ensures var id := if privileged then maxID else 0;
      NoOwner(Attempted(privileged, maxID, files, unchowned, unmoded), id) <==>
        forall i | i in files && i in unchowned :: files[i].uid != id && files[i].gid != id
  {
    var id := if privileged then maxID else 0;
    var after := Attempted(privileged, maxID, files, unchowned, unmoded);
    forall i | i in files
      ensures (after[i].uid != id && after[i].gid != id) <==>
        (i in unchowned ==> files[i].uid != id && files[i].gid != id)
    {
      FindIs(privileged, maxID, files[i].uid);
      FindIs(privileged, maxID, files[i].gid);
    }
    assert after.Keys == files.Keys;
  }

  /** A file of id 0 whose owner cannot be changed keeps it. */
  lemma StuckOwner(maxID: int, i: Inode, f: File, unmoded: set<Inode>)
    requires maxID >= 1 && f.uid == 0
    ensures Attempted(false, maxID, map[i := f], {i}, unmoded)[i].uid == 0
    ensures !NoOwner(Attempted(false, maxID, map[i := f], {i}, unmoded), 0)
  {
    OwnersExact(false, maxID, map[i := f], {i}, unmoded);
  }

  /** With a driver that gives each volume files of its own, as the naive and the btrfs driver do,
      ownership follows the flag: after any run no unprivileged volume has a file owned by id 0
      and no privileged volume one owned by the maximum id. */
  lemma {:induction false} CopiesFollowFlag(maxID: int, ops: seq<Op>, h: Handle)
    requires maxID >= 1 && h in Run(maxID, ops)
    ensures var v := Run(maxID, ops)[h]; NoOwner(v.files, if v.privileged then maxID else 0)
  {
    if ops != [] {
      var before, op := Run(maxID, ops[..|ops| - 1]), ops[|ops| - 1];
      if h in before { CopiesFollowFlag(maxID, ops[..|ops| - 1], h); }
      match op
      case Create(_, contents, p) => NamespacedOwners(p, maxID, contents);
      case CreateCow(_, parent, p) => if parent in before { NamespacedOwners(p, maxID, before[parent].files); }
      case SetPrivileged(x, p) => if x in before { NamespacedOwners(p, maxID, before[x].files); }
    }
  }

  /** Repeating a change changes nothing. */
  lemma RepeatChangesNothing(privileged: bool, maxID: int, files: Files)
    requires maxID >= 1
    ensures Namespaced(privileged, maxID, Namespaced(privileged, maxID, files)) == Namespaced(privileged, maxID, files)
  {
    forall i | i in files
      ensures var f := Translate(privileged, maxID, files[i]); Translate(privileged, maxID, f) == f
    {
      TranslateTwice(privileged, maxID, files[i]);
    }
  }

  lemma TranslateBack(privileged: bool, maxID: int, f: File)
    requires maxID >= 1
    ensures Translate(!privileged, maxID, Translate(privileged, maxID, f)) == f <==>
      var id := if privileged then 0 else maxID; f.uid != id && f.gid != id
  {
    FindIs(privileged, maxID, f.uid);
    FindIs(privileged, maxID, f.gid);
    FindIs(!privileged, maxID, Find(Ranges(privileged, maxID), f.uid));
    FindIs(!privileged, maxID, Find(Ranges(privileged, maxID), f.gid));
  }

  /** A file of the maximum id becomes one of id 0 by making its volume unprivileged and
      privileged again. */
  lemma ToggleLoses(maxID: int, i: Inode, f: File)
    requires maxID >= 1 && f.uid == maxID
    ensures Namespaced(true, maxID, Namespaced(false, maxID, map[i := f]))[i].uid == 0
  {
    FindIs(false, maxID, maxID);
    FindIs(true, maxID, maxID);
  }

  /** Toggling there and back restores a tree exactly when no file was owned by the id that the
      first change maps to. */
  lemma ToggleExact(privileged: bool, maxID: int, files: Files)
    requires maxID >= 1
    ensures Namespaced(!privileged, maxID, Namespaced(privileged, maxID, files)) == files <==>
      NoOwner(files, if privileged then 0 else maxID)
  {
    var back := Namespaced(!privileged, maxID, Namespaced(privileged, maxID, files));
    forall i | i in files
      ensures back[i] == files[i] <==>
        var id := if privileged then 0 else maxID; files[i].uid != id && files[i].gid != id
    {
      TranslateBack(privileged, maxID, files[i]);
    }
    assert back.Keys == files.Keys;
  }
}
