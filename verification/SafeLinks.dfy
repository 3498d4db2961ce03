/**
 The slots of the file watcher that make and delete links on the desktop.

 Whatever stands at a destination and is not a symbolic link must survive every slot, and a link that is there must
 never be pointed elsewhere. The five tables are parameters: the lines that fill them are commented out in the source.
 */
module SafeLinks {
  import opened Base
  import opened Paths

  /** A node; a link's target is the absolute path that QFile::symLinkTarget reports. */
  datatype Node = Link(target: Path) | Dir | File

  type FileSystem = map<Path, Node>

  /** Linux follows at most 40 links. */
  const MAXSYMLINKS := 40

  predicate Resolves(fs: FileSystem, p: Path, hops: nat)
    decreases hops
  {
    p in fs && (fs[p].Link? ==> hops > 0 && Resolves(fs, fs[p].target, hops - 1))
  }

  /** QFile::exists: a link counts when what it leads to exists. */
  predicate Exists(fs: FileSystem, p: Path) {
    Resolves(fs, p, MAXSYMLINKS)
  }

  datatype LinkDestination = LinkDestination(destination: Path, shouldCreate: bool)
  datatype LinkInfo = LinkInfo(destination: Path, linkName: Path)
  datatype PendingDirectory = PendingDirectory(dependPath: Path, relativeLinkPath: Path, pendingName: Name, pendingPath: Path)
  datatype DependDirectory = DependDirectory(targetPath: Path, directories: seq<Path>, destLink: LinkDestination)

  datatype Tables = Tables(
    directory: map<Path, LinkDestination>,
    storage: map<Path, LinkDestination>,
    pending: map<Path, PendingDirectory>,
    depend: map<Path, DependDirectory>,
    link: map<Path, LinkInfo>)

  /** What QStorageInfo says about a path. */
  datatype Storage = Storage(valid: bool, ready: bool, fuse: bool)

  // ---- what a slot does to the file system ----

  /** symlink(2): nothing happens when the name is taken, or at a refused place: no parent directory, no permission. */
  function Symlink(fs: FileSystem, dest: Path, target: Path, refused: set<Path>): FileSystem {
    if dest in fs || dest in refused then fs else fs[dest := Link(target)]
  }

  /** deleteLink: a link goes, dangling or not; anything else stays. */
  function Unlinked(fs: FileSystem, dest: Path): FileSystem {
    if dest in fs && fs[dest].Link? then fs - {dest} else fs
  }

  /** QDir::mkpath makes the directories of the path that are missing, from the top; it may get down only to `depth`. */
  function WithDirs(fs: FileSystem, p: Path, depth: nat): FileSystem {
    map q | q in fs.Keys + (set k | 0 < k <= |p| && k <= depth :: p[..k]) :: if q in fs then fs[q] else Dir
  }

  predicate AnyExists(fs: FileSystem, ps: seq<Path>) {
    exists i :: 0 <= i < |ps| && Exists(fs, ps[i])
  }

  function DependMake(t: Tables, fs: FileSystem, path: Path, refused: set<Path>): FileSystem {
    if path !in t.depend then fs else
    var d := t.depend[path];
    if d.destLink.shouldCreate && Exists(fs, path) && AnyExists(fs, d.directories)
    then Symlink(fs, d.destLink.destination, d.targetPath, refused)
    else fs
  }

  function DependDelete(t: Tables, fs: FileSystem, path: Path): FileSystem {
    if path !in t.depend then fs else
    var d := t.depend[path];
    var fs1 := if Exists(fs, path) then fs else Unlinked(fs, d.destLink.destination);
    if AnyExists(fs1, d.directories) then fs1 else Unlinked(fs1, d.destLink.destination)
  }

  datatype Slot =
    | AddWatchPath(path: Path)
    | PendingAddWatchPath(path: Path, depth: nat)
    | LinkAddWatchPath(path: Path)
    | DependAddWatchPath(path: Path)
    | DirectoryUpdated(path: Path)
    | PendingDirectoryUpdated(path: Path)
    | DependDirectoryUpdated(path: Path)
    | LinkDirectoryUpdated(path: Path)
    | FileUpdated(path: Path)
    | StorageStatusChanged(path: Path, info: Storage)

  /** What pendingAddWatchPath has done before it makes the pending link. */
  function PendingMade(d: PendingDirectory, fs: FileSystem, depth: nat): FileSystem {
    if Exists(fs, d.pendingPath) then fs else WithDirs(fs, d.pendingPath, depth)
  }

  function AfterPendingAdd(t: Tables, fs: FileSystem, path: Path, depth: nat, refused: set<Path>): FileSystem {
    if path !in t.pending then fs else
    var d := t.pending[path];
    var mid := Symlink(PendingMade(d, fs, depth), d.pendingPath + [d.pendingName], d.relativeLinkPath, refused);
    AfterDependUpdate(t, mid, d.dependPath, refused)
  }

  /** pendingDirectoryUpdated first drops the link of a directory it depends on, when that is gone. */
  function AfterDependGone(t: Tables, fs: FileSystem, path: Path): FileSystem
    requires path in t.pending
  {
    var d := t.pending[path];
    if Exists(fs, d.dependPath) then fs else DependDelete(t, fs, d.dependPath)
  }

  function AfterPendingUpdate(t: Tables, fs: FileSystem, path: Path): FileSystem {
    if path !in t.pending then fs else
    var d := t.pending[path];
    var fs1 := AfterDependGone(t, fs, path);
    if Exists(fs1, path) then fs1 else DependDelete(t, Unlinked(fs1, d.pendingPath + [d.pendingName]), d.dependPath)
  }

  function AfterDependUpdate(t: Tables, fs: FileSystem, path: Path, refused: set<Path>): FileSystem {
    if path !in t.depend then fs
    else if Exists(fs, path) then DependMake(t, fs, path, refused)
    else DependDelete(t, fs, path)
  }

  function AfterStorage(t: Tables, fs: FileSystem, path: Path, info: Storage, refused: set<Path>): FileSystem {
    if path !in t.storage then fs else
    var d := t.storage[path];
    if !info.ready || !info.valid then Unlinked(fs, d.destination)
    else if !info.fuse || !d.shouldCreate then Unlinked(fs, d.destination)
    else Symlink(fs, d.destination, path, refused)
  }

  function After(t: Tables, fs: FileSystem, s: Slot, refused: set<Path>): FileSystem {
    match s
    case AddWatchPath(p) =>
      if p in t.directory && t.directory[p].shouldCreate then Symlink(fs, t.directory[p].destination, p, refused) else fs
    case PendingAddWatchPath(p, depth) => AfterPendingAdd(t, fs, p, depth, refused)
    case LinkAddWatchPath(p) => if p in t.link then Symlink(fs, t.link[p].destination, t.link[p].linkName, refused) else fs
    case DependAddWatchPath(p) => DependMake(t, fs, p, refused)
    case DirectoryUpdated(p) =>
      if !Exists(fs, p) && p in t.directory then Unlinked(fs, t.directory[p].destination) else fs
    case PendingDirectoryUpdated(p) => AfterPendingUpdate(t, fs, p)
    case DependDirectoryUpdated(p) => AfterDependUpdate(t, fs, p, refused)
    case LinkDirectoryUpdated(p) =>
      if !Exists(fs, p) && p in t.link then Unlinked(fs, t.link[p].destination) else fs
    case FileUpdated(_) => fs
    case StorageStatusChanged(p, info) => AfterStorage(t, fs, p, info, refused)
  }

  // ---- safety ----

  /** Nothing but links goes, nothing changes in place, and only links and directories come. */
  ghost predicate Safe(fs: FileSystem, after: FileSystem) {
    && (forall p | p in fs && !fs[p].Link? :: p in after && after[p] == fs[p])
    && (forall p | p in fs && p in after :: after[p] == fs[p])
    && (forall p | p in after && p !in fs :: after[p].Link? || after[p].Dir?)
  }

  /** A slot removes, or adds, or adds and then removes. */
  ghost predicate OnlyRemoves(fs: FileSystem, after: FileSystem) {
    (forall p | p in after :: p in fs && after[p] == fs[p]) && (forall p | p in fs && !fs[p].Link? :: p in after)
  }

  ghost predicate OnlyAdds(fs: FileSystem, after: FileSystem) {
    && (forall p | p in fs :: p in after && after[p] == fs[p])
    && (forall p | p in after && p !in fs :: after[p].Link? || after[p].Dir?)
  }

  lemma DependDeleteRemoves(t: Tables, fs: FileSystem, path: Path)
    ensures OnlyRemoves(fs, DependDelete(t, fs, path))
  {
  }

  lemma DependMakeAdds(t: Tables, fs: FileSystem, path: Path, refused: set<Path>)
    ensures OnlyAdds(fs, DependMake(t, fs, path, refused))
  {
  }

  /** Adding, then removing: still safe, also for a link made and removed by one slot. */
  lemma AddThenRemoveIsSafe(fs: FileSystem, mid: FileSystem, after: FileSystem)
    requires OnlyAdds(fs, mid) && OnlyRemoves(mid, after)
    ensures Safe(fs, after)
  {
    assert forall p | p in fs && !fs[p].Link? :: p in mid && !mid[p].Link?;
  }

  lemma PendingAddIsSafe(t: Tables, fs: FileSystem, p: Path, depth: nat, refused: set<Path>)
    ensures Safe(fs, AfterPendingAdd(t, fs, p, depth, refused))
  {
    if p in t.pending {
      var d := t.pending[p];
      var mid := Symlink(PendingMade(d, fs, depth), d.pendingPath + [d.pendingName], d.relativeLinkPath, refused);
      assert OnlyAdds(fs, mid);
      DependMakeAdds(t, mid, d.dependPath, refused);
      DependDeleteRemoves(t, mid, d.dependPath);
      if !Exists(mid, d.dependPath) {
        AddThenRemoveIsSafe(fs, mid, DependDelete(t, mid, d.dependPath));
      }
    }
  }

  lemma PendingUpdateIsSafe(t: Tables, fs: FileSystem, p: Path)
    ensures Safe(fs, AfterPendingUpdate(t, fs, p))
  {
    if p in t.pending {
      var d := t.pending[p];
      DependDeleteRemoves(t, fs, d.dependPath);
      var fs1 := AfterDependGone(t, fs, p);
      assert OnlyRemoves(fs, fs1);
      DependDeleteRemoves(t, Unlinked(fs1, d.pendingPath + [d.pendingName]), d.dependPath);
    }
  }

  lemma SlotIsSafe(t: Tables, fs: FileSystem, s: Slot, refused: set<Path>)
    ensures Safe(fs, After(t, fs, s, refused))
  {
    match s
    case PendingAddWatchPath(p, depth) => PendingAddIsSafe(t, fs, p, depth, refused);
    case PendingDirectoryUpdated(p) => PendingUpdateIsSafe(t, fs, p);
    case DependDirectoryUpdated(p) =>
      DependMakeAdds(t, fs, p, refused);
      DependDeleteRemoves(t, fs, p);
    case DependAddWatchPath(p) => DependMakeAdds(t, fs, p, refused);
    case _ =>
  }

  /** A slot, and the places where symlink(2) would fail during it. */
  datatype Call = Call(slot: Slot, refused: set<Path>)

  function AfterAll(t: Tables, fs: FileSystem, calls: seq<Call>): FileSystem {
    if calls == [] then fs else
    var last := calls[|calls| - 1];
    After(t, AfterAll(t, fs, calls[..|calls| - 1]), last.slot, last.refused)
  }

  /** No sequence of slot calls removes or replaces what is not a link. */
  lemma {:induction false} NonLinksSurvive(t: Tables, fs: FileSystem, calls: seq<Call>, p: Path)
    requires p in fs && !fs[p].Link?
    ensures p in AfterAll(t, fs, calls) && AfterAll(t, fs, calls)[p] == fs[p]
  {
    if calls != [] {
      NonLinksSurvive(t, fs, calls[..|calls| - 1], p);
      SlotIsSafe(t, AfterAll(t, fs, calls[..|calls| - 1]), calls[|calls| - 1].slot, calls[|calls| - 1].refused);
    }
  }

  /** A link that is there after every call of a sequence still has the target it started with. */
  lemma {:induction false} LinksAreNotRetargeted(t: Tables, fs: FileSystem, calls: seq<Call>, p: Path)
    requires forall k | 0 <= k <= |calls| :: p in AfterAll(t, fs, calls[..k])
    ensures p in fs && p in AfterAll(t, fs, calls) && AfterAll(t, fs, calls)[p] == fs[p]
  {
    assert calls[..0] == [] && calls[..|calls|] == calls;
    if calls != [] {
      var n := |calls| - 1;
      forall k | 0 <= k <= n ensures p in AfterAll(t, fs, calls[..n][..k]) {
        assert calls[..n][..k] == calls[..k];
      }
      LinksAreNotRetargeted(t, fs, calls[..n], p);
      SlotIsSafe(t, AfterAll(t, fs, calls[..n]), calls[n].slot, calls[n].refused);
    }
  }

  /**
   The storage link, for every state of its destination: a free one gets the link iff the storage is valid, ready, fuse
   and wanted, and the place is not refused; its own link stays iff the storage is all that; a foreign link stays in
   that case and goes in every other; anything else stays.
   */
  lemma StorageLinkIff(t: Tables, fs: FileSystem, path: Path, info: Storage, refused: set<Path>)
    requires path in t.storage
    ensures var dest := t.storage[path].destination; var after := After(t, fs, StorageStatusChanged(path, info), refused);
      var wanted := info.valid && info.ready && info.fuse && t.storage[path].shouldCreate;
      && (dest !in fs ==> (dest in after <==> wanted && dest !in refused) && (dest in after ==> after[dest] == Link(path)))
      && (dest in fs && fs[dest].Link? ==> (dest in after <==> wanted) && (dest in after ==> after[dest] == fs[dest]))
      && (dest in fs && !fs[dest].Link? ==> dest in after && after[dest] == fs[dest])
      && (forall p | p != dest :: (p in after <==> p in fs) && (p in fs ==> after[p] == fs[p]))
  {
  }

  // ---- the places that slots touch ----

  /** A pair of the tables: this link is one that some slot may want. */
  ghost predicate Wanted(t: Tables, dest: Path, target: Path) {
    || (target in t.directory && t.directory[target] == LinkDestination(dest, true))
    || (target in t.storage && t.storage[target] == LinkDestination(dest, true))
    || (exists p :: p in t.pending && t.pending[p].pendingPath + [t.pending[p].pendingName] == dest
          && t.pending[p].relativeLinkPath == target)
    || (exists p :: p in t.depend && t.depend[p].destLink == LinkDestination(dest, true) && t.depend[p].targetPath == target)
    || (exists p :: p in t.link && t.link[p] == LinkInfo(dest, target))
  }

  ghost predicate OnPendingWay(t: Tables, q: Path) {
    exists p :: p in t.pending && q <= t.pending[p].pendingPath
  }

  ghost predicate IsDestination(t: Tables, dest: Path) {
    || (exists p :: p in t.directory && t.directory[p].destination == dest)
    || (exists p :: p in t.storage && t.storage[p].destination == dest)
    || (exists p :: p in t.pending && t.pending[p].pendingPath + [t.pending[p].pendingName] == dest)
    || (exists p :: p in t.depend && t.depend[p].destLink.destination == dest)
    || (exists p :: p in t.link && t.link[p].destination == dest)
  }

  ghost predicate NewNode(t: Tables, p: Path, n: Node) {
    match n case Link(target) => Wanted(t, p, target) case Dir => OnPendingWay(t, p) case File => false
  }

  /**
   Everything there was there before or is what the tables want; everything gone was at one of their places; and what
   is not a link is as it was.
   */
  ghost predicate WithinTables(t: Tables, fs: FileSystem, after: FileSystem) {
    && (forall p | p in after :: (p in fs && after[p] == fs[p]) || NewNode(t, p, after[p]))
    && (forall p | p in fs && p !in after :: IsDestination(t, p))
    && (forall p | p in fs && !fs[p].Link? :: p in after && after[p] == fs[p])
  }

  lemma WithinTablesTwice(t: Tables, fs: FileSystem, mid: FileSystem, after: FileSystem)
    requires WithinTables(t, fs, mid) && WithinTables(t, mid, after)
    ensures WithinTables(t, fs, after)
  {
  }

  lemma SymlinkWithin(t: Tables, fs: FileSystem, dest: Path, target: Path, refused: set<Path>)
    requires Wanted(t, dest, target)
    ensures WithinTables(t, fs, Symlink(fs, dest, target, refused))
  {
  }

  lemma UnlinkedWithin(t: Tables, fs: FileSystem, dest: Path)
    requires IsDestination(t, dest)
    ensures WithinTables(t, fs, Unlinked(fs, dest))
  {
  }

  lemma DependMakeWithin(t: Tables, fs: FileSystem, path: Path, refused: set<Path>)
    ensures WithinTables(t, fs, DependMake(t, fs, path, refused))
  {
    if path in t.depend && t.depend[path].destLink.shouldCreate {
      var d := t.depend[path];
      assert d.destLink == LinkDestination(d.destLink.destination, true);
      SymlinkWithin(t, fs, d.destLink.destination, d.targetPath, refused);
    }
  }

  lemma DependDeleteWithin(t: Tables, fs: FileSystem, path: Path)
    ensures WithinTables(t, fs, DependDelete(t, fs, path))
  {
    if path in t.depend {
      var d := t.depend[path];
      var fs1 := if Exists(fs, path) then fs else Unlinked(fs, d.destLink.destination);
      UnlinkedWithin(t, fs, d.destLink.destination);
      UnlinkedWithin(t, fs1, d.destLink.destination);
      WithinTablesTwice(t, fs, fs1, DependDelete(t, fs, path));
    }
  }

  lemma DependUpdateWithin(t: Tables, fs: FileSystem, path: Path, refused: set<Path>)
    ensures WithinTables(t, fs, AfterDependUpdate(t, fs, path, refused))
  {
    DependMakeWithin(t, fs, path, refused);
    DependDeleteWithin(t, fs, path);
  }

  lemma PendingAddWithin(t: Tables, fs: FileSystem, path: Path, depth: nat, refused: set<Path>)
    ensures WithinTables(t, fs, AfterPendingAdd(t, fs, path, depth, refused))
  {
    if path in t.pending {
      var d := t.pending[path];
      var dest := d.pendingPath + [d.pendingName];
      var base := PendingMade(d, fs, depth);
      var mid := Symlink(base, dest, d.relativeLinkPath, refused);
      PendingMadeIff(d, fs, depth);
      assert WithinTables(t, fs, base);
      SymlinkWithin(t, base, dest, d.relativeLinkPath, refused);
      DependUpdateWithin(t, mid, d.dependPath, refused);
      WithinTablesTwice(t, fs, base, mid);
      WithinTablesTwice(t, fs, mid, AfterPendingAdd(t, fs, path, depth, refused));
    }
  }

  lemma PendingUpdateWithin(t: Tables, fs: FileSystem, path: Path)
    ensures WithinTables(t, fs, AfterPendingUpdate(t, fs, path))
  {
    if path in t.pending {
      var d := t.pending[path];
      var fs1 := AfterDependGone(t, fs, path);
      var fs2 := Unlinked(fs1, d.pendingPath + [d.pendingName]);
      DependDeleteWithin(t, fs, d.dependPath);
      UnlinkedWithin(t, fs1, d.pendingPath + [d.pendingName]);
      DependDeleteWithin(t, fs2, d.dependPath);
      WithinTablesTwice(t, fs, fs1, fs2);
      WithinTablesTwice(t, fs, fs2, DependDelete(t, fs2, d.dependPath));
    }
  }

  lemma StorageWithin(t: Tables, fs: FileSystem, path: Path, info: Storage, refused: set<Path>)
    ensures WithinTables(t, fs, AfterStorage(t, fs, path, info, refused))
  {
    if path in t.storage {
      var d := t.storage[path];
      UnlinkedWithin(t, fs, d.destination);
      if d.shouldCreate { SymlinkWithin(t, fs, d.destination, path, refused); }
    }
  }

  lemma SlotWithin(t: Tables, fs: FileSystem, s: Slot, refused: set<Path>)
    ensures WithinTables(t, fs, After(t, fs, s, refused))
  {
    match s
    case AddWatchPath(p) =>
      if p in t.directory && t.directory[p].shouldCreate { SymlinkWithin(t, fs, t.directory[p].destination, p, refused); }
    case PendingAddWatchPath(p, depth) => PendingAddWithin(t, fs, p, depth, refused);
    case LinkAddWatchPath(p) =>
      if p in t.link { SymlinkWithin(t, fs, t.link[p].destination, t.link[p].linkName, refused); }
    case DependAddWatchPath(p) => DependMakeWithin(t, fs, p, refused);
    case DirectoryUpdated(p) => if p in t.directory { UnlinkedWithin(t, fs, t.directory[p].destination); }
    case PendingDirectoryUpdated(p) => PendingUpdateWithin(t, fs, p);
    case DependDirectoryUpdated(p) => DependUpdateWithin(t, fs, p, refused);
    case LinkDirectoryUpdated(p) => if p in t.link { UnlinkedWithin(t, fs, t.link[p].destination); }
    case FileUpdated(_) =>
    case StorageStatusChanged(p, info) => StorageWithin(t, fs, p, info, refused);
  }

  /**
   Whatever slots are called in whatever order: each node that is new is a link that the tables pair with its target,
   or a directory on the way to a pending one; nothing is gone but links at the tables' destinations.
   */
  lemma {:induction false} RunStaysWithinTables(t: Tables, fs: FileSystem, calls: seq<Call>)
    ensures WithinTables(t, fs, AfterAll(t, fs, calls))
  {
    if calls != [] {
      var n := |calls| - 1;
      var mid := AfterAll(t, fs, calls[..n]);
      RunStaysWithinTables(t, fs, calls[..n]);
      SlotWithin(t, mid, calls[n].slot, calls[n].refused);
      WithinTablesTwice(t, fs, mid, AfterAll(t, fs, calls));
    }
  }

  // ---- what each slot achieves ----

  predicate Linked(fs: FileSystem, p: Path, target: Path) {
    p in fs && fs[p] == Link(target)
  }

  predicate LinkAt(fs: FileSystem, p: Path) {
    p in fs && fs[p].Link?
  }

  /** Outside `places` nothing has changed. */
  ghost predicate SameBut(fs: FileSystem, after: FileSystem, places: set<Path>) {
    forall p | p !in places :: (p in after <==> p in fs) && (p in fs ==> after[p] == fs[p])
  }

  /** What was at the place stays; a free place gets the link, unless it is refused. */
  ghost predicate Taken(fs: FileSystem, after: FileSystem, dest: Path, target: Path, refused: set<Path>) {
    if dest in fs then dest in after && after[dest] == fs[dest]
    else (dest in after <==> dest !in refused) && (dest in after ==> Linked(after, dest, target))
  }

  lemma AddWatchPathLinks(t: Tables, fs: FileSystem, path: Path, refused: set<Path>)
    requires path in t.directory
    ensures var d := t.directory[path]; var after := After(t, fs, AddWatchPath(path), refused);
      && SameBut(fs, after, {d.destination})
      && (d.shouldCreate ==> Taken(fs, after, d.destination, path, refused))
      && (!d.shouldCreate ==> after == fs)
  {
  }

  lemma LinkAddWatchPathLinks(t: Tables, fs: FileSystem, path: Path, refused: set<Path>)
    requires path in t.link
    ensures var l := t.link[path]; var after := After(t, fs, LinkAddWatchPath(path), refused);
      SameBut(fs, after, {l.destination}) && Taken(fs, after, l.destination, l.linkName, refused)
  {
  }

  /** A destination's link survives exactly when its directory is there; anything else at the destination stays. */
  ghost predicate FollowsDirectory(fs: FileSystem, after: FileSystem, path: Path, dest: Path) {
    && SameBut(fs, after, {dest})
    && (dest in after <==> dest in fs && (Exists(fs, path) || !fs[dest].Link?))
    && (dest in after ==> after[dest] == fs[dest])
  }

  lemma GoneDirectoriesLoseLinks(t: Tables, fs: FileSystem, path: Path, refused: set<Path>)
    ensures path in t.directory ==>
      FollowsDirectory(fs, After(t, fs, DirectoryUpdated(path), refused), path, t.directory[path].destination)
    ensures path in t.link ==>
      FollowsDirectory(fs, After(t, fs, LinkDirectoryUpdated(path), refused), path, t.link[path].destination)
  {
  }

  /** When a directory goes, its update undoes the link that its arrival made: only the directory is missing. */
  lemma DirectoryUpdateUndoes(t: Tables, fs: FileSystem, path: Path, refused: set<Path>, later: set<Path>)
    requires path in t.directory && t.directory[path].destination !in fs && t.directory[path].destination != path
    ensures var linked := After(t, fs, AddWatchPath(path), refused);
      After(t, linked - {path}, DirectoryUpdated(path), later) == fs - {path}
  {
    var dest := t.directory[path].destination;
    var gone := After(t, fs, AddWatchPath(path), refused) - {path};
    assert !Exists(gone, path);
    GoneDirectoriesLoseLinks(t, gone, path, later);
    AddWatchPathLinks(t, fs, path, refused);
  }

  /** The same for a directory of links. */
  lemma LinkDirectoryUpdateUndoes(t: Tables, fs: FileSystem, path: Path, refused: set<Path>, later: set<Path>)
    requires path in t.link && t.link[path].destination !in fs && t.link[path].destination != path
    ensures var linked := After(t, fs, LinkAddWatchPath(path), refused);
      After(t, linked - {path}, LinkDirectoryUpdated(path), later) == fs - {path}
  {
    var gone := After(t, fs, LinkAddWatchPath(path), refused) - {path};
    assert !Exists(gone, path);
    GoneDirectoriesLoseLinks(t, gone, path, later);
    LinkAddWatchPathLinks(t, fs, path, refused);
  }

  /** The link is wanted and possible, and the path and one required directory exist. */
  predicate DependReady(d: DependDirectory, fs: FileSystem, path: Path, refused: set<Path>) {
    && d.destLink.shouldCreate && Exists(fs, path) && AnyExists(fs, d.directories)
    && d.destLink.destination !in refused
  }

  /** What dependDirectoryUpdated makes of the destination, from what it sees: a link that is there needs only the path. */
  ghost predicate DependSettled(d: DependDirectory, path: Path, seen: FileSystem, before: FileSystem, after: FileSystem,
                                refused: set<Path>)
  {
    var dest := d.destLink.destination;
    if dest in before then
      && (dest in after <==> !before[dest].Link? || Exists(seen, path))
      && (dest in after ==> after[dest] == before[dest])
    else
      && (dest in after <==> DependReady(d, seen, path, refused))
      && (dest in after ==> Linked(after, dest, d.targetPath))
  }

  /** dependMakeLink: the wanted link is there afterwards iff it was, or the place was free and everything it needs exists. */
  lemma DependMakeIff(t: Tables, fs: FileSystem, path: Path, refused: set<Path>)
    requires path in t.depend
    ensures var d := t.depend[path]; var dest := d.destLink.destination; var after := DependMake(t, fs, path, refused);
      && SameBut(fs, after, {dest})
      && (Linked(after, dest, d.targetPath) <==>
            Linked(fs, dest, d.targetPath) || (dest !in fs && DependReady(d, fs, path, refused)))
      && (dest in fs ==> dest in after && after[dest] == fs[dest])
  {
  }

  /** The slot that starts to watch such a path does just that. */
  lemma DependAddWatchPathLinks(t: Tables, fs: FileSystem, path: Path, refused: set<Path>)
    requires path in t.depend
    ensures var d := t.depend[path]; var dest := d.destLink.destination;
      var after := After(t, fs, DependAddWatchPath(path), refused);
      && SameBut(fs, after, {dest})
      && (dest in fs ==> dest in after && after[dest] == fs[dest])
      && (dest !in fs ==> (dest in after <==> DependReady(d, fs, path, refused))
                          && (dest in after ==> Linked(after, dest, d.targetPath)))
  {
    DependMakeIff(t, fs, path, refused);
  }

  /** A slot called for a path that its table does not list leaves every link alone; a changed file always does. */
  lemma UnlistedPathDoesNothing(t: Tables, fs: FileSystem, path: Path, depth: nat, info: Storage, refused: set<Path>)
    ensures path !in t.directory ==>
      After(t, fs, AddWatchPath(path), refused) == fs && After(t, fs, DirectoryUpdated(path), refused) == fs
    ensures path !in t.link ==>
      After(t, fs, LinkAddWatchPath(path), refused) == fs && After(t, fs, LinkDirectoryUpdated(path), refused) == fs
    ensures path !in t.depend ==>
      After(t, fs, DependAddWatchPath(path), refused) == fs && After(t, fs, DependDirectoryUpdated(path), refused) == fs
    ensures path !in t.pending ==>
      After(t, fs, PendingAddWatchPath(path, depth), refused) == fs && After(t, fs, PendingDirectoryUpdated(path), refused) == fs
    ensures path !in t.storage ==> After(t, fs, StorageStatusChanged(path, info), refused) == fs
    ensures After(t, fs, FileUpdated(path), refused) == fs
  {
  }

  /** dependDeleteLink: a link stays iff both the path and a required directory exist; removing it never changes the verdict. */
  lemma DependDeleteIff(t: Tables, fs: FileSystem, path: Path)
    requires path in t.depend
    ensures var d := t.depend[path]; var dest := d.destLink.destination; var after := DependDelete(t, fs, path);
      && SameBut(fs, after, {dest})
      && (dest in after <==> dest in fs && (!fs[dest].Link? || (Exists(fs, path) && AnyExists(fs, d.directories))))
      && (dest in after ==> after[dest] == fs[dest])
  {
  }

  /**
   dependDirectoryUpdated, exactly. A link that is there stays as long as the path exists, also when every required
   directory is gone; it goes with the path. A free place gets the link iff it is wanted and all it needs exists.
   */
  lemma DependUpdateIff(t: Tables, fs: FileSystem, path: Path, refused: set<Path>)
    requires path in t.depend
    ensures After(t, fs, DependDirectoryUpdated(path), refused) == AfterDependUpdate(t, fs, path, refused)
    ensures var d := t.depend[path]; var after := After(t, fs, DependDirectoryUpdated(path), refused);
      SameBut(fs, after, {d.destLink.destination}) && DependSettled(d, path, fs, fs, after, refused)
  {
    DependMakeIff(t, fs, path, refused);
    DependDeleteIff(t, fs, path);
  }

  /** With mkpath successful the pending directory has all its missing parents, and nothing else is made. */
  lemma PendingMadeIff(d: PendingDirectory, fs: FileSystem, depth: nat)
    ensures var base := PendingMade(d, fs, depth);
      && (forall q | q in fs :: q in base && base[q] == fs[q])
      && (forall q | q in base && q !in fs :: base[q].Dir? && q <= d.pendingPath && !Exists(fs, d.pendingPath))
      && (!Exists(fs, d.pendingPath) && |d.pendingPath| <= depth ==>
            forall k | 0 < k <= |d.pendingPath| :: d.pendingPath[..k] in base)
      && (|d.pendingPath| <= depth && d.pendingPath != [] && d.pendingPath !in fs ==> Exists(base, d.pendingPath))
  {
    assert d.pendingPath[..|d.pendingPath|] == d.pendingPath;
  }

  /**
   pendingAddWatchPath, from the directories that mkpath has made: the pending place is taken, and the link that depends
   on it is as dependDirectoryUpdated leaves it; nothing else has changed.
   */
  lemma PendingAddIff(t: Tables, fs: FileSystem, path: Path, depth: nat, refused: set<Path>)
    requires path in t.pending
    ensures var d := t.pending[path]; var dest := d.pendingPath + [d.pendingName];
      var base := PendingMade(d, fs, depth); var after := After(t, fs, PendingAddWatchPath(path, depth), refused);
      && (d.dependPath !in t.depend ==> SameBut(base, after, {dest}) && Taken(base, after, dest, d.relativeLinkPath, refused))
      && (d.dependPath in t.depend && t.depend[d.dependPath].destLink.destination != dest ==>
            var e := t.depend[d.dependPath]; var other := e.destLink.destination;
            && SameBut(base, after, {dest, other})
            && Taken(base, after, dest, d.relativeLinkPath, refused)
            && DependSettled(e, d.dependPath, Symlink(base, dest, d.relativeLinkPath, refused), base, after, refused))
  {
    var d := t.pending[path];
    var mid := Symlink(PendingMade(d, fs, depth), d.pendingPath + [d.pendingName], d.relativeLinkPath, refused);
    if d.dependPath in t.depend { DependUpdateIff(t, mid, d.dependPath, refused); }
  }

  /** Where a slot only removes, nothing comes into being by it. */
  lemma {:induction false} ResolvesShrinks(fs: FileSystem, after: FileSystem, p: Path, hops: nat)
    requires OnlyRemoves(fs, after) && Resolves(after, p, hops)
    ensures Resolves(fs, p, hops)
    decreases hops
  {
    if after[p].Link? { ResolvesShrinks(fs, after, after[p].target, hops - 1); }
  }

  /**
   pendingDirectoryUpdated, exactly. Without a depending entry the pending link stays iff its directory is there. With
   one, the depending link stays iff its path is there, and the pending directory too or else, once the pending link is
   gone, still the path and a required directory; the pending link stays iff its directory is there, looked at after
   the depending link went for want of its path. Nothing else changes, and nothing comes into being.
   */
  lemma PendingUpdateIff(t: Tables, fs: FileSystem, path: Path)
    requires path in t.pending
    ensures var d := t.pending[path]; var dest := d.pendingPath + [d.pendingName]; var after := After(t, fs, PendingDirectoryUpdated(path), {});
      && (forall q | q in after :: q in fs && after[q] == fs[q])
      && (!Exists(fs, path) ==> !LinkAt(after, dest))
      && (d.dependPath !in t.depend ==>
            SameBut(fs, after, {dest}) && (LinkAt(after, dest) <==> LinkAt(fs, dest) && Exists(fs, path)))
      && (d.dependPath in t.depend && t.depend[d.dependPath].destLink.destination != dest ==>
            PendingUpdated(d, t.depend[d.dependPath], path, fs, after))
  {
    var d := t.pending[path];
    var dest := d.pendingPath + [d.pendingName];
    var fs1 := AfterDependGone(t, fs, path);
    DependDeleteRemoves(t, fs, d.dependPath);
    DependDeleteRemoves(t, Unlinked(fs1, dest), d.dependPath);
    if Exists(fs1, path) { ResolvesShrinks(fs, fs1, path, MAXSYMLINKS); }
    if d.dependPath in t.depend {
      DependDeleteIff(t, fs, d.dependPath);
      DependDeleteIff(t, Unlinked(fs1, dest), d.dependPath);
    }
  }

  ghost predicate PendingUpdated(d: PendingDirectory, e: DependDirectory, path: Path, fs: FileSystem, after: FileSystem) {
    var dest, other := d.pendingPath + [d.pendingName], e.destLink.destination;
    var without := Unlinked(fs, dest);
    var seen := if Exists(fs, d.dependPath) then fs else Unlinked(fs, other);
    && SameBut(fs, after, {dest, other})
    && (LinkAt(after, dest) <==> LinkAt(fs, dest) && Exists(seen, path))
    && (LinkAt(after, other) <==>
          && LinkAt(fs, other) && Exists(fs, d.dependPath)
          && (Exists(fs, path) || (Exists(without, d.dependPath) && AnyExists(without, e.directories))))
  }

  // ---- the slots ----

  /** Only `path` may have come or gone, and it is there iff `there`. */
  ghost predicate Changed(before: set<Path>, after: set<Path>, path: Path, there: bool) {
    (path in after <==> there) && forall q | q != path :: (q in after <==> q in before)
  }

  class FileWatcher {
    const tables: Tables
    var fs: FileSystem
    var m_systemPaths: set<Path>
    var m_pendingPaths: set<Path>
    var m_dependPaths: set<Path>
    var m_linkPaths: set<Path>
    var checks: seq<(Path, bool)>     // checkStorage signals emitted

    constructor (t: Tables, initial: FileSystem)
      ensures tables == t && fs == initial && checks == []
    {
      tables, fs, checks := t, initial, [];
      m_systemPaths, m_pendingPaths, m_dependPaths, m_linkPaths := {}, {}, {}, {};
    }

    method MakeLink(dest: Path, source: Path, refused: set<Path>)
      modifies this`fs
      ensures fs == Symlink(old(fs), dest, source, refused)
    {
      var linkPath := if dest in fs && fs[dest].Link? then Some(fs[dest].target) else None;
      if linkPath == Some(source) {
        return;
      }
      if linkPath.None? {
        if Exists(fs, dest) {
          return;
        } else {
          fs := Symlink(fs, dest, source, refused);
        }
      }
    }

    method DeleteLink(dest: Path)
      modifies this`fs
      ensures fs == Unlinked(old(fs), dest)
    {
      var linkPath := if dest in fs && fs[dest].Link? then Some(fs[dest].target) else None;
      if linkPath.None? {
        if Exists(fs, dest) {
          return;
        }
      }
      fs := fs - {dest};
    }

    method HasRequired(directories: seq<Path>) returns (found: bool)
      ensures found <==> AnyExists(fs, directories)
    {
      found := false;
      for i := 0 to |directories|
        invariant !found && forall j | 0 <= j < i :: !Exists(fs, directories[j])
      {
        if Exists(fs, directories[i]) {
          return true;
        }
      }
    }

    method DependMakeLink(path: Path, refused: set<Path>)
      modifies this`fs
      ensures fs == DependMake(tables, old(fs), path, refused)
    {
      if path !in tables.depend {
        return;
      }
      var d := tables.depend[path];
      var hasRequiredDirectory := false;
      if Exists(fs, path) {
        hasRequiredDirectory := HasRequired(d.directories);
      }
      if d.destLink.shouldCreate && hasRequiredDirectory {
        MakeLink(d.destLink.destination, d.targetPath, refused);
      }
    }

    method DependDeleteLink(path: Path)
      modifies this`fs
      ensures fs == DependDelete(tables, old(fs), path)
    {
      if path !in tables.depend {
        return;
      }
      var d := tables.depend[path];
      if !Exists(fs, path) {
        DeleteLink(d.destLink.destination);
      }
      var hasRequiredDirectory := HasRequired(d.directories);
      if !hasRequiredDirectory {
        DeleteLink(d.destLink.destination);
      }
    }

    method AddWatchPath(path: Path, refused: set<Path>)
      modifies this`fs, this`m_systemPaths
      ensures fs == After(tables, old(fs), Slot.AddWatchPath(path), refused) && Changed(old(m_systemPaths), m_systemPaths, path, path in old(m_systemPaths) || Exists(old(fs), path))
    {
      if Exists(fs, path) { m_systemPaths := m_systemPaths + {path}; }
      if path !in tables.directory {
        return;
      }
      if tables.directory[path].shouldCreate {
        MakeLink(tables.directory[path].destination, path, refused);
      }
    }

    method PendingAddWatchPath(path: Path, depth: nat, refused: set<Path>)
      modifies this`fs, this`m_pendingPaths
      ensures fs == After(tables, old(fs), Slot.PendingAddWatchPath(path, depth), refused)
      ensures Changed(old(m_pendingPaths), m_pendingPaths, path, path in old(m_pendingPaths) || Exists(old(fs), path))
    {
      if Exists(fs, path) { m_pendingPaths := m_pendingPaths + {path}; }
      if path !in tables.pending {
        return;
      }
      var d := tables.pending[path];
      if !Exists(fs, d.pendingPath) {
        fs := WithDirs(fs, d.pendingPath, depth);
      }
      MakeLink(d.pendingPath + [d.pendingName], d.relativeLinkPath, refused);
      if Exists(fs, d.dependPath) {
        DependMakeLink(d.dependPath, refused);
      } else {
        DependDeleteLink(d.dependPath);
      }
    }

    method LinkAddWatchPath(path: Path, refused: set<Path>)
      modifies this`fs, this`m_linkPaths
      ensures fs == After(tables, old(fs), Slot.LinkAddWatchPath(path), refused) && Changed(old(m_linkPaths), m_linkPaths, path, path in old(m_linkPaths) || Exists(old(fs), path))
    {
      if Exists(fs, path) { m_linkPaths := m_linkPaths + {path}; }
      if path !in tables.link {
        return;
      }
      fs := Symlink(fs, tables.link[path].destination, tables.link[path].linkName, refused);
    }

    method DependAddWatchPath(path: Path, refused: set<Path>)
      modifies this`fs, this`m_dependPaths
      ensures fs == After(tables, old(fs), Slot.DependAddWatchPath(path), refused) && Changed(old(m_dependPaths), m_dependPaths, path, path in old(m_dependPaths) || Exists(old(fs), path))
    {
      if Exists(fs, path) { m_dependPaths := m_dependPaths + {path}; }
      DependMakeLink(path, refused);
    }

    method DirectoryUpdated(path: Path)
      modifies this`fs, this`m_systemPaths
      ensures fs == After(tables, old(fs), Slot.DirectoryUpdated(path), {})
      ensures Changed(old(m_systemPaths), m_systemPaths, path, path in old(m_systemPaths) && Exists(old(fs), path))
    {
      if !Exists(fs, path) {
        m_systemPaths := m_systemPaths - {path};
        if path in tables.directory {
          DeleteLink(tables.directory[path].destination);
        }
      }
    }

    method PendingDirectoryUpdated(path: Path)
      modifies this`fs, this`m_pendingPaths
      ensures fs == After(tables, old(fs), Slot.PendingDirectoryUpdated(path), {})
      ensures Changed(old(m_pendingPaths), m_pendingPaths, path,
        path in old(m_pendingPaths) && (path in tables.pending ==> Exists(AfterDependGone(tables, old(fs), path), path)))
    {
      if path !in tables.pending {
        return;
      }
      var d := tables.pending[path];
      if !Exists(fs, d.dependPath) {
        DependDeleteLink(d.dependPath);
      }
      if !Exists(fs, path) {
        m_pendingPaths := m_pendingPaths - {path};
        DeleteLink(d.pendingPath + [d.pendingName]);
        DependDeleteLink(d.dependPath);
      }
    }

    method DependDirectoryUpdated(path: Path, refused: set<Path>)
      modifies this`fs, this`m_dependPaths
      ensures fs == After(tables, old(fs), Slot.DependDirectoryUpdated(path), refused)
      ensures Changed(old(m_dependPaths), m_dependPaths, path,
        path in old(m_dependPaths) && (path in tables.depend ==> Exists(old(fs), path)))
    {
      if path !in tables.depend {
        return;
      }
      var d := tables.depend[path];
      if Exists(fs, path) {
        var dest := d.destLink.destination;
        if !(dest in fs && fs[dest] == Link(d.targetPath)) {
          DependMakeLink(path, refused);
        }
      } else {
        m_dependPaths := m_dependPaths - {path};
        DependDeleteLink(path);
      }
    }

    method LinkDirectoryUpdated(path: Path)
      modifies this`fs, this`m_linkPaths
      ensures fs == After(tables, old(fs), Slot.LinkDirectoryUpdated(path), {})
      ensures Changed(old(m_linkPaths), m_linkPaths, path, path in old(m_linkPaths) && Exists(old(fs), path))
    {
      if !Exists(fs, path) {
        m_linkPaths := m_linkPaths - {path};
        if path in tables.link {
          DeleteLink(tables.link[path].destination);
        }
      }
    }

    method FileUpdated(path: Path)
      modifies this`m_systemPaths
      ensures fs == After(tables, old(fs), Slot.FileUpdated(path), {})
      ensures Changed(old(m_systemPaths), m_systemPaths, path, path in old(m_systemPaths) && Exists(fs, path))
    {
      if !Exists(fs, path) {
        m_systemPaths := m_systemPaths - {path};
      }
    }

    method StorageStatusChanged(path: Path, info: Storage, refused: set<Path>)
      modifies this`fs, this`checks
      ensures fs == After(tables, old(fs), Slot.StorageStatusChanged(path, info), refused)
      ensures checks == old(checks) +
        if path in tables.storage then [(path, info.valid && info.ready && info.fuse)] else []
    {
      if path !in tables.storage {
        return;
      }
      var d := tables.storage[path];
      if !info.ready || !info.valid {
        DeleteLink(d.destination);
        checks := checks + [(path, false)];
        return;
      }
      var fuseMounted;
      if info.fuse {
        if d.shouldCreate {
          MakeLink(d.destination, path, refused);
        }
        fuseMounted := true;
      } else {
        DeleteLink(d.destination);
        fuseMounted := false;
      }
      if !d.shouldCreate {
        DeleteLink(d.destination);
      }
      checks := checks + [(path, fuseMounted)];
    }
  }
}
