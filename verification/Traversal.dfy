/**
 The recursive add-watch-then-scan traversal, on any finite directory tree.

 `FileInotifyService` runs it over its watcher and its list of files to announce. The result is compared with a
 description of the tree by name sequences: what can be reached from the root without crossing a skipped name.
 */
module Traversal {
  import opened Base
  import opened Paths
  import opened WatchIndex
  import NotifyQueue

  /** What lstat, readdir and the mime database say about one node; a symbolic link, socket or device is Other. */
  datatype Node =
    | File(qualifies: bool)
    | Other
    | Dir(inode: Inode, readable: bool, entries: seq<DirEntry>)

  datatype DirEntry = DirEntry(name: Name, node: Node)

  /** readdir reports each name once. */
  ghost predicate WellFormed(node: Node) {
    node.Dir? ==>
      && (forall i, j | 0 <= i < j < |node.entries| :: node.entries[i].name != node.entries[j].name)
      && (forall i | 0 <= i < |node.entries| :: WellFormed(node.entries[i].node))
  }

  /** What the traversal does to one node of the tree: addWatch on a directory, addNotifyFile on a file. */
  datatype Action = Watch(path: Path, inode: Inode) | Notify(path: Path)

  /** The actions of watchAndNotifyDirectoryRecursively on a directory, in order. */
  function Visit(path: Path, node: Node, notify: bool): seq<Action>
    requires node.Dir?
    decreases node, 1, 0
  {
    [Watch(path, node.inode)] + if node.readable then Scan(path, node, 0, notify) else []
  }

  /** The readdir loop from its `i`-th entry on. */
  function Scan(path: Path, dir: Node, i: nat, notify: bool): seq<Action>
    requires dir.Dir? && i <= |dir.entries|
    decreases dir, 0, |dir.entries| - i
  {
    if i == |dir.entries| then [] else VisitEntry(path, dir, i, notify) + Scan(path, dir, i + 1, notify)
  }

  function VisitEntry(path: Path, dir: Node, i: nat, notify: bool): seq<Action>
    requires dir.Dir? && i < |dir.entries|
    decreases dir.entries[i].node, 2
  {
    var e := dir.entries[i];
    if Skipped(e.name) then []
    else if e.node.File? && notify then (if e.node.qualifies then [Notify(path + [e.name])] else [])
    else if e.node.Dir? then Visit(path + [e.name], e.node, notify)
    else []
  }

  // ---- the independent description ----

  /** The node that the names lead to, if every directory on the way is readable and no name is skipped. */
  ghost function Reach(node: Node, names: seq<Name>): Option<Node> {
    if names == [] then Some(node)
    else if exists i :: HasEntry(node, i, names[0]) then
      var i :| HasEntry(node, i, names[0]);
      Reach(node.entries[i].node, names[1..])
    else None
  }

  ghost predicate HasEntry(node: Node, i: int, name: Name) {
    node.Dir? && node.readable && !Skipped(name) && 0 <= i < |node.entries| && node.entries[i].name == name
  }

  /** An action is due: the names lead to a directory, or to a qualifying file when files are announced. */
  ghost predicate Due(root: Node, names: seq<Name>, base: Path, notify: bool, a: Action) {
    && a.path == base + names
    && Reach(root, names).Some?
    && match Reach(root, names).value
       case Dir(n, _, _) => a == Watch(a.path, n)
       case File(q) => q && notify && a == Notify(a.path)
       case Other => false
  }

  lemma ReachEntry(dir: Node, i: nat, rest: seq<Name>)
    requires dir.Dir? && dir.readable && WellFormed(dir) && i < |dir.entries| && !Skipped(dir.entries[i].name)
    ensures Reach(dir, [dir.entries[i].name] + rest) == Reach(dir.entries[i].node, rest)
  {
    var name := dir.entries[i].name;
    assert HasEntry(dir, i, name);
    assert ([name] + rest)[1..] == rest;
    assert forall j | HasEntry(dir, j, name) :: j == i;
  }

  /** Soundness: every action is due. */
  lemma {:induction false} VisitIsDue(path: Path, node: Node, notify: bool, a: Action) returns (names: seq<Name>)
    requires node.Dir? && WellFormed(node) && a in Visit(path, node, notify)
    ensures Due(node, names, path, notify, a)
    decreases node, 1, 0
  {
    if a == Watch(path, node.inode) {
      names := [];
      assert path + names == path;
    } else {
      names := ScanIsDue(path, node, 0, notify, a);
    }
  }

  lemma {:induction false} ScanIsDue(path: Path, dir: Node, i: nat, notify: bool, a: Action) returns (names: seq<Name>)
    requires dir.Dir? && dir.readable && WellFormed(dir) && i <= |dir.entries| && a in Scan(path, dir, i, notify)
    ensures names != [] && Due(dir, names, path, notify, a)
    decreases dir, 0, |dir.entries| - i
  {
    if a in VisitEntry(path, dir, i, notify) {
      var e := dir.entries[i];
      var rest := [];
      if e.node.Dir? {
        rest := VisitIsDue(path + [e.name], e.node, notify, a);
      }
      names := [e.name] + rest;
      EntryIsDue(path, dir, i, rest, notify, a);
    } else {
      names := ScanIsDue(path, dir, i + 1, notify, a);
    }
  }

  /** What is due below an entry is due below the directory. */
  lemma EntryIsDue(path: Path, dir: Node, i: nat, rest: seq<Name>, notify: bool, a: Action)
    requires dir.Dir? && dir.readable && WellFormed(dir) && i < |dir.entries| && !Skipped(dir.entries[i].name)
    requires Due(dir.entries[i].node, rest, path + [dir.entries[i].name], notify, a)
    ensures Due(dir, [dir.entries[i].name] + rest, path, notify, a)
  {
    var e := dir.entries[i];
    ReachEntry(dir, i, rest);
    assert path + ([e.name] + rest) == path + [e.name] + rest;
  }

  /** Completeness: everything due is done. */
  lemma {:induction false} DueIsVisited(root: Node, names: seq<Name>, base: Path, notify: bool, a: Action)
    requires root.Dir? && WellFormed(root) && Due(root, names, base, notify, a)
    ensures a in Visit(base, root, notify)
    decreases |names|
  {
    if names == [] {
      assert base + names == base;
    } else {
      var i :| HasEntry(root, i, names[0]);
      var e := root.entries[i];
      assert names == [e.name] + names[1..];
      ReachEntry(root, i, names[1..]);
      assert base + names == base + [e.name] + names[1..];
      assert Due(e.node, names[1..], base + [e.name], notify, a);
      if e.node.Dir? {
        DueIsVisited(e.node, names[1..], base + [e.name], notify, a);
      } else {
        assert Reach(e.node, names[1..]).Some?;
        assert names[1..] == [];
        assert base + names == base + [e.name];
      }
      assert a in VisitEntry(base, root, i, notify);
      InScan(base, root, 0, i, notify, a);
    }
  }

  lemma {:induction false} InScan(path: Path, dir: Node, from: nat, i: nat, notify: bool, a: Action)
    requires dir.Dir? && from <= i < |dir.entries| && a in VisitEntry(path, dir, i, notify)
    ensures a in Scan(path, dir, from, notify)
    decreases i - from
  {
    if from < i { InScan(path, dir, from + 1, i, notify, a); }
  }

  /** No action is repeated, not even its path. */
  ghost predicate DistinctPaths(s: seq<Action>) {
    forall i, j | 0 <= i < j < |s| :: s[i].path != s[j].path
  }

  lemma {:induction false} VisitExtends(path: Path, node: Node, notify: bool, k: nat)
    requires node.Dir? && WellFormed(node) && k < |Visit(path, node, notify)|
    ensures path <= Visit(path, node, notify)[k].path
    ensures k > 0 ==> path < Visit(path, node, notify)[k].path
  {
    var a := Visit(path, node, notify)[k];
    if k > 0 {
      assert a in Scan(path, node, 0, notify);
      var names := ScanIsDue(path, node, 0, notify, a);
    }
  }

  /** The actions of the scan from `i` on lie below an entry with that index or a later one. */
  lemma {:induction false} ScanBelow(path: Path, dir: Node, i: nat, notify: bool, a: Action) returns (j: nat)
    requires dir.Dir? && dir.readable && WellFormed(dir) && i <= |dir.entries| && a in Scan(path, dir, i, notify)
    ensures i <= j < |dir.entries| && path + [dir.entries[j].name] <= a.path
    decreases |dir.entries| - i
  {
    if a in VisitEntry(path, dir, i, notify) {
      j := i;
      EntryBelow(path, dir, i, notify, a);
    } else {
      j := ScanBelow(path, dir, i + 1, notify, a);
    }
  }

  lemma EntryBelow(path: Path, dir: Node, i: nat, notify: bool, a: Action)
    requires dir.Dir? && WellFormed(dir) && i < |dir.entries| && a in VisitEntry(path, dir, i, notify)
    ensures path + [dir.entries[i].name] <= a.path
  {
    var e := dir.entries[i];
    if e.node.Dir? {
      var names := VisitIsDue(path + [e.name], e.node, notify, a);
    }
  }

  lemma {:induction false} VisitDistinct(path: Path, node: Node, notify: bool)
    requires node.Dir? && WellFormed(node)
    ensures DistinctPaths(Visit(path, node, notify))
    decreases node, 1, 0
  {
    var all := Visit(path, node, notify);
    if node.readable { ScanDistinct(path, node, 0, notify); }
    forall i, j | 0 <= i < j < |all| ensures all[i].path != all[j].path {
      VisitExtends(path, node, notify, j);
    }
  }

  lemma {:induction false} ScanDistinct(path: Path, dir: Node, i: nat, notify: bool)
    requires dir.Dir? && dir.readable && WellFormed(dir) && i <= |dir.entries|
    ensures DistinctPaths(Scan(path, dir, i, notify))
    decreases dir, 0, |dir.entries| - i
  {
    if i < |dir.entries| {
      var first, rest := VisitEntry(path, dir, i, notify), Scan(path, dir, i + 1, notify);
      ScanDistinct(path, dir, i + 1, notify);
      if dir.entries[i].node.Dir? {
        VisitDistinct(path + [dir.entries[i].name], dir.entries[i].node, notify);
      }
      forall a, b | a in first && b in rest ensures a.path != b.path {
        EntryBelow(path, dir, i, notify, a);
        var j := ScanBelow(path, dir, i + 1, notify, b);
        assert a.path[|path|] == dir.entries[i].name && b.path[|path|] == dir.entries[j].name;
      }
    }
  }

  ghost predicate DirReached(root: Node, base: Path, p: Path) {
    exists names :: p == base + names && Reach(root, names).Some? && Reach(root, names).value.Dir?
  }

  ghost predicate FileReached(root: Node, base: Path, p: Path) {
    exists names :: p == base + names && Reach(root, names) == Some(File(true))
  }

  // ---- the effect of the actions ----

  /** The paths on which inotify_add_watch fails; its result is ignored, the scan goes on. */
  function Target(a: Action, refused: set<Path>): Option<Inode> {
    if a.Watch? && a.path !in refused then Some(a.inode) else None
  }

  function Watched(ix: Index, acts: seq<Action>, refused: set<Path>): (r: Index)
    requires ix.kernel.Valid()
    ensures r.kernel.Valid()
    decreases |acts|
  {
    if acts == [] then ix
    else if acts[0].Watch? then Watched(ix.Add(acts[0].path, Target(acts[0], refused)), acts[1..], refused)
    else Watched(ix, acts[1..], refused)
  }

  function Notified(acts: seq<Action>): seq<Path> {
    if acts == [] then []
    else (if acts[0].Notify? then [acts[0].path] else []) + Notified(acts[1..])
  }

  lemma {:induction false} WatchedConcat(ix: Index, a: seq<Action>, b: seq<Action>, refused: set<Path>)
    requires ix.kernel.Valid()
    ensures Watched(ix, a + b, refused) == Watched(Watched(ix, a, refused), b, refused)
    decreases |a|
  {
    if a == [] {
      assert a + b == b;
    } else {
      assert (a + b)[1..] == a[1..] + b;
      WatchedConcat(if a[0].Watch? then ix.Add(a[0].path, Target(a[0], refused)) else ix, a[1..], b, refused);
    }
  }

  lemma {:induction false} NotifiedConcat(a: seq<Action>, b: seq<Action>)
    ensures Notified(a + b) == Notified(a) + Notified(b)
  {
    if a == [] {
      assert a + b == b;
    } else {
      assert (a + b)[1..] == a[1..] + b;
      NotifiedConcat(a[1..], b);
    }
  }

  ghost predicate WatchesPath(acts: seq<Action>, p: Path) {
    exists a :: a in acts && a.Watch? && a.path == p
  }

  /** A path gets registered by the actions iff one of them watches it and is not refused. */
  lemma {:induction false} WatchedPaths(ix: Index, acts: seq<Action>, refused: set<Path>)
    requires ix.Inv()
    ensures var r := Watched(ix, acts, refused);
      && r.Inv()
      && (forall p | p in ix.paths :: p in r.paths && r.paths[p] == ix.paths[p])
      && (forall p :: p in r.paths <==> (p in ix.paths || (p !in refused && WatchesPath(acts, p))))
    decreases |acts|
  {
    if acts != [] {
      var next := if acts[0].Watch? then ix.Add(acts[0].path, Target(acts[0], refused)) else ix;
      if acts[0].Watch? { AddKeepsInv(ix, acts[0].path, Target(acts[0], refused)); }
      WatchedPaths(next, acts[1..], refused);
      assert acts == [acts[0]] + acts[1..];
      var r := Watched(ix, acts, refused);
      forall p ensures p in r.paths <==> (p in ix.paths || (p !in refused && WatchesPath(acts, p))) {
        assert p in next.paths <==> (p in ix.paths || (p !in refused && acts[0].Watch? && acts[0].path == p));
        assert WatchesPath(acts, p) <==> (acts[0].Watch? && acts[0].path == p) || WatchesPath(acts[1..], p);
      }
    }
  }

  /** What was watched before stays watched by the same descriptor, and a new watch has a new one. */
  lemma {:induction false} WatchedKeeps(ix: Index, acts: seq<Action>, refused: set<Path>)
    requires ix.Inv()
    ensures var r := Watched(ix, acts, refused);
      && r.Inv() && ix.kernel.next <= r.kernel.next
      && (forall p | p in ix.paths :: p in r.paths && r.paths[p] == ix.paths[p])
      && (forall n | n in ix.kernel.watch :: n in r.kernel.watch && r.kernel.watch[n] == ix.kernel.watch[n])
      && (forall n | n in r.kernel.watch && n !in ix.kernel.watch :: ix.kernel.next <= r.kernel.watch[n])
    decreases |acts|
  {
    if acts != [] {
      var next := if acts[0].Watch? then ix.Add(acts[0].path, Target(acts[0], refused)) else ix;
      if acts[0].Watch? { AddKeepsInv(ix, acts[0].path, Target(acts[0], refused)); }
      WatchedKeeps(next, acts[1..], refused);
    }
  }

  /** A path without an old entry ends on the live watch of the directory it was added for. */
  lemma {:induction false} WatchedLive(ix: Index, acts: seq<Action>, refused: set<Path>, a: Action)
    requires ix.Inv() && DistinctPaths(acts) && a in acts && a.Watch? && a.path !in ix.paths && a.path !in refused
    ensures Watched(ix, acts, refused).Watches(a.path, a.inode)
    decreases |acts|
  {
    var next := if acts[0].Watch? then ix.Add(acts[0].path, Target(acts[0], refused)) else ix;
    if acts[0].Watch? { AddKeepsInv(ix, acts[0].path, Target(acts[0], refused)); }
    if acts[0] == a {
      WatchedKeeps(next, acts[1..], refused);
    } else {
      var k :| 0 < k < |acts| && acts[k] == a;
      assert acts[1..][k - 1] == a;
      assert acts[0].path != a.path;
      WatchedLive(next, acts[1..], refused, a);
    }
  }

  lemma {:induction false} NotifiedPaths(acts: seq<Action>)
    requires DistinctPaths(acts)
    ensures forall p :: p in Notified(acts) <==> Notify(p) in acts
    ensures forall i, j | 0 <= i < j < |Notified(acts)| :: Notified(acts)[i] != Notified(acts)[j]
  {
    if acts != [] {
      NotifiedPaths(acts[1..]);
      assert acts == [acts[0]] + acts[1..];
      forall p | p in Notified(acts[1..]) ensures p != acts[0].path {
        var k :| 0 <= k < |acts[1..]| && acts[1..][k] == Notify(p);
        assert acts[k + 1].path == p;
      }
    }
  }

  /**
   The traversal on any tree, against the description: registered paths are the old ones and the directories that
   are reached and not refused; announced files are exactly the qualifying ones reached, once each, and none at
   all when files are not wanted.
   */
  lemma TraversalMeetsSpec(ix: Index, base: Path, root: Node, notify: bool, refused: set<Path>)
    requires ix.Inv() && root.Dir? && WellFormed(root)
    ensures var acts := Visit(base, root, notify);
      var after := Watched(ix, acts, refused);
      && after.Inv()
      && (forall p :: p in after.paths <==> (p in ix.paths || (p !in refused && DirReached(root, base, p))))
      && (forall p :: p in Notified(acts) <==> (notify && FileReached(root, base, p)))
      && (forall i, j | 0 <= i < j < |Notified(acts)| :: Notified(acts)[i] != Notified(acts)[j])
  {
    var acts := Visit(base, root, notify);
    var after := Watched(ix, acts, refused);
    WatchedPaths(ix, acts, refused);
    VisitDistinct(base, root, notify);
    NotifiedPaths(acts);
    forall p ensures WatchesPath(acts, p) <==> DirReached(root, base, p) {
      if WatchesPath(acts, p) {
        var a :| a in acts && a.Watch? && a.path == p;
        var names := VisitIsDue(base, root, notify, a);
        assert Reach(root, names).value.Dir?;
      }
      if DirReached(root, base, p) {
        var names :| p == base + names && Reach(root, names).Some? && Reach(root, names).value.Dir?;
        DueIsVisited(root, names, base, notify, Watch(p, Reach(root, names).value.inode));
      }
    }
    forall p ensures p in Notified(acts) <==> (notify && FileReached(root, base, p)) {
      if p in Notified(acts) {
        var names := VisitIsDue(base, root, notify, Notify(p));
        assert Reach(root, names) == Some(File(true));
      }
      if notify && FileReached(root, base, p) {
        var names :| p == base + names && Reach(root, names) == Some(File(true));
        DueIsVisited(root, names, base, notify, Notify(p));
      }
    }
  }

  /** A second run finds everything registered: it leaves the index and the kernel as they are. */
  lemma {:induction false} SecondRunAddsNothing(ix: Index, acts: seq<Action>, refused: set<Path>)
    requires ix.Inv() && forall a | a in acts && a.Watch? :: a.path in ix.paths || a.path in refused
    ensures Watched(ix, acts, refused) == ix
    decreases |acts|
  {
    if acts != [] {
      assert acts[0] in acts;
      SecondRunAddsNothing(ix, acts[1..], refused);
    }
  }

  lemma SecondTraversalAddsNothing(ix: Index, base: Path, root: Node, notify: bool, again: bool, refused: set<Path>)
    requires ix.Inv() && root.Dir? && WellFormed(root)
    ensures var once := Watched(ix, Visit(base, root, notify), refused);
      Watched(once, Visit(base, root, again), refused) == once
  {
    var once := Watched(ix, Visit(base, root, notify), refused);
    var acts := Visit(base, root, again);
    TraversalMeetsSpec(ix, base, root, notify, refused);
    forall a | a in acts && a.Watch? ensures a.path in once.paths || a.path in refused {
      var names := VisitIsDue(base, root, again, a);
      assert Reach(root, names).value.Dir?;
    }
    SecondRunAddsNothing(once, acts, refused);
  }

  // ---- the service ----

  class FileInotifyService {
    const mWatcher: FileInotifyWatcher
    const mFileList: NotifyQueue.FileList

    constructor (watcher: FileInotifyWatcher, list: NotifyQueue.FileList)
      ensures mWatcher == watcher && mFileList == list
    {
      mWatcher, mFileList := watcher, list;
    }

    ghost predicate Valid()
      reads this, mWatcher, mFileList
    {
      mWatcher.Valid() && mWatcher.mInitialized && mFileList.Valid()
    }

    /** All paths ever put on the list. */
    ghost function Announced(): seq<Path>
      reads mFileList
    {
      mFileList.queue.appended
    }

    /** addNotifyFileLocked: the mime type by extension and the home prefix decide, here the node's `qualifies`. */
    method AddNotifyFile(path: Path, qualifies: bool)
      requires mFileList.Valid()
      modifies mFileList
      ensures mFileList.Valid()
      ensures Announced() == old(Announced()) + if qualifies then [path] else []
    {
      if qualifies {
        mFileList.Append(path);
      }
    }

    method WatchAndNotifyDirectoryRecursively(path: Path, node: Node, notify: bool, refused: set<Path>)
      requires node.Dir? && Valid()
      modifies mFileList, mWatcher`mWdToPathMap, mWatcher`mPathToWdMap, mWatcher`kernel
      ensures Valid()
      ensures mWatcher.View() == Watched(old(mWatcher.View()), Visit(path, node, notify), refused)
      ensures Announced() == old(Announced()) + Notified(Visit(path, node, notify))
      decreases node, 1
    {
      VisitIsAddThenScan(mWatcher.View(), path, node, notify, refused);
      var added := mWatcher.AddWatch(path, if path in refused then None else Some(node.inode));
      if node.readable {
        ScanDirectory(path, node, notify, refused);
      }
    }

    /** The readdir loop. */
    method ScanDirectory(path: Path, node: Node, notify: bool, refused: set<Path>)
      requires node.Dir? && Valid()
      modifies mFileList, mWatcher`mWdToPathMap, mWatcher`mPathToWdMap, mWatcher`kernel
      ensures Valid()
      ensures mWatcher.View() == Watched(old(mWatcher.View()), Scan(path, node, 0, notify), refused)
      ensures Announced() == old(Announced()) + Notified(Scan(path, node, 0, notify))
      decreases node, 0
    {
      ghost var ix, list := mWatcher.View(), Announced();
      var i := 0;
      ScanStart(ix, list, path, node, notify, refused);
      while i < |node.entries|
        invariant i <= |node.entries|
        invariant Valid()
        invariant Scanned(ix, list, path, node, notify, refused, i, mWatcher.View(), Announced())
      {
        ScanStep(ix, list, path, node, notify, refused, i, mWatcher.View(), Announced());
        ScanEntry(path, node, i, notify, refused);
        i := i + 1;
      }
      ScanEnd(ix, list, path, node, notify, refused, mWatcher.View(), Announced());
    }

    /** One turn of the readdir loop. */
    method ScanEntry(path: Path, dir: Node, i: nat, notify: bool, refused: set<Path>)
      requires dir.Dir? && i < |dir.entries| && Valid()
      modifies mFileList, mWatcher`mWdToPathMap, mWatcher`mPathToWdMap, mWatcher`kernel
      ensures Valid()
      ensures mWatcher.View() == Watched(old(mWatcher.View()), VisitEntry(path, dir, i, notify), refused)
      ensures Announced() == old(Announced()) + Notified(VisitEntry(path, dir, i, notify))
      decreases dir.entries[i].node, 2
    {
      var e := dir.entries[i];
      if Skipped(e.name) {
        return;
      }
      var filePath := path + [e.name];
      if e.node.File? && notify {
        OneNotify(mWatcher.View(), filePath, refused);
        AddNotifyFile(filePath, e.node.qualifies);
      } else if e.node.Dir? {
        WatchAndNotifyDirectoryRecursively(filePath, e.node, notify, refused);
      }
    }
  }

  /** The loop has done the first `i` entries of the scan: what is left leads to the same end. */
  ghost predicate Scanned(ix: Index, list: seq<Path>, path: Path, dir: Node, notify: bool, refused: set<Path>,
                          i: nat, now: Index, listed: seq<Path>)
    requires ix.kernel.Valid() && dir.Dir? && i <= |dir.entries|
  {
    && now.kernel.Valid()
    && Watched(ix, Scan(path, dir, 0, notify), refused) == Watched(now, Scan(path, dir, i, notify), refused)
    && list + Notified(Scan(path, dir, 0, notify)) == listed + Notified(Scan(path, dir, i, notify))
  }

  lemma ScanStart(ix: Index, list: seq<Path>, path: Path, dir: Node, notify: bool, refused: set<Path>)
    requires ix.kernel.Valid() && dir.Dir?
    ensures Scanned(ix, list, path, dir, notify, refused, 0, ix, list)
  {
  }

  lemma ScanStep(ix: Index, list: seq<Path>, path: Path, dir: Node, notify: bool, refused: set<Path>,
                 i: nat, now: Index, listed: seq<Path>)
    requires ix.kernel.Valid() && dir.Dir? && i < |dir.entries|
    requires Scanned(ix, list, path, dir, notify, refused, i, now, listed)
    ensures var step := VisitEntry(path, dir, i, notify);
      Scanned(ix, list, path, dir, notify, refused, i + 1, Watched(now, step, refused), listed + Notified(step))
  {
    var step := VisitEntry(path, dir, i, notify);
    WatchedConcat(now, step, Scan(path, dir, i + 1, notify), refused);
    NotifiedConcat(step, Scan(path, dir, i + 1, notify));
  }

  lemma ScanEnd(ix: Index, list: seq<Path>, path: Path, dir: Node, notify: bool, refused: set<Path>,
                now: Index, listed: seq<Path>)
    requires ix.kernel.Valid() && dir.Dir?
    requires Scanned(ix, list, path, dir, notify, refused, |dir.entries|, now, listed)
    ensures now == Watched(ix, Scan(path, dir, 0, notify), refused)
    ensures listed == list + Notified(Scan(path, dir, 0, notify))
  {
  }

  lemma FirstAction(ix: Index, path: Path, n: Inode, refused: set<Path>)
    requires ix.kernel.Valid()
    ensures Watched(ix, [Watch(path, n)], refused) == ix.Add(path, if path in refused then None else Some(n))
    ensures Notified([Watch(path, n)]) == []
  {
    var acts := [Watch(path, n)];
    assert acts[1..] == [];
    var next := ix.Add(path, Target(acts[0], refused));
    assert Watched(next, acts[1..], refused) == next && Notified(acts[1..]) == [];
  }

  lemma VisitIsAddThenScan(ix: Index, path: Path, node: Node, notify: bool, refused: set<Path>)
    requires ix.kernel.Valid() && node.Dir?
    ensures var added := ix.Add(path, if path in refused then None else Some(node.inode));
      var rest := if node.readable then Scan(path, node, 0, notify) else [];
      && Watched(ix, Visit(path, node, notify), refused) == Watched(added, rest, refused)
      && Notified(Visit(path, node, notify)) == Notified(rest)
  {
    var rest := if node.readable then Scan(path, node, 0, notify) else [];
    FirstAction(ix, path, node.inode, refused);
    WatchedConcat(ix, [Watch(path, node.inode)], rest, refused);
    NotifiedConcat([Watch(path, node.inode)], rest);
  }

  lemma OneNotify(ix: Index, path: Path, refused: set<Path>)
    requires ix.kernel.Valid()
    ensures Watched(ix, [Notify(path)], refused) == ix && Notified([Notify(path)]) == [path]
  {
    var acts := [Notify(path)];
    assert acts[1..] == [];
    assert Watched(ix, acts[1..], refused) == ix && Notified(acts[1..]) == [];
  }
}
