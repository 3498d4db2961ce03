/**
 Renaming a watched directory inside the watched tree.

 The kernel queues a moved-to event on the new parent and a move-self event on the directory. The first is handled
 by the recursive traversal of the new path, the second by removing the descriptor's paths that are not directories
 any more. Both orders are followed here on the specification of the index.
 */
module Rename {
  import opened Base
  import opened Paths
  import opened WatchIndex
  import opened Traversal

  /** The handler of moved-to on `q`, where the moved tree is `node`. */
  function MovedTo(ix: Index, node: Node, q: Path, refused: set<Path>): Index
    requires ix.kernel.Valid() && node.Dir?
  {
    Watched(ix, Entered(node, q), refused)
  }

  /** The event is handled by an announcing traversal. */
  function Entered(node: Node, q: Path): seq<Action>
    requires node.Dir?
  {
    Visit(q, node, true)
  }

  /** It announces the qualifying files of the moved tree, each once. */
  lemma MovedFilesAnnounced(node: Node, q: Path, p: Path)
    requires node.Dir? && WellFormed(node)
    ensures p in Notified(Entered(node, q)) <==> FileReached(node, q, p)
    ensures multiset(Notified(Entered(node, q)))[p] <= 1
  {
    var empty := Index(map[], Kernel(map[], 1));
    TraversalMeetsSpec(empty, q, node, true, {});
    OnceEach(Notified(Entered(node, q)), p);
  }

  lemma {:induction false} OnceEach(s: seq<Path>, p: Path)
    requires forall i, j | 0 <= i < j < |s| :: s[i] != s[j]
    ensures multiset(s)[p] <= 1
  {
    if s != [] {
      OnceEach(s[1..], p);
      assert s == [s[0]] + s[1..];
      if s[0] == p {
        forall i | 0 <= i < |s[1..]| ensures s[1..][i] != p {
          assert s[1..][i] == s[i + 1];
        }
        assert p !in s[1..];
      }
    }
  }

  /** The handler of move-self; `dirs` are the paths that are directories after the rename. */
  ghost function MoveSelf(ix: Index, dirs: set<Path>, wd: int): Index
    requires ix.kernel.Valid()
  {
    ix.RemoveWd(wd, dirs)
  }

  /** Both handlers, in either order. */
  ghost function Handled(ix: Index, dirs: set<Path>, node: Node, q: Path, w: int, refused: set<Path>, selfFirst: bool): Index
    requires ix.kernel.Valid() && node.Dir?
  {
    if selfFirst then MovedTo(MoveSelf(ix, dirs, w), node, q, refused) else MoveSelf(MovedTo(ix, node, q, refused), dirs, w)
  }

  /** Before the events are handled: `w` watches the directory under its old path `p`, and it is now at `q`. */
  ghost predicate Renamed(ix: Index, dirs: set<Path>, node: Node, p: Path, q: Path, w: int, refused: set<Path>) {
    && ix.Inv()
    && node.Dir? && WellFormed(node)
    && ix.Watches(p, node.inode) && ix.paths[p] == w
    && p !in dirs && q !in refused
    && forall x | DirReached(node, q, x) :: x in dirs
  }

  /** No entry in the way: the new path is unknown, or already stands for the same watch. */
  predicate NewPathFree(ix: Index, q: Path, w: int) {
    q !in ix.paths || ix.paths[q] == w
  }

  lemma NewPathReached(node: Node, q: Path)
    requires node.Dir?
    ensures DirReached(node, q, q)
  {
    var names: seq<Name> := [];
    assert q == q + names && Reach(node, names) == Some(node);
  }

  /** A registered directory stays on its live watch when the paths of any descriptor are cleared. */
  lemma MoveSelfKeepsDirectory(ix: Index, dirs: set<Path>, wd: int, x: Path, n: Inode)
    requires ix.Inv() && ix.Watches(x, n) && x in dirs
    ensures MoveSelf(ix, dirs, wd).Watches(x, n)
  {
    var keep := map p | p in ix.paths && (ix.paths[p] != wd || p in dirs) :: ix.paths[p];
    assert keep[x] == ix.paths[x];
    if ix.paths[x] == wd { assert Index(keep, ix.kernel).Named(wd); }
  }

  lemma AfterMovedTo(ix: Index, dirs: set<Path>, node: Node, p: Path, q: Path, w: int, refused: set<Path>)
    requires Renamed(ix, dirs, node, p, q, w, refused)
    ensures var r := MovedTo(ix, node, q, refused);
      && Renamed(r, dirs, node, p, q, w, refused)
      && q in r.paths && q in dirs
      && r.paths[q] == (if q in ix.paths then ix.paths[q] else w)
  {
    NewPathReached(node, q);
    var acts := Visit(q, node, true);
    WatchedKeeps(ix, acts, refused);
    if q !in ix.paths {
      VisitDistinct(q, node, true);
      assert acts[0] == Watch(q, node.inode);
      WatchedLive(ix, acts, refused, acts[0]);
    }
  }

  /** Moved-to first: the descriptor is kept, the watch is never removed, and the old path goes with move-self. */
  lemma MovedToThenMoveSelf(ix: Index, dirs: set<Path>, node: Node, p: Path, q: Path, w: int, refused: set<Path>)
    requires Renamed(ix, dirs, node, p, q, w, refused)
    ensures var mid := MovedTo(ix, node, q, refused); var end := MoveSelf(mid, dirs, w);
      && mid.Inv() && end.Inv()
      && p !in end.paths
      && mid.kernel.Live(w)
      && (end.Watches(q, node.inode) <==> NewPathFree(ix, q, w))
      && (NewPathFree(ix, q, w) ==> end.paths[q] == w && end.kernel == mid.kernel)
  {
    AfterMovedTo(ix, dirs, node, p, q, w, refused);
    var mid := MovedTo(ix, node, q, refused);
    ApplyKeepsInv(mid, RemoveWdOp(w, dirs));
    var end := MoveSelf(mid, dirs, w);
    assert mid.kernel.watch[node.inode] == w;
    assert q in end.paths && end.paths[q] == mid.paths[q];
    if NewPathFree(ix, q, w) {
      MoveSelfKeepsDirectory(mid, dirs, w, q, node.inode);
      var keep := map x | x in mid.paths && (mid.paths[x] != w || x in dirs) :: mid.paths[x];
      assert keep[q] == w && Index(keep, mid.kernel).Named(w);
    } else {
      assert node.inode in end.kernel.watch ==> end.kernel.watch[node.inode] == w;
    }
  }

  /** Move-self first: the old watch may be dropped, and moved-to installs one for the new path. */
  lemma MoveSelfThenMovedTo(ix: Index, dirs: set<Path>, node: Node, p: Path, q: Path, w: int, refused: set<Path>)
    requires Renamed(ix, dirs, node, p, q, w, refused)
    ensures var mid := MoveSelf(ix, dirs, w); var end := MovedTo(mid, node, q, refused);
      && mid.Inv() && end.Inv()
      && p !in end.paths
      && (end.Watches(q, node.inode) <==> NewPathFree(ix, q, w))
  {
    NewPathReached(node, q);
    ApplyKeepsInv(ix, RemoveWdOp(w, dirs));
    var mid := MoveSelf(ix, dirs, w);
    assert mid.kernel.next == ix.kernel.next && p !in mid.paths;
    var acts := Visit(q, node, true);
    WatchedKeeps(mid, acts, refused);
    TraversalMeetsSpec(mid, q, node, true, refused);
    if q !in ix.paths {
      VisitDistinct(q, node, true);
      assert acts[0] == Watch(q, node.inode);
      WatchedLive(mid, acts, refused, acts[0]);
    } else if ix.paths[q] == w {
      MoveSelfKeepsDirectory(ix, dirs, w, q, node.inode);
    }
  }

  /**
   Whichever event comes first, the new path ends on a live watch of the moved directory, and the old path is
   gone, exactly when the index held no foreign entry for the new path.
   */
  lemma EitherOrder(
    ix: Index, dirs: set<Path>, node: Node, p: Path, q: Path, w: int, refused: set<Path>, selfFirst: bool)
    requires Renamed(ix, dirs, node, p, q, w, refused)
    ensures var end := Handled(ix, dirs, node, q, w, refused, selfFirst);
      p !in end.paths && (end.Watches(q, node.inode) <==> NewPathFree(ix, q, w))
  {
    if selfFirst {
      MoveSelfThenMovedTo(ix, dirs, node, p, q, w, refused);
    } else {
      MovedToThenMoveSelf(ix, dirs, node, p, q, w, refused);
    }
  }

  /** The moved tree's part of the index: every directory whose new path is free of old entries and not refused. */
  lemma FreePathIsWatched(
    ix: Index, dirs: set<Path>, node: Node, p: Path, q: Path, w: int, refused: set<Path>, selfFirst: bool, x: Path, n: Inode)
    requires Renamed(ix, dirs, node, p, q, w, refused) && x in dirs
    requires Watch(x, n) in Visit(q, node, true) && x !in ix.paths && x !in refused
    ensures Handled(ix, dirs, node, q, w, refused, selfFirst).Watches(x, n)
  {
    var acts := Visit(q, node, true);
    VisitDistinct(q, node, true);
    ApplyKeepsInv(ix, RemoveWdOp(w, dirs));
    WatchedLive(if selfFirst then MoveSelf(ix, dirs, w) else ix, acts, refused, Watch(x, n));
    if !selfFirst {
      WatchedKeeps(ix, acts, refused);
      MoveSelfKeepsDirectory(MovedTo(ix, node, q, refused), dirs, w, x, n);
    }
  }

  /** A directory that was watched under its path already stays so. */
  lemma KnownDirectoryStaysWatched(
    ix: Index, dirs: set<Path>, node: Node, q: Path, w: int, refused: set<Path>, selfFirst: bool, x: Path, n: Inode)
    requires ix.Inv() && node.Dir? && x in dirs && ix.Watches(x, n)
    ensures Handled(ix, dirs, node, q, w, refused, selfFirst).Watches(x, n)
  {
    MoveSelfKeepsDirectory(ix, dirs, w, x, n);
    ApplyKeepsInv(ix, RemoveWdOp(w, dirs));
    WatchedKeeps(if selfFirst then MoveSelf(ix, dirs, w) else ix, Visit(q, node, true), refused);
    if !selfFirst {
      MoveSelfKeepsDirectory(MovedTo(ix, node, q, refused), dirs, w, x, n);
    }
  }

  /** An entry of another watch, or of a dead one. */
  predicate Foreign(ix: Index, x: Path, n: Inode) {
    x in ix.paths && !ix.Watches(x, n)
  }

  lemma TraversalKeepsForeign(ix: Index, acts: seq<Action>, refused: set<Path>, x: Path, n: Inode)
    requires ix.Inv() && Foreign(ix, x, n)
    ensures Watched(ix, acts, refused).Inv() && Foreign(Watched(ix, acts, refused), x, n)
  {
    WatchedKeeps(ix, acts, refused);
  }

  lemma MoveSelfKeepsForeign(ix: Index, dirs: set<Path>, wd: int, x: Path, n: Inode)
    requires ix.Inv() && Foreign(ix, x, n) && x in dirs
    ensures MoveSelf(ix, dirs, wd).Inv() && Foreign(MoveSelf(ix, dirs, wd), x, n)
  {
    ApplyKeepsInv(ix, RemoveWdOp(wd, dirs));
  }

  /** It stays in the way: no later watch has its descriptor. */
  lemma ForeignEntryStays(
    ix: Index, dirs: set<Path>, node: Node, q: Path, w: int, refused: set<Path>, selfFirst: bool, x: Path, n: Inode)
    requires ix.Inv() && node.Dir? && x in dirs && Foreign(ix, x, n)
    ensures Foreign(Handled(ix, dirs, node, q, w, refused, selfFirst), x, n)
  {
    var acts := Visit(q, node, true);
    if selfFirst {
      MoveSelfKeepsForeign(ix, dirs, w, x, n);
      TraversalKeepsForeign(MoveSelf(ix, dirs, w), acts, refused, x, n);
    } else {
      TraversalKeepsForeign(ix, acts, refused, x, n);
      MoveSelfKeepsForeign(MovedTo(ix, node, q, refused), dirs, w, x, n);
    }
  }

  /** A refused path without an entry gets none. */
  lemma RefusedPathStaysUnknown(
    ix: Index, dirs: set<Path>, node: Node, q: Path, w: int, refused: set<Path>, selfFirst: bool, x: Path)
    requires ix.Inv() && node.Dir? && x !in ix.paths && x in refused
    ensures x !in Handled(ix, dirs, node, q, w, refused, selfFirst).paths
  {
    ApplyKeepsInv(ix, RemoveWdOp(w, dirs));
    WatchedPaths(if selfFirst then MoveSelf(ix, dirs, w) else ix, Visit(q, node, true), refused);
  }

  /**
   The whole moved tree, in either order: a directory of it ends on its live watch exactly when it had that watch under
   its new path before, or the new path was unknown and is not refused.
   */
  lemma MovedTreeWatchedIff(
    ix: Index, dirs: set<Path>, node: Node, p: Path, q: Path, w: int, refused: set<Path>, selfFirst: bool, names: seq<Name>)
    requires Renamed(ix, dirs, node, p, q, w, refused)
    requires Reach(node, names).Some? && Reach(node, names).value.Dir?
    ensures var x, n := q + names, Reach(node, names).value.inode;
      Handled(ix, dirs, node, q, w, refused, selfFirst).Watches(x, n) <==>
        ix.Watches(x, n) || (x !in ix.paths && x !in refused)
  {
    var x, n := q + names, Reach(node, names).value.inode;
    assert DirReached(node, q, x);
    DueIsVisited(node, names, q, true, Watch(x, n));
    if ix.Watches(x, n) {
      KnownDirectoryStaysWatched(ix, dirs, node, q, w, refused, selfFirst, x, n);
    } else if x in ix.paths {
      ForeignEntryStays(ix, dirs, node, q, w, refused, selfFirst, x, n);
    } else if x in refused {
      RefusedPathStaysUnknown(ix, dirs, node, q, w, refused, selfFirst, x);
    } else {
      FreePathIsWatched(ix, dirs, node, p, q, w, refused, selfFirst, x, n);
    }
  }

  // The index after `p` and `q` were watched and the directory at `q` died, and the empty directory moved there.
  function Replaced(p: Path, q: Path): Index {
    Index(map[p := 1, q := 2], Kernel(map[10 := 1], 3))
  }

  const MOVED := Dir(10, true, [])

  /**
   The failing case is reachable from the empty index: replacing an empty watched directory by renaming another one
   over it. The kernel drops the watch of the replaced inode, its entry stays because the path is a directory again,
   and the moved directory ends without any watch.
   */
  lemma RenameOverWatchedDirectory(p: Path, q: Path, selfFirst: bool)
    requires p != q
    ensures
      var ix := RunAll(Index(map[], Kernel(map[], 1)), [AddOp(p, Some(10)), AddOp(q, Some(11)), Died(11)]);
      && Renamed(ix, {q}, MOVED, p, q, 1, {})
      && Handled(ix, {q}, MOVED, q, 1, {}, selfFirst) == Index(map[q := 2], Kernel(map[], 3))
  {
    ReplacedIsReached(p, q);
    ReplacedIsRenamed(p, q);
    var gone := Index(map[q := 2], Kernel(map[], 3));
    ReplacedLosesWatch(p, q);
    KnownPathIsKept(Replaced(p, q), q);
    KnownPathIsKept(gone, q);
  }

  lemma ReplacedIsReached(p: Path, q: Path)
    requires p != q
    ensures RunAll(Index(map[], Kernel(map[], 1)), [AddOp(p, Some(10)), AddOp(q, Some(11)), Died(11)]) == Replaced(p, q)
  {
    var i0 := Index(map[], Kernel(map[], 1));
    var i1 := Index(map[p := 1], Kernel(map[10 := 1], 2));
    var i2 := Index(map[p := 1, q := 2], Kernel(map[10 := 1, 11 := 2], 3));
    RunCons(i0, AddOp(p, Some(10)), [AddOp(q, Some(11)), Died(11)]);
    assert i0.Add(p, Some(10)) == i1;
    RunCons(i1, AddOp(q, Some(11)), [Died(11)]);
    assert i1.Add(q, Some(11)) == i2;
    SecondDies(p, q);
    RunCons(i2, Died(11), []);
  }

  lemma SecondDies(p: Path, q: Path)
    ensures Apply(Index(map[p := 1, q := 2], Kernel(map[10 := 1, 11 := 2], 3)), Died(11)) == Replaced(p, q)
  {
    assert Kernel(map[10 := 1, 11 := 2], 3).Remove(2).watch == map[10 := 1];
  }

  lemma ReplacedIsRenamed(p: Path, q: Path)
    requires p != q
    ensures Renamed(Replaced(p, q), {q}, MOVED, p, q, 1, {})
  {
    var ix := Replaced(p, q);
    assert ix.Named(1) by { assert ix.paths[p] == 1; }
    forall x | DirReached(MOVED, q, x) ensures x == q {
      var names :| x == q + names && Reach(MOVED, names).Some? && Reach(MOVED, names).value.Dir?;
    }
  }

  lemma ReplacedLosesWatch(p: Path, q: Path)
    requires p != q
    ensures MoveSelf(Replaced(p, q), {q}, 1) == Index(map[q := 2], Kernel(map[], 3))
  {
    var r := MoveSelf(Replaced(p, q), {q}, 1);
    assert r.paths == map[q := 2];
    assert r.kernel.watch == map[];
  }

  lemma KnownPathIsKept(ix: Index, q: Path)
    requires ix.kernel.Valid() && q in ix.paths
    ensures MovedTo(ix, MOVED, q, {}) == ix
  {
    assert Visit(q, MOVED, true) == [Watch(q, 10)];
    FirstAction(ix, q, 10, {});
  }

  /** The entry that a directory below the moved one has for its old path survives both handlers. */
  lemma ChildKeepsStalePath(
    ix: Index, dirs: set<Path>, node: Node, q: Path, w: int, refused: set<Path>, child: Path, selfFirst: bool)
    requires ix.Inv() && node.Dir? && child in ix.paths && ix.paths[child] != w
    ensures var end := Handled(ix, dirs, node, q, w, refused, selfFirst);
      child in end.paths && end.paths[child] == ix.paths[child]
  {
    ApplyKeepsInv(ix, RemoveWdOp(w, dirs));
    WatchedKeeps(if selfFirst then MoveSelf(ix, dirs, w) else ix, Visit(q, node, true), refused);
  }
}
