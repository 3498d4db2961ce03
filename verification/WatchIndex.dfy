/**
 The path/watch-descriptor index of the inotify watcher.

 The class keeps the two Qt maps and edits them with the counted erase loops of the source. The specification
 needs only one of them: `mPathToWdMap` together with the kernel's table. `Valid` says that the multimap is its
 exact inverse, each pair stored once.
 */
module WatchIndex {
  import opened Base
  import opened Paths

  type Inode = nat

  /** One inotify instance: the live watches and the next descriptor. Descriptors are positive and never reused. */
  datatype Kernel = Kernel(watch: map<Inode, int>, next: int) {
    ghost predicate Valid() {
      && 0 < next
      && (forall n | n in watch :: 0 < watch[n] < next)
      && (forall m, n | m in watch && n in watch && watch[m] == watch[n] :: m == n)
    }

    predicate Live(wd: int) {
      wd in watch.Values
    }

    /** inotify_add_watch: an inode that is watched already keeps its descriptor. */
    function Add(n: Inode): (r: (Kernel, int))
      requires Valid()
      ensures r.0.Valid()
      ensures n in r.0.watch && r.0.watch[n] == r.1
      ensures forall m | m in watch :: m in r.0.watch && r.0.watch[m] == watch[m]
    {
      if n in watch then (this, watch[n]) else (Kernel(watch[n := next], next + 1), next)
    }

    /** inotify_rm_watch; the kernel does the same by itself when a watched inode dies. */
    function Remove(wd: int): (k: Kernel)
      requires Valid()
      ensures k.Valid() && !k.Live(wd)
      ensures forall v | v != wd :: k.Live(v) <==> Live(v)
    {
      var k := Kernel(map n | n in watch && watch[n] != wd :: watch[n], next);
      assert forall v | v != wd && Live(v) :: k.Live(v) by {
        forall v | v != wd && Live(v) ensures k.Live(v) {
          var n :| n in watch && watch[n] == v;
          assert n in k.watch && k.watch[n] == v;
        }
      }
      k
    }
  }

  /** The abstract state: which descriptor each registered path has, and what the kernel watches. */
  datatype Index = Index(paths: map<Path, int>, kernel: Kernel) {
    ghost predicate Named(wd: int) {
      exists p :: p in paths && paths[p] == wd
    }

    /** Every descriptor was handed out by the kernel, and no live watch is without a path. */
    ghost predicate Inv() {
      && kernel.Valid()
      && (forall p | p in paths :: 0 < paths[p] < kernel.next)
      && (forall n | n in kernel.watch :: Named(kernel.watch[n]))
    }

    /** `p` is registered, and its descriptor is the live watch of inode `n`. */
    predicate Watches(p: Path, n: Inode) {
      p in paths && n in kernel.watch && kernel.watch[n] == paths[p]
    }

    /** addWatch: `target` is the inode the kernel accepts for the path, or None when inotify_add_watch fails. */
    function Add(path: Path, target: Option<Inode>): (ix: Index)
      requires kernel.Valid()
    {
      if path in paths || target.None? then this else
      var (k, wd) := kernel.Add(target.value);
      Index(paths[path := wd], k)
    }

    /** What both removals leave: `keep` is the surviving part of the map, and an unnamed descriptor is dropped. */
    ghost function Shrink(keep: map<Path, int>, wd: int): (ix: Index)
      requires kernel.Valid()
    {
      var ix := Index(keep, kernel);
      if ix.Named(wd) then ix else Index(keep, kernel.Remove(wd))
    }

    ghost function RemovePath(path: Path): (ix: Index)
      requires kernel.Valid()
    {
      if path !in paths then this else Shrink(paths - {path}, paths[path])
    }

    /** removeWatch(wd): `dirs` are the paths that are directories at the time of the call. */
    ghost function RemoveWd(wd: int, dirs: set<Path>): (ix: Index)
      requires kernel.Valid()
    {
      if wd < 0 then this
      else Shrink(map p | p in paths && (paths[p] != wd || p in dirs) :: paths[p], wd)
    }
  }

  lemma AddKeepsInv(ix: Index, path: Path, target: Option<Inode>)
    requires ix.Inv()
    ensures ix.Add(path, target).Inv()
    ensures forall p | p in ix.paths :: p in ix.Add(path, target).paths && ix.Add(path, target).paths[p] == ix.paths[p]
    ensures path !in ix.paths && target.Some? ==> ix.Add(path, target).Watches(path, target.value)
  {
    var r := ix.Add(path, target);
    if !(path in ix.paths || target.None?) {
      forall n | n in r.kernel.watch ensures r.Named(r.kernel.watch[n]) {
        if n in ix.kernel.watch && n != target.value {
          var p :| p in ix.paths && ix.paths[p] == ix.kernel.watch[n];
          assert p in r.paths && r.paths[p] == r.kernel.watch[n];
        } else {
          assert r.paths[path] == r.kernel.watch[n];
        }
      }
    }
  }

  lemma ShrinkKeepsInv(ix: Index, keep: map<Path, int>, wd: int)
    requires ix.Inv()
    requires forall p | p in keep :: p in ix.paths && keep[p] == ix.paths[p]
    requires forall p | p in ix.paths && ix.paths[p] != wd :: p in keep
    ensures ix.Shrink(keep, wd).Inv()
  {
    var r := ix.Shrink(keep, wd);
    forall n | n in r.kernel.watch ensures r.Named(r.kernel.watch[n]) {
      var v := r.kernel.watch[n];
      assert r.kernel.Live(v);
      assert ix.kernel.Live(v);
      if v != wd {
        assert ix.Named(v);
        var p :| p in ix.paths && ix.paths[p] == v;
        assert p in r.paths && r.paths[p] == v;
      }
    }
  }

  /** Both removals, exactly: which paths go, and that at most the one descriptor's watch goes, iff no path has it any more. */
  lemma RemovalsExact(ix: Index, path: Path, wd: int, dirs: set<Path>)
    requires ix.Inv()
    ensures var r := ix.RemovePath(path);
      && (forall p :: p in r.paths <==> p in ix.paths && p != path)
      && (forall p | p in r.paths :: r.paths[p] == ix.paths[p])
      && (forall v :: r.kernel.Live(v) <==>
            ix.kernel.Live(v) && (path in ix.paths && v == ix.paths[path] ==> exists p :: p in ix.paths && p != path && ix.paths[p] == v))
    ensures var r := ix.RemoveWd(wd, dirs);
      && (forall p :: p in r.paths <==> p in ix.paths && (ix.paths[p] == wd ==> p in dirs))
      && (forall p | p in r.paths :: r.paths[p] == ix.paths[p])
      && (forall v :: r.kernel.Live(v) <==>
            ix.kernel.Live(v) && (v == wd ==> exists p :: p in ix.paths && p in dirs && ix.paths[p] == v))
  {
    PathRemoval(ix, path);
    WdRemoval(ix, wd, dirs);
  }

  lemma PathRemoval(ix: Index, path: Path)
    requires ix.Inv()
    ensures var r := ix.RemovePath(path);
      forall v :: r.kernel.Live(v) <==>
        ix.kernel.Live(v) && (path in ix.paths && v == ix.paths[path] ==> exists p :: p in ix.paths && p != path && ix.paths[p] == v)
  {
    if path in ix.paths {
      var w, keep := ix.paths[path], ix.paths - {path};
      assert Index(keep, ix.kernel).Named(w) <==> exists p :: p in ix.paths && p != path && ix.paths[p] == w by {
        if p :| p in ix.paths && p != path && ix.paths[p] == w { assert p in keep && keep[p] == w; }
      }
    }
  }

  lemma WdRemoval(ix: Index, wd: int, dirs: set<Path>)
    requires ix.Inv()
    ensures var r := ix.RemoveWd(wd, dirs);
      forall v :: r.kernel.Live(v) <==>
        ix.kernel.Live(v) && (v == wd ==> exists p :: p in ix.paths && p in dirs && ix.paths[p] == v)
  {
    var keep := map p | p in ix.paths && (ix.paths[p] != wd || p in dirs) :: ix.paths[p];
    assert Index(keep, ix.kernel).Named(wd) <==> exists p :: p in ix.paths && p in dirs && ix.paths[p] == wd by {
      if p :| p in ix.paths && p in dirs && ix.paths[p] == wd { assert p in keep && keep[p] == wd; }
    }
    if wd < 0 { assert !ix.kernel.Live(wd); }
  }

  /** Everything that can happen to the index; `Died` is the kernel dropping the watch of a deleted inode. */
  datatype Op =
    | AddOp(path: Path, target: Option<Inode>)
    | RemovePathOp(path: Path)
    | RemoveWdOp(wd: int, dirs: set<Path>)
    | Died(inode: Inode)

  ghost function Apply(ix: Index, op: Op): (r: Index)
    requires ix.kernel.Valid()
    ensures r.kernel.Valid()
  {
    match op
    case AddOp(path, target) => ix.Add(path, target)
    case RemovePathOp(path) => ix.RemovePath(path)
    case RemoveWdOp(wd, dirs) => ix.RemoveWd(wd, dirs)
    case Died(n) =>
      if n in ix.kernel.watch then Index(ix.paths, ix.kernel.Remove(ix.kernel.watch[n])) else ix
  }

  lemma ApplyKeepsInv(ix: Index, op: Op)
    requires ix.Inv()
    ensures Apply(ix, op).Inv()
  {
    match op
    case AddOp(path, target) => AddKeepsInv(ix, path, target);
    case RemovePathOp(path) =>
      if path in ix.paths {
        ShrinkKeepsInv(ix, ix.paths - {path}, ix.paths[path]);
      }
    case RemoveWdOp(wd, dirs) =>
      if 0 <= wd {
        ShrinkKeepsInv(ix, map p | p in ix.paths && (ix.paths[p] != wd || p in dirs) :: ix.paths[p], wd);
      }
    case Died(n) =>
      var r := Apply(ix, op);
      forall m | m in r.kernel.watch ensures r.Named(r.kernel.watch[m]) {
        assert r.kernel.Live(r.kernel.watch[m]);
        assert ix.kernel.Live(r.kernel.watch[m]);
        assert ix.Named(r.kernel.watch[m]);
        assert r.paths == ix.paths;
      }
  }

  ghost function RunAll(ix: Index, ops: seq<Op>): Index
    requires ix.kernel.Valid()
    decreases |ops|
  {
    if ops == [] then ix else RunAll(Apply(ix, ops[0]), ops[1..])
  }

  lemma RunCons(ix: Index, op: Op, ops: seq<Op>)
    requires ix.kernel.Valid()
    ensures RunAll(ix, [op] + ops) == RunAll(Apply(ix, op), ops)
  {
    assert ([op] + ops)[1..] == ops;
  }

  lemma {:induction false} InvAlways(ix: Index, ops: seq<Op>)
    requires ix.Inv()
    ensures RunAll(ix, ops).Inv()
    decreases |ops|
  {
    if ops != [] {
      ApplyKeepsInv(ix, ops[0]);
      InvAlways(Apply(ix, ops[0]), ops[1..]);
    }
  }

  /** No watch leaks: whatever the history, a live watch is named by some registered path. */
  lemma NoWatchLeaks(ops: seq<Op>, n: Inode)
    requires n in RunAll(Index(map[], Kernel(map[], 1)), ops).kernel.watch
    ensures
      var ix := RunAll(Index(map[], Kernel(map[], 1)), ops);
      exists p :: p in ix.paths && ix.Watches(p, n)
  {
    var ix := RunAll(Index(map[], Kernel(map[], 1)), ops);
    InvAlways(Index(map[], Kernel(map[], 1)), ops);
    assert ix.Named(ix.kernel.watch[n]);
    var p :| p in ix.paths && ix.paths[p] == ix.kernel.watch[n];
    assert ix.Watches(p, n);
  }

  /**
   The converse is false: a directory deleted and made again before its event is handled keeps a dead entry, and
   the new directory is never watched by adding it.
   */
  lemma StaleEntrySurvives(p: Path, old_: Inode, new_: Inode)
    requires old_ != new_
    ensures
      var ix := RunAll(Index(map[], Kernel(map[], 1)),
                       [AddOp(p, Some(old_)), Died(old_), RemoveWdOp(1, {p}), AddOp(p, Some(new_))]);
      p in ix.paths && !ix.Watches(p, new_) && ix.kernel.watch == map[]
  {
    var i0 := Index(map[], Kernel(map[], 1));
    var i1 := i0.Add(p, Some(old_));
    var i2 := Apply(i1, Died(old_));
    var i3 := i2.RemoveWd(1, {p});
    assert i1 == Index(map[p := 1], Kernel(map[old_ := 1], 2));
    assert i2.kernel.watch == map[];
    assert i3.paths == map[p := 1];
    assert i3.Named(1) by { assert i3.paths[p] == 1; }
    RunCons(i0, AddOp(p, Some(old_)), [Died(old_), RemoveWdOp(1, {p}), AddOp(p, Some(new_))]);
    RunCons(i1, Died(old_), [RemoveWdOp(1, {p}), AddOp(p, Some(new_))]);
    RunCons(i2, RemoveWdOp(1, {p}), [AddOp(p, Some(new_))]);
    RunCons(i3, AddOp(p, Some(new_)), []);
    assert i3.Add(p, Some(new_)) == i3;
  }

  /** When adding a path does install a watch on the inode it names now: exactly when no stale entry hides it. */
  lemma AddWatchesIff(ix: Index, path: Path, n: Inode)
    requires ix.Inv()
    ensures ix.Add(path, Some(n)).Watches(path, n) <==> (path !in ix.paths || ix.Watches(path, n))
  {
    AddKeepsInv(ix, path, Some(n));
  }

  /** The operation takes the entry of `path` away, if its descriptor is `wd`. */
  predicate Clears(op: Op, path: Path, wd: int) {
    op == RemovePathOp(path) || (op.RemoveWdOp? && op.wd == wd && path !in op.dirs)
  }

  /** An entry whose watch is dead. */
  predicate Stale(ix: Index, path: Path) {
    path in ix.paths && !ix.kernel.Live(ix.paths[path])
  }

  /** Dead descriptors stay dead, so only an operation that clears the entry changes it. */
  lemma StaleStep(ix: Index, op: Op, path: Path)
    requires ix.Inv() && Stale(ix, path)
    ensures var r := Apply(ix, op);
      if Clears(op, path, ix.paths[path]) then path !in r.paths
      else Stale(r, path) && r.paths[path] == ix.paths[path]
  {
    ApplyKeepsInv(ix, op);
    var w := ix.paths[path];
    if op.AddOp? && op.target.Some? {
      var (k, wd) := ix.kernel.Add(op.target.value);
      assert forall n | n in k.watch && n !in ix.kernel.watch :: k.watch[n] == ix.kernel.next;
    }
  }

  lemma {:induction false} StaleUntilCleared(ix: Index, ops: seq<Op>, path: Path)
    requires ix.Inv() && Stale(ix, path) && forall op | op in ops :: !Clears(op, path, ix.paths[path])
    ensures Stale(RunAll(ix, ops), path)
    decreases |ops|
  {
    if ops != [] {
      assert ops[0] in ops;
      StaleStep(ix, ops[0], path);
      ApplyKeepsInv(ix, ops[0]);
      StaleUntilCleared(Apply(ix, ops[0]), ops[1..], path);
    }
  }

  /** `path` is free, or on the live watch of inode `n`. */
  predicate Clean(ix: Index, path: Path, n: Inode) {
    path in ix.paths ==> ix.Watches(path, n)
  }

  /** What may happen while `path` names inode `n`: it is added for `n` or in vain, and `n` does not die. */
  predicate Names(op: Op, path: Path, n: Inode) {
    op != Died(n) && (op.AddOp? && op.path == path ==> op.target in {None, Some(n)})
  }

  lemma CleanStep(ix: Index, op: Op, path: Path, n: Inode)
    requires ix.Inv() && Clean(ix, path, n) && Names(op, path, n)
    ensures Clean(Apply(ix, op), path, n)
  {
    ApplyKeepsInv(ix, op);
    var r := Apply(ix, op);
    if path in r.paths && path in ix.paths {
      assert r.paths[path] == ix.paths[path] && r.Named(r.paths[path]);
    }
  }

  lemma {:induction false} StaysClean(ix: Index, ops: seq<Op>, path: Path, n: Inode)
    requires ix.Inv() && Clean(ix, path, n) && forall op | op in ops :: Names(op, path, n)
    ensures Clean(RunAll(ix, ops), path, n)
    decreases |ops|
  {
    if ops != [] {
      assert ops[0] in ops;
      CleanStep(ix, ops[0], path, n);
      ApplyKeepsInv(ix, ops[0]);
      StaysClean(Apply(ix, ops[0]), ops[1..], path, n);
    }
  }

  /** Once the stale entry is cleared, the path stays clean. */
  lemma {:induction false} CleanOnceCleared(ix: Index, ops: seq<Op>, path: Path, n: Inode)
    requires ix.Inv() && Stale(ix, path) && forall op | op in ops :: Names(op, path, n)
    requires exists op :: op in ops && Clears(op, path, ix.paths[path])
    ensures Clean(RunAll(ix, ops), path, n)
    decreases |ops|
  {
    var w := ix.paths[path];
    ApplyKeepsInv(ix, ops[0]);
    StaleStep(ix, ops[0], path);
    assert ops == [ops[0]] + ops[1..];
    if Clears(ops[0], path, w) {
      StaysClean(Apply(ix, ops[0]), ops[1..], path, n);
    } else {
      var op :| op in ops && Clears(op, path, w);
      assert op in ops[1..];
      CleanOnceCleared(Apply(ix, ops[0]), ops[1..], path, n);
    }
  }

  lemma {:induction false} RunSnoc(ix: Index, ops: seq<Op>, op: Op)
    requires ix.kernel.Valid()
    ensures RunAll(ix, ops).kernel.Valid() && RunAll(ix, ops + [op]) == Apply(RunAll(ix, ops), op)
    decreases |ops|
  {
    if ops == [] {
      assert [] + [op] == [op] && [op][1..] == [];
    } else {
      assert (ops + [op])[1..] == ops[1..] + [op];
      RunSnoc(Apply(ix, ops[0]), ops[1..], op);
    }
  }

  /**
   A watched directory dies and its path comes to name another inode. Whatever operations follow, an add of the path
   watches the new directory exactly when one of them cleared the old entry: a removal of the path, or the handling of
   the old descriptor's event at a moment when the path was no directory.
   */
  lemma RecreatedWatchedIff(ix: Index, path: Path, before: Inode, after: Inode, ops: seq<Op>)
    requires ix.Inv() && ix.Watches(path, before)
    requires forall op | op in ops :: Names(op, path, after)
    ensures RunAll(ix, [Died(before)] + ops + [AddOp(path, Some(after))]).Watches(path, after)
      <==> exists op :: op in ops && Clears(op, path, ix.paths[path])
  {
    var w := ix.paths[path];
    var died := Apply(ix, Died(before));
    ApplyKeepsInv(ix, Died(before));
    assert Stale(died, path) && died.paths[path] == w;
    var mid := RunAll(died, ops);
    InvAlways(died, ops);
    assert [Died(before)] + ops + [AddOp(path, Some(after))] == [Died(before)] + (ops + [AddOp(path, Some(after))]);
    RunCons(ix, Died(before), ops + [AddOp(path, Some(after))]);
    RunSnoc(died, ops, AddOp(path, Some(after)));
    AddWatchesIff(mid, path, after);
    if exists op :: op in ops && Clears(op, path, w) {
      CleanOnceCleared(died, ops, path, after);
    } else {
      StaleUntilCleared(died, ops, path);
    }
  }

  // ---- the two Qt maps ----

  /** One entry of QMultiMap<int, QString>. */
  datatype Entry = Entry(wd: int, path: Path)

  ghost predicate Sorted(es: seq<Entry>) {
    forall i, j | 0 <= i < j < |es| :: es[i].wd <= es[j].wd
  }

  /** The multimap is the exact inverse of the path map: it holds each pair of it once and nothing else. */
  ghost predicate Inverse(es: seq<Entry>, paths: map<Path, int>) {
    forall e :: multiset(es)[e] == if Pair(paths, e) then 1 else 0
  }

  ghost predicate Pair(paths: map<Path, int>, e: Entry) {
    e.path in paths && paths[e.path] == e.wd
  }

  /** Position of the first entry whose key is at least `wd`. */
  function Lower(es: seq<Entry>, wd: int): (k: nat)
    requires Sorted(es)
    ensures k <= |es|
    ensures forall i | 0 <= i < k :: es[i].wd < wd
    ensures forall i | k <= i < |es| :: wd <= es[i].wd
  {
    if es == [] || wd <= es[0].wd then 0 else 1 + Lower(es[1..], wd)
  }

  /** QMultiMap::count. */
  function Count(es: seq<Entry>, wd: int): (n: nat)
    requires Sorted(es)
    ensures Lower(es, wd) + n <= |es|
    ensures forall i | 0 <= i < |es| :: es[i].wd == wd <==> Lower(es, wd) <= i < Lower(es, wd) + n
  {
    var lo, hi := Lower(es, wd), Lower(es, wd + 1);
    assert hi < |es| ==> wd + 1 <= es[hi].wd;
    hi - lo
  }

  function Erase(es: seq<Entry>, i: nat): (r: seq<Entry>)
    requires i < |es|
  {
    es[..i] + es[i + 1..]
  }

  function Insert(es: seq<Entry>, i: nat, e: Entry): (r: seq<Entry>)
    requires i <= |es|
  {
    es[..i] + [e] + es[i..]
  }

  /** QMultiMap::insert: before the older values of the key. */
  function Newest(es: seq<Entry>, e: Entry): seq<Entry>
    requires Sorted(es)
  {
    Insert(es, Lower(es, e.wd), e)
  }

  lemma InsertKeepsSorted(es: seq<Entry>, e: Entry)
    requires Sorted(es)
    ensures Sorted(Newest(es, e))
  {
    var k := Lower(es, e.wd);
    var r := Insert(es, k, e);
    forall i, j | 0 <= i < j < |r| ensures r[i].wd <= r[j].wd {
      assert r[i] == if i < k then es[i] else if i == k then e else es[i - 1];
      assert r[j] == if j < k then es[j] else if j == k then e else es[j - 1];
    }
  }

  lemma EraseKeepsSorted(es: seq<Entry>, i: nat)
    requires Sorted(es) && i < |es|
    ensures Sorted(Erase(es, i))
  {
  }

  lemma InsertKeepsInverse(es: seq<Entry>, paths: map<Path, int>, k: nat, e: Entry)
    requires Inverse(es, paths) && e.path !in paths && k <= |es|
    ensures Inverse(Insert(es, k, e), paths[e.path := e.wd])
  {
    assert es == es[..k] + es[k..];
    assert multiset(Insert(es, k, e)) == multiset(es) + multiset{e};
    forall x ensures multiset(Insert(es, k, e))[x] == if Pair(paths[e.path := e.wd], x) then 1 else 0 {
      assert Pair(paths[e.path := e.wd], x) <==> x == e || Pair(paths, x);
    }
  }

  lemma EraseKeepsInverse(es: seq<Entry>, paths: map<Path, int>, i: nat)
    requires Inverse(es, paths) && i < |es|
    ensures Pair(paths, es[i]) && Inverse(Erase(es, i), paths - {es[i].path})
  {
    assert es == es[..i] + [es[i]] + es[i + 1..];
    assert multiset(Erase(es, i)) == multiset(es) - multiset{es[i]};
    assert es[i] in multiset(es);
    assert Pair(paths, es[i]);
    forall x ensures multiset(Erase(es, i))[x] == if Pair(paths - {es[i].path}, x) then 1 else 0 {
      assert Pair(paths - {es[i].path}, x) <==> Pair(paths, x) && x != es[i];
    }
  }

  /** A pair of the path map, as an entry of the multimap, and back. */
  lemma EntryOf(es: seq<Entry>, paths: map<Path, int>, p: Path)
    requires Inverse(es, paths) && p in paths
    ensures exists i :: 0 <= i < |es| && es[i] == Entry(paths[p], p)
  {
    assert Pair(paths, Entry(paths[p], p));
    assert Entry(paths[p], p) in multiset(es);
    assert Entry(paths[p], p) in es;
  }

  lemma PairOf(es: seq<Entry>, paths: map<Path, int>, i: nat)
    requires Inverse(es, paths) && i < |es|
    ensures Pair(paths, es[i])
  {
    assert es[i] in multiset(es);
  }

  lemma NamedIsCounted(es: seq<Entry>, paths: map<Path, int>, k: Kernel, wd: int)
    requires Sorted(es) && Inverse(es, paths)
    ensures Index(paths, k).Named(wd) <==> Count(es, wd) > 0
  {
    if Count(es, wd) > 0 {
      PairOf(es, paths, Lower(es, wd));
    }
    if Index(paths, k).Named(wd) {
      var p :| p in paths && paths[p] == wd;
      EntryOf(es, paths, p);
    }
  }

  /**
   The erase loop of removeWatch(wd) with `left` entries to go. The key's entries are the block from `start`, the
   ones before `it` were kept, and both maps have lost the same pairs.
   */
  ghost predicate Filtering(es: seq<Entry>, paths: map<Path, int>, p0: map<Path, int>, wd: int, dirs: set<Path>,
                            start: int, it: int, left: int)
  {
    && Sorted(es) && Inverse(es, paths)
    && 0 <= left && 0 <= start <= it && it + left <= |es|
    && (forall j | 0 <= j < |es| :: es[j].wd == wd <==> start <= j < it + left)
    && (forall j | start <= j < it :: es[j].path in dirs)
    && (forall p | p in paths :: p in p0 && paths[p] == p0[p])
    && (forall p | p in p0 && (p0[p] != wd || p in dirs) :: p in paths)
  }

  lemma FilterErase(es: seq<Entry>, paths: map<Path, int>, p0: map<Path, int>, wd: int, dirs: set<Path>,
                    start: int, it: int, left: int)
    requires Filtering(es, paths, p0, wd, dirs, start, it, left) && 0 < left && es[it].path !in dirs
    ensures es[it].path in paths
    ensures Filtering(Erase(es, it), paths - {es[it].path}, p0, wd, dirs, start, it, left - 1)
  {
    EraseKeepsSorted(es, it);
    EraseKeepsInverse(es, paths, it);
  }

  lemma FilterDone(es: seq<Entry>, paths: map<Path, int>, p0: map<Path, int>, wd: int, dirs: set<Path>, start: int, it: int)
    requires Filtering(es, paths, p0, wd, dirs, start, it, 0)
    ensures paths == map p | p in p0 && (p0[p] != wd || p in dirs) :: p0[p]
  {
    forall p | p in paths && paths[p] == wd ensures p in dirs {
      EntryOf(es, paths, p);
    }
  }

  /** The erase loop of removeWatch(path), which has already left the path map: the pair goes once, in the block. */
  ghost predicate Seeking(es: seq<Entry>, p0: map<Path, int>, wd: int, path: Path, erased: bool, it: int, left: int) {
    && Sorted(es) && path in p0 && p0[path] == wd
    && Inverse(es, if erased then p0 - {path} else p0)
    && 0 <= left && 0 <= it && it + left <= |es|
    && (forall j | it <= j < it + left :: es[j].wd == wd)
    && (!erased ==> exists j :: it <= j < it + left && es[j] == Entry(wd, path))
  }

  lemma SeekErase(es: seq<Entry>, p0: map<Path, int>, wd: int, path: Path, erased: bool, it: int, left: int)
    requires Seeking(es, p0, wd, path, erased, it, left) && 0 < left && es[it].path == path
    ensures Seeking(Erase(es, it), p0, wd, path, true, it, left - 1)
  {
    PairOf(es, if erased then p0 - {path} else p0, it);
    EraseKeepsSorted(es, it);
    EraseKeepsInverse(es, p0, it);
  }

  lemma SeekSkip(es: seq<Entry>, p0: map<Path, int>, wd: int, path: Path, erased: bool, it: int, left: int)
    requires Seeking(es, p0, wd, path, erased, it, left) && 0 < left && es[it].path != path
    ensures Seeking(es, p0, wd, path, erased, it + 1, left - 1)
  {
  }

  lemma SeekStart(es: seq<Entry>, p0: map<Path, int>, wd: int, path: Path)
    requires Sorted(es) && Inverse(es, p0) && path in p0 && p0[path] == wd
    ensures Seeking(es, p0, wd, path, false, Lower(es, wd), Count(es, wd))
  {
    EntryOf(es, p0, path);
  }

  /** The first entry of the key, in the multimap's order, whose path is a directory. */
  ghost predicate FirstOf(es: seq<Entry>, wd: int, path: Path, dirs: set<Path>) {
    exists i :: 0 <= i < |es| && es[i] == Entry(wd, path) && path in dirs
      && forall j | 0 <= j < i && es[j].wd == wd :: es[j].path !in dirs
  }

  class FileInotifyWatcher {
    var mWdToPathMap: seq<Entry>       // QMultiMap<int, QString>: by key, the newest value of a key first
    var mPathToWdMap: map<Path, int>   // QMap<QString, int>
    var mInitialized: bool
    var kernel: Kernel                 // the instance behind mInotifyFd

    ghost predicate Valid()
      reads this
    {
      Sorted(mWdToPathMap) && Inverse(mWdToPathMap, mPathToWdMap) && View().Inv()
    }

    ghost function View(): Index
      reads this
    {
      Index(mPathToWdMap, kernel)
    }

    constructor ()
      ensures Valid() && !mInitialized && mPathToWdMap == map[]
    {
      mWdToPathMap, mPathToWdMap, mInitialized, kernel := [], map[], false, Kernel(map[], 1);
    }

    /** inotify_init1 gives a fresh instance, or fails. */
    method Initialize(granted: bool) returns (ret: int)
      requires Valid() && (!mInitialized ==> mPathToWdMap == map[])
      modifies this`mInitialized, this`kernel
      ensures Valid() && (ret == 0 <==> mInitialized) && (ret == 0 || ret == -1)
      ensures old(mInitialized) || !granted ==> mInitialized == old(mInitialized) && kernel == old(kernel)
      ensures !old(mInitialized) && granted ==> mInitialized && View() == Index(map[], Kernel(map[], 1))
    {
      if mInitialized { return 0; }
      if !granted { return -1; }
      kernel := Kernel(map[], 1);
      mInitialized := true;
      return 0;
    }

    method AddWatch(path: Path, target: Option<Inode>) returns (ret: int)
      requires Valid()
      modifies this`mWdToPathMap, this`mPathToWdMap, this`kernel
      ensures Valid()
      ensures View() == if mInitialized then old(View()).Add(path, target) else old(View())
      ensures ret == if mInitialized && (path in old(mPathToWdMap) || target.Some?) then 0 else -1
      ensures if mInitialized && path !in old(mPathToWdMap) && target.Some?
        then mWdToPathMap == Newest(old(mWdToPathMap), Entry(mPathToWdMap[path], path))
        else mWdToPathMap == old(mWdToPathMap)
    {
      if !mInitialized { return -1; }
      AddKeepsInv(View(), path, target);
      if path in mPathToWdMap { return 0; }
      if target.None? { return -1; }
      var (k, wd) := kernel.Add(target.value);
      InsertKeepsSorted(mWdToPathMap, Entry(wd, path));
      InsertKeepsInverse(mWdToPathMap, mPathToWdMap, Lower(mWdToPathMap, wd), Entry(wd, path));
      kernel := k;
      mWdToPathMap := Newest(mWdToPathMap, Entry(wd, path));
      mPathToWdMap := mPathToWdMap[path := wd];
      return 0;
    }

    /** The end of both removals: a descriptor without paths is given back to the kernel. */
    method DropIfUnnamed(wd: int) returns (ret: int)
      requires Sorted(mWdToPathMap) && Inverse(mWdToPathMap, mPathToWdMap) && kernel.Valid()
      modifies this`kernel
      ensures View() == old(View().Shrink(mPathToWdMap, wd))
      ensures ret == if View().Named(wd) || old(kernel.Live(wd)) then 0 else -1
    {
      NamedIsCounted(mWdToPathMap, mPathToWdMap, kernel, wd);
      ret := 0;
      if Count(mWdToPathMap, wd) == 0 {
        ret := if kernel.Live(wd) then 0 else -1;
        kernel := kernel.Remove(wd);
      }
    }

    /** The counted loop of removeWatch(path); the path map has already lost the path. */
    method EraseEntry(wd: int, path: Path, ghost p0: map<Path, int>)
      requires Sorted(mWdToPathMap) && Inverse(mWdToPathMap, p0)
      requires path in p0 && p0[path] == wd
      modifies this`mWdToPathMap
      ensures Sorted(mWdToPathMap) && Inverse(mWdToPathMap, p0 - {path})
    {
      var count := Count(mWdToPathMap, wd);
      var it := Lower(mWdToPathMap, wd);
      SeekStart(mWdToPathMap, p0, wd, path);
      ghost var erased := false;
      for i := 0 to count
        invariant Seeking(mWdToPathMap, p0, wd, path, erased, it, count - i)
      {
        if mWdToPathMap[it].path == path {
          SeekErase(mWdToPathMap, p0, wd, path, erased, it, count - i);
          mWdToPathMap := Erase(mWdToPathMap, it);
          erased := true;
        } else {
          SeekSkip(mWdToPathMap, p0, wd, path, erased, it, count - i);
          it := it + 1;
        }
      }
    }

    method RemoveWatchPath(path: Path) returns (ret: int)
      requires Valid()
      modifies this`mWdToPathMap, this`mPathToWdMap, this`kernel
      ensures Valid()
      ensures View() == if mInitialized then old(View()).RemovePath(path) else old(View())
      ensures ret ==
        if !mInitialized || path !in old(mPathToWdMap) then -1
        else if View().Named(old(mPathToWdMap[path])) || old(kernel.Live(mPathToWdMap[path])) then 0 else -1
    {
      if !mInitialized { return -1; }
      ghost var p0 := mPathToWdMap;
      ApplyKeepsInv(View(), RemovePathOp(path));
      var wd := -1;
      if path in mPathToWdMap {
        wd := mPathToWdMap[path];
        mPathToWdMap := mPathToWdMap - {path};
      }
      if wd == -1 { return -1; }
      EraseEntry(wd, path, p0);
      ret := DropIfUnnamed(wd);
    }

    /** `dirs`: the paths that are directories, not through a symbolic link, while the lock is held. */
    method RemoveWatch(wd: int, dirs: set<Path>) returns (ret: int)
      requires Valid()
      modifies this`mWdToPathMap, this`mPathToWdMap, this`kernel
      ensures Valid()
      ensures View() == if mInitialized then old(View()).RemoveWd(wd, dirs) else old(View())
      ensures ret == if mInitialized && 0 <= wd && (View().Named(wd) || old(kernel.Live(wd))) then 0 else -1
    {
      if !mInitialized { return -1; }
      if wd < 0 { return -1; }
      ghost var p0 := mPathToWdMap;
      ApplyKeepsInv(View(), RemoveWdOp(wd, dirs));
      var count := Count(mWdToPathMap, wd);
      var it := Lower(mWdToPathMap, wd);
      ghost var start := it;
      for i := 0 to count
        invariant kernel == old(kernel)
        invariant Filtering(mWdToPathMap, mPathToWdMap, p0, wd, dirs, start, it, count - i)
      {
        var path := mWdToPathMap[it].path;
        if path !in dirs {
          FilterErase(mWdToPathMap, mPathToWdMap, p0, wd, dirs, start, it, count - i);
          mWdToPathMap := Erase(mWdToPathMap, it);
          if path in mPathToWdMap {
            mPathToWdMap := mPathToWdMap - {path};
          }
        } else {
          it := it + 1;
        }
      }
      FilterDone(mWdToPathMap, mPathToWdMap, p0, wd, dirs, start, it);
      ret := DropIfUnnamed(wd);
    }

    /** A path of the descriptor that is a directory now; the search stops at the first one. */
    method WatchedPathFromWd(wd: int, dirs: set<Path>) returns (path: Option<Path>)
      requires Valid()
      ensures path.Some? ==> path.value in dirs && path.value in mPathToWdMap && mPathToWdMap[path.value] == wd
      ensures path.Some? ==> FirstOf(mWdToPathMap, wd, path.value, dirs)
      ensures path.None? <==>
        !mInitialized || wd < 0 || forall p | p in mPathToWdMap && mPathToWdMap[p] == wd :: p !in dirs
    {
      if !mInitialized { return None; }
      if wd < 0 { return None; }
      var count := Count(mWdToPathMap, wd);
      var it := Lower(mWdToPathMap, wd);
      for i := 0 to count
        invariant it == Lower(mWdToPathMap, wd) + i
        invariant forall j | Lower(mWdToPathMap, wd) <= j < it :: mWdToPathMap[j].path !in dirs
      {
        var tmp := mWdToPathMap[it].path;
        if tmp in dirs {
          PairOf(mWdToPathMap, mPathToWdMap, it);
          assert mWdToPathMap[it] == Entry(wd, tmp);
          return Some(tmp);
        }
        it := it + 1;
      }
      forall p | p in mPathToWdMap && mPathToWdMap[p] == wd ensures p !in dirs {
        EntryOf(mWdToPathMap, mPathToWdMap, p);
      }
      return None;
    }

    /** Both maps end empty, and the removal loop alone already leaves the kernel without a watch. */
    method Cleanup() returns (ghost left: map<Inode, int>)
      requires Valid()
      modifies this
      ensures Valid() && !mInitialized
      ensures old(mInitialized) ==> mPathToWdMap == map[] && mWdToPathMap == [] && left == map[] && kernel.watch == map[]
      ensures !old(mInitialized) ==> View() == old(View()) && mWdToPathMap == old(mWdToPathMap)
    {
      left := kernel.watch;
      if !mInitialized { return; }
      forall n | n in kernel.watch
        ensures exists j :: 0 <= j < |mWdToPathMap| && mWdToPathMap[j].wd == kernel.watch[n]
      {
        assert View().Named(kernel.watch[n]);
        var p :| p in mPathToWdMap && mPathToWdMap[p] == kernel.watch[n];
        EntryOf(mWdToPathMap, mPathToWdMap, p);
      }
      var i := 0;
      while i < |mWdToPathMap|
        invariant i <= |mWdToPathMap|
        invariant mWdToPathMap == old(mWdToPathMap) && mPathToWdMap == old(mPathToWdMap)
        invariant kernel.Valid()
        invariant forall n | n in kernel.watch :: exists j :: i <= j < |mWdToPathMap| && mWdToPathMap[j].wd == kernel.watch[n]
      {
        kernel := kernel.Remove(mWdToPathMap[i].wd);
        i := i + 1;
      }
      left := kernel.watch;
      mWdToPathMap, mPathToWdMap := [], map[];
      kernel := Kernel(map[], 1);
      mInitialized := false;
    }
  }
}
