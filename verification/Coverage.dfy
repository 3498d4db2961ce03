/**
 Coverage of the inotify service, over all interleavings with a world that creates files and directories.

 A step is one action of the world, of a thread that asks for a recursive watch, or of the watcher thread. A scan
 holds `mWatcherLock`, so only one runs at a time; it adds the watch of a directory before it opens it, and the
 world may act between any two of its steps. In this world a directory keeps its inode for good, so a path stands
 for its inode, and the index is the path map whose exact inverse WatchIndex proves the multimap to be.
 */
module Coverage {
  import opened Base
  import opened Paths

  /** A node: `qualifies` is the home-prefix and mime-by-extension test; links and devices are File(false). */
  datatype Kind = Dir | File(qualifies: bool)

  datatype Stage = Entered | Watched | Open

  /** One activation of the recursive scan; `todo` are the entries readdir still owes since the directory was opened. */
  datatype Frame = Frame(dir: Path, notify: bool, stage: Stage, todo: set<Name>)

  /** A create event as the kernel reports it. */
  datatype Event = Event(wd: int, name: Name)

  datatype Owner = Free | Main | Watcher

  datatype State = State(
    fs: map<Path, Kind>,
    kernel: map<Path, int>,    // the live watches
    nextWd: int,
    queue: seq<Event>,         // events not yet read
    index: map<Path, int>,     // mPathToWdMap
    hand: Option<Path>,        // the path of an event read but not handled yet
    owner: Owner,              // who holds mWatcherLock
    scan: seq<Frame>,          // the call stack of the running scan, innermost first
    appended: seq<Path>,       // every path put on mFileList, in order
    // history, read by no step
    roots: set<Path>,          // the paths a recursive watch was asked for
    failed: set<Path>,         // the directories whose inotify_add_watch or opendir failed
    born: set<Path>            // what was created while its parent was watched
  )

  datatype Step =
    | Create(path: Path, kind: Kind)
    | Start(path: Path, notify: bool)
    | Read
    | Handle
    | Add(granted: bool)
    | OpenDir(granted: bool)
    | Visit(name: Name)
    | Close

  predicate IsDir(fs: map<Path, Kind>, p: Path) {
    p in fs && fs[p].Dir?
  }

  function Children(fs: map<Path, Kind>, d: Path): set<Name> {
    set p | p in fs && p != [] && Parent(p) == d :: Last(p)
  }

  /** watchedPathFromWd: a path of the descriptor that is a directory. */
  ghost function WatchedPath(s: State, wd: int): Option<Path> {
    if exists p :: p in s.index && s.index[p] == wd && IsDir(s.fs, p)
    then var p :| p in s.index && s.index[p] == wd && IsDir(s.fs, p); Some(p)
    else None
  }

  ghost predicate Enabled(s: State, l: Step) {
    match l
    case Create(p, _) => p != [] && p !in s.fs && IsDir(s.fs, Parent(p))
    case Start(p, _) => s.owner.Free? && IsDir(s.fs, p)
    case Read => s.queue != [] && s.hand.None? && !s.owner.Watcher?
    case Handle => s.hand.Some? && s.owner.Free?
    case Add(_) => s.scan != [] && s.scan[0].stage.Entered?
    case OpenDir(_) => s.scan != [] && s.scan[0].stage.Watched?
    case Visit(name) => s.scan != [] && s.scan[0].stage.Open? && s.scan[0].dir + [name] in s.fs
    case Close => s.scan != [] && s.scan[0].stage.Open? && s.scan[0].todo == {}
  }

  function Pop(s: State): State
    requires s.scan != []
  {
    s.(scan := s.scan[1..], owner := if |s.scan| == 1 then Free else s.owner)
  }

  function Top(s: State, f: Frame): State
    requires s.scan != []
  {
    s.(scan := [f] + s.scan[1..])
  }

  function AfterCreate(s: State, p: Path, kind: Kind): State
    requires p != []
  {
    s.(fs := s.fs[p := kind],
       queue := s.queue + if Parent(p) in s.kernel then [Event(s.kernel[Parent(p)], Last(p))] else [],
       born := s.born + if Parent(p) in s.kernel then {p} else {})
  }

  ghost function AfterRead(s: State): State
    requires s.queue != []
  {
    var e := s.queue[0];
    var p := WatchedPath(s, e.wd);
    s.(queue := s.queue[1..], hand := if p.Some? then Some(p.value + [e.name]) else None)
  }

  function AfterHandle(s: State): State
    requires s.hand.Some?
  {
    var p := s.hand.value;
    if IsDir(s.fs, p) then s.(hand := None, owner := Watcher, scan := [Frame(p, true, Entered, {})])
    else if p in s.fs && s.fs[p].qualifies then s.(hand := None, appended := s.appended + [p])
    else s.(hand := None)
  }

  /** addWatchLocked ignores the result of addWatch: the scan goes on either way. */
  function AfterAdd(s: State, granted: bool): State
    requires s.scan != []
  {
    var d := s.scan[0].dir;
    var s1 := Top(s, s.scan[0].(stage := Watched));
    if d in s.index then s1
    else if !granted then s1.(failed := s.failed + {d})
    else if d in s.kernel then s1.(index := s.index[d := s.kernel[d]])
    else s1.(index := s.index[d := s.nextWd], kernel := s.kernel[d := s.nextWd], nextWd := s.nextWd + 1)
  }

  function AfterOpen(s: State, granted: bool): State
    requires s.scan != []
  {
    var f := s.scan[0];
    if granted then Top(s, f.(stage := Open, todo := Children(s.fs, f.dir)))
    else Pop(s).(failed := s.failed + {f.dir})
  }

  function AfterVisit(s: State, name: Name): State
    requires s.scan != [] && s.scan[0].dir + [name] in s.fs
  {
    var f := s.scan[0];
    var p := f.dir + [name];
    var s1 := Top(s, f.(todo := f.todo - {name}));
    if Skipped(name) then s1
    else if s.fs[p].File? && f.notify then
      (if s.fs[p].qualifies then s1.(appended := s.appended + [p]) else s1)
    else if s.fs[p].Dir? then s1.(scan := [Frame(p, f.notify, Entered, {})] + s1.scan)
    else s1
  }

  ghost function Post(s: State, l: Step): State
    requires Enabled(s, l)
  {
    match l
    case Create(p, kind) => AfterCreate(s, p, kind)
    case Start(p, notify) =>
      s.(owner := Main, scan := [Frame(p, notify, Entered, {})], roots := s.roots + {p})
    case Read => AfterRead(s)
    case Handle => AfterHandle(s)
    case Add(granted) => AfterAdd(s, granted)
    case OpenDir(granted) => AfterOpen(s, granted)
    case Visit(name) => AfterVisit(s, name)
    case Close => Pop(s)
  }

  ghost predicate Tree(fs: map<Path, Kind>) {
    forall p | p in fs && p != [] :: IsDir(fs, Parent(p))
  }

  ghost predicate Init(s: State) {
    && Tree(s.fs)
    && s.kernel == s.index == map[] && 0 < s.nextWd
    && s.queue == [] && s.hand.None? && s.owner.Free? && s.scan == [] && s.appended == []
    && s.roots == s.failed == s.born == {}
  }

  ghost predicate Run(s: State, ls: seq<Step>, end: State)
    decreases |ls|
  {
    if ls == [] then s == end else Enabled(s, ls[0]) && Run(Post(s, ls[0]), ls[1..], end)
  }

  // ---- what is still owed ----

  /** Named by a create event that is not handled yet. */
  ghost predicate Named(s: State, p: Path) {
    || s.hand == Some(p)
    || (p != [] && Parent(p) in s.index && Event(s.index[Parent(p)], Last(p)) in s.queue)
  }

  ghost predicate Entering(s: State, p: Path, notify: bool) {
    exists f :: f in s.scan && f.dir == p && !f.stage.Open? && (notify ==> f.notify)
  }

  ghost predicate Listed(s: State, p: Path, notify: bool) {
    p != [] && exists f :: f in s.scan && f.dir == Parent(p) && f.stage.Open? && (notify ==> f.notify) && Last(p) in f.todo
  }

  /** The running scan has still to enter `p`, or to open it after adding its watch. */
  ghost predicate Scheduled(s: State, p: Path) {
    Entering(s, p, false) || Listed(s, p, false) || (p != [] && Entering(s, Parent(p), false))
  }

  /** `p` or a directory on the way from `d` to it could not be watched or opened. */
  ghost predicate FailedFrom(s: State, d: Path, p: Path) {
    exists k :: |d| <= k <= |p| && p[..k] in s.failed
  }

  /** `p` lies at or below `d`, across no name that the scan skips. */
  ghost predicate Visible(d: Path, p: Path) {
    d <= p && forall i | |d| <= i < |p| :: !Skipped(p[i])
  }

  /** Below `d` an announcing visit of `p` is owed: by an event, or by a scan that has still to come down to it. */
  ghost predicate DueFrom(s: State, d: Path, p: Path)
    decreases |p|
  {
    || Named(s, p)
    || Entering(s, p, true)
    || (|d| < |p| && (Listed(s, p, true) || DueFrom(s, d, Parent(p))))
  }

  // ---- the invariant ----

  ghost predicate IndexOk(s: State) {
    && s.index == s.kernel && 0 < s.nextWd
    && (forall p | p in s.index :: IsDir(s.fs, p) && 0 < s.index[p] < s.nextWd)
    && (forall p, q | p in s.index && q in s.index && s.index[p] == s.index[q] :: p == q)
  }

  /** The event names an entry, made under a watch, of a directory that the index knows by the event's descriptor. */
  ghost predicate EventOk(s: State, e: Event) {
    exists p :: p in s.index && s.index[p] == e.wd && p + [e.name] in s.fs && p + [e.name] in s.born
  }

  ghost predicate QueueOk(s: State) {
    && (forall e | e in s.queue :: EventOk(s, e))
    && (s.hand.Some? ==> s.hand.value in s.fs && s.hand.value in s.born)
  }

  ghost predicate FrameOk(s: State, f: Frame) {
    IsDir(s.fs, f.dir) && (f.stage.Entered? || f.dir in s.index || f.dir in s.failed)
  }

  ghost predicate FramesOk(s: State) {
    (s.scan == [] <==> s.owner.Free?) && forall f | f in s.scan :: FrameOk(s, f)
  }

  ghost predicate HistoryOk(s: State) {
    && (forall p | p in s.appended :: p in s.fs && s.fs[p] == File(true))
    && (forall p | p in s.born :: p != [] && p in s.fs)
    && (forall p | p in s.failed :: IsDir(s.fs, p))
    && (forall p | p in s.roots :: IsDir(s.fs, p))
  }

  ghost predicate WellFormed(s: State) {
    Tree(s.fs) && IndexOk(s) && QueueOk(s) && FramesOk(s) && HistoryOk(s)
  }

  /** A directory below a watched parent is watched itself, or somebody still owes it a visit. */
  ghost predicate Attended(s: State, d: Path) {
    d in s.index || Scheduled(s, d) || Named(s, d) || d in s.failed || (d != [] && Parent(d) in s.failed)
  }

  ghost predicate AllAttended(s: State) {
    && (forall d | IsDir(s.fs, d) && d != [] && !Skipped(Last(d)) && Parent(d) in s.index :: Attended(s, d))
    && (forall r | r in s.roots :: r in s.index || Entering(s, r, false) || r in s.failed)
  }

  /** What was created under a watch: a file is announced or still named, a directory is watched or still to be entered. */
  ghost predicate BornAttended(s: State, p: Path)
    requires p in s.fs
  {
    match s.fs[p]
    case Dir => p in s.index || Named(s, p) || Entering(s, p, true) || p in s.failed
    case File(qualifies) => qualifies ==> p in s.appended || Named(s, p)
  }

  /** A name that the scan skips is watched or scanned only because an event named it, or somebody asked for it. */
  ghost predicate Called(s: State, p: Path) {
    p == [] || !Skipped(Last(p)) || p in s.roots || p in s.born
  }

  ghost predicate AllCalled(s: State) {
    (forall p | p in s.index :: Called(s, p)) && (forall f | f in s.scan :: Called(s, f.dir))
  }

  ghost predicate AllBornAttended(s: State)
    requires WellFormed(s)
  {
    forall p | p in s.born :: BornAttended(s, p)
  }

  ghost predicate Inv(s: State) {
    WellFormed(s) && AllAttended(s) && AllBornAttended(s) && AllCalled(s)
  }

  // ---- every step keeps it ----

  lemma ChildIsListed(fs: map<Path, Kind>, p: Path)
    requires p in fs && p != []
    ensures Last(p) in Children(fs, Parent(p))
  {
  }

  lemma Split(p: Path)
    requires p != []
    ensures p == Parent(p) + [Last(p)]
  {
  }

  /** The frames that a step leaves alone: all of them, or all but the innermost. */
  lemma FramesKept(s: State, l: Step, f: Frame)
    requires WellFormed(s) && Enabled(s, l) && f in s.scan
    requires (l.Add? || l.OpenDir? || l.Visit? || l.Close?) ==> f != s.scan[0]
    ensures f in Post(s, l).scan
  {
    if l.Add? || l.OpenDir? || l.Visit? || l.Close? {
      assert f in s.scan[1..];
    }
  }

  lemma WatchedPathIs(s: State, p: Path)
    requires WellFormed(s) && p in s.index
    ensures WatchedPath(s, s.index[p]) == Some(p)
  {
  }

  lemma NamedKept(s: State, l: Step, p: Path)
    requires WellFormed(s) && Enabled(s, l) && Named(s, p)
    ensures Named(Post(s, l), p) || (l.Handle? && s.hand == Some(p))
  {
    if l.Read? {
      NamedAfterRead(s, p);
    }
  }

  lemma NamedAfterRead(s: State, p: Path)
    requires WellFormed(s) && Enabled(s, Read) && Named(s, p)
    ensures Named(Post(s, Read), p)
  {
    WatchedPathIs(s, Parent(p));
    Split(p);
    assert s.queue == [s.queue[0]] + s.queue[1..];
  }

  lemma TreeKept(s: State, l: Step)
    requires Tree(s.fs) && Enabled(s, l)
    ensures Tree(Post(s, l).fs)
  {
    FsKept(s, l);
    if !l.Create? { assert Post(s, l).fs == s.fs; }
  }

  lemma WellFormedKept(s: State, l: Step)
    requires WellFormed(s) && Enabled(s, l)
    ensures WellFormed(Post(s, l))
  {
    TreeKept(s, l);
    IndexKept(s, l);
    QueueKept(s, l);
    FramesOkKept(s, l);
    HistoryKept(s, l);
  }

  lemma FsKept(s: State, l: Step)
    requires Enabled(s, l)
    ensures forall p | p in s.fs :: p in Post(s, l).fs && Post(s, l).fs[p] == s.fs[p]
  {
  }

  lemma IndexSame(s: State, l: Step)
    requires Enabled(s, l) && !l.Add?
    ensures Post(s, l).index == s.index && Post(s, l).kernel == s.kernel && Post(s, l).nextWd == s.nextWd
  {
  }

  lemma IndexKept(s: State, l: Step)
    requires WellFormed(s) && Enabled(s, l)
    ensures IndexOk(Post(s, l))
    ensures forall p | p in s.index :: p in Post(s, l).index && Post(s, l).index[p] == s.index[p]
    ensures forall p | p in s.fs :: p in Post(s, l).fs && Post(s, l).fs[p] == s.fs[p]
  {
    FsKept(s, l);
    if l.Add? {
      AddKeepsIndex(s, l.granted);
    } else {
      IndexSame(s, l);
    }
  }

  lemma AddKeepsIndex(s: State, granted: bool)
    requires WellFormed(s) && Enabled(s, Add(granted))
    ensures IndexOk(AfterAdd(s, granted))
  {
    var d := s.scan[0].dir;
    assert FrameOk(s, s.scan[0]) && IsDir(s.fs, d);
  }

  lemma EventOkKept(s: State, l: Step, e: Event)
    requires WellFormed(s) && Enabled(s, l) && EventOk(s, e)
    ensures EventOk(Post(s, l), e)
  {
    IndexKept(s, l);
    BornGrows(s, l);
    var q :| q in s.index && s.index[q] == e.wd && q + [e.name] in s.fs && q + [e.name] in s.born;
    assert q in Post(s, l).index && q + [e.name] in Post(s, l).fs;
  }

  lemma NewEventOk(s: State, p: Path, kind: Kind)
    requires WellFormed(s) && Enabled(s, Create(p, kind)) && Parent(p) in s.kernel
    ensures EventOk(AfterCreate(s, p, kind), Event(s.kernel[Parent(p)], Last(p)))
  {
    Split(p);
    assert Parent(p) in AfterCreate(s, p, kind).index;
  }

  lemma HandAfterRead(s: State)
    requires WellFormed(s) && Enabled(s, Read)
    ensures AfterRead(s).hand.Some? ==> AfterRead(s).hand.value in s.fs && AfterRead(s).hand.value in s.born
  {
    var e := s.queue[0];
    assert EventOk(s, e);
    var q :| q in s.index && s.index[q] == e.wd && q + [e.name] in s.fs && q + [e.name] in s.born;
    WatchedPathIs(s, q);
  }

  lemma EventKept(s: State, l: Step, e: Event)
    requires WellFormed(s) && Enabled(s, l) && e in Post(s, l).queue
    ensures EventOk(Post(s, l), e)
  {
    if e in s.queue {
      EventOkKept(s, l, e);
    } else {
      NewEventOk(s, l.path, l.kind);
    }
  }

  lemma HandKept(s: State, l: Step)
    requires WellFormed(s) && Enabled(s, l) && Post(s, l).hand.Some?
    ensures Post(s, l).hand.value in Post(s, l).fs && Post(s, l).hand.value in Post(s, l).born
  {
    FsKept(s, l);
    BornGrows(s, l);
    if l.Read? { HandAfterRead(s); }
  }

  lemma QueueKept(s: State, l: Step)
    requires WellFormed(s) && Enabled(s, l)
    ensures QueueOk(Post(s, l))
  {
    var t := Post(s, l);
    forall e | e in t.queue ensures EventOk(t, e) {
      EventKept(s, l, e);
    }
    if t.hand.Some? { HandKept(s, l); }
  }

  lemma BornGrows(s: State, l: Step)
    requires Enabled(s, l)
    ensures s.born <= Post(s, l).born
    ensures forall p | p in Post(s, l).born && p !in s.born :: l.Create? && l.path == p
  {
  }

  lemma FailedGrows(s: State, l: Step)
    requires Enabled(s, l)
    ensures s.failed <= Post(s, l).failed
    ensures forall p | p in Post(s, l).failed && p !in s.failed :: s.scan != [] && p == s.scan[0].dir
  {
  }

  /** Where the frame of directory `p` can come from. */
  ghost predicate Enters(s: State, l: Step, p: Path) {
    match l
    case Start(q, _) => p == q
    case Handle => s.hand == Some(p)
    case Visit(name) => s.scan != [] && p == s.scan[0].dir + [name] && !Skipped(name)
    case _ => false
  }

  /** A frame is new, or it is the innermost one in its next stage. */
  lemma NewFrame(s: State, l: Step, f: Frame)
    requires Enabled(s, l) && f in Post(s, l).scan && f !in s.scan
    ensures (f.stage.Entered? && Enters(s, l, f.dir) && IsDir(s.fs, f.dir)) ||
      (s.scan != [] && s.scan[0] in s.scan && f.dir == s.scan[0].dir
        && (l.Add? || (l.OpenDir? && s.scan[0].stage.Watched?) || (l.Visit? && s.scan[0].stage.Open?)))
  {
    if l.Visit? {
      assert f in s.scan[1..] ==> f in s.scan;
    }
  }

  lemma NewFrameOk(s: State, l: Step, f: Frame)
    requires WellFormed(s) && Enabled(s, l) && f in Post(s, l).scan && f !in s.scan
    ensures IsDir(s.fs, f.dir) && (f.stage.Entered? || f.dir in Post(s, l).index || f.dir in Post(s, l).failed)
  {
    NewFrame(s, l, f);
    IndexKept(s, l);
    FailedGrows(s, l);
  }

  lemma FrameKept(s: State, l: Step, f: Frame)
    requires WellFormed(s) && Enabled(s, l) && f in Post(s, l).scan
    ensures FrameOk(Post(s, l), f)
  {
    IndexKept(s, l);
    FailedGrows(s, l);
    if f in s.scan { assert FrameOk(s, f); } else { NewFrameOk(s, l, f); }
  }

  /** The lock is held from the first frame of a scan to its last. */
  lemma OwnerKept(s: State, l: Step)
    requires Enabled(s, l) && (s.scan == [] <==> s.owner.Free?)
    ensures Post(s, l).scan == [] <==> Post(s, l).owner.Free?
  {
    if l.Create? || l.Read? {
      assert Post(s, l).scan == s.scan && Post(s, l).owner == s.owner;
    } else if l.OpenDir? || l.Close? {
      assert s.scan[1..] == [] <==> |s.scan| == 1;
    }
  }

  lemma FramesOkKept(s: State, l: Step)
    requires WellFormed(s) && Enabled(s, l)
    ensures FramesOk(Post(s, l))
  {
    OwnerKept(s, l);
    forall f | f in Post(s, l).scan ensures FrameOk(Post(s, l), f) {
      FrameKept(s, l, f);
    }
  }

  lemma HistoryKept(s: State, l: Step)
    requires WellFormed(s) && Enabled(s, l)
    ensures HistoryOk(Post(s, l))
  {
    FsKept(s, l);
    AppendedKept(s, l);
    RootsGrow(s, l);
    BornGrows(s, l);
    FailedGrows(s, l);
    FailedAreDirs(s, l);
  }

  lemma AppendedKept(s: State, l: Step)
    requires WellFormed(s) && Enabled(s, l)
    ensures s.appended <= Post(s, l).appended
    ensures forall p | p in Post(s, l).appended && p !in s.appended :: p in s.fs && s.fs[p] == File(true)
    ensures forall p | p in Post(s, l).appended && p !in s.appended :: Post(s, l).fs == s.fs
  {
    if !l.Handle? && !l.Visit? {
      assert Post(s, l).appended == s.appended;
    }
  }

  lemma RootsGrow(s: State, l: Step)
    requires Enabled(s, l)
    ensures s.roots <= Post(s, l).roots && forall r | r in Post(s, l).roots && r !in s.roots :: IsDir(s.fs, r)
  {
  }

  lemma FailedAreDirs(s: State, l: Step)
    requires WellFormed(s) && Enabled(s, l)
    ensures forall p | p in Post(s, l).failed :: IsDir(Post(s, l).fs, p)
  {
    FsKept(s, l);
    FailedGrows(s, l);
    if s.scan != [] { assert s.scan[0] in s.scan; }
  }

  /** This step opens directory `p`, or fails to, in a frame that announces files if `notify` asks for one. */
  ghost predicate Opens(s: State, l: Step, p: Path, notify: bool) {
    l.OpenDir? && s.scan != [] && s.scan[0].dir == p && (notify ==> s.scan[0].notify)
  }

  lemma EnteringKept(s: State, l: Step, p: Path, notify: bool)
    requires WellFormed(s) && Enabled(s, l) && Entering(s, p, notify)
    ensures Entering(Post(s, l), p, notify) || Opens(s, l, p, notify)
  {
    var t := Post(s, l);
    var f :| f in s.scan && f.dir == p && !f.stage.Open? && (notify ==> f.notify);
    if s.scan[0] == f && l.Add? {
      assert t.scan[0].dir == p && !t.scan[0].stage.Open?;
      assert t.scan[0] in t.scan;
    } else if !(s.scan[0] == f && l.OpenDir?) {
      FramesKept(s, l, f);
    }
  }

  lemma ListedKept(s: State, l: Step, p: Path, notify: bool)
    requires WellFormed(s) && Enabled(s, l) && Listed(s, p, notify)
    ensures Listed(Post(s, l), p, notify) ||
      (l.Visit? && s.scan[0].dir == Parent(p) && l.name == Last(p) && (notify ==> s.scan[0].notify))
  {
    var t := Post(s, l);
    var f :| f in s.scan && f.dir == Parent(p) && f.stage.Open? && (notify ==> f.notify) && Last(p) in f.todo;
    if s.scan[0] == f {
      if l.Visit? {
        var g := f.(todo := f.todo - {l.name});
        assert g in t.scan;
      }
    } else {
      FramesKept(s, l, f);
    }
  }

  /** What readdir owes after an opendir: everything that is there. */
  lemma OpenLists(s: State, p: Path)
    requires Enabled(s, OpenDir(true)) && p in s.fs && p != [] && Parent(p) == s.scan[0].dir
    ensures Listed(Post(s, OpenDir(true)), p, s.scan[0].notify)
  {
    var t := Post(s, OpenDir(true));
    ChildIsListed(s.fs, p);
    assert t.scan[0] in t.scan;
  }

  lemma VisitEnters(s: State, p: Path, notify: bool)
    requires p != [] && Enabled(s, Visit(Last(p))) && Parent(p) == s.scan[0].dir && IsDir(s.fs, p)
    requires !Skipped(Last(p)) && (notify ==> s.scan[0].notify)
    ensures Entering(Post(s, Visit(Last(p))), p, notify)
  {
    var t := Post(s, Visit(Last(p)));
    Split(p);
    assert t.scan[0] in t.scan;
  }

  lemma HandleEnters(s: State, p: Path)
    requires Enabled(s, Handle) && s.hand == Some(p) && IsDir(s.fs, p)
    ensures Entering(Post(s, Handle), p, true)
  {
    var t := Post(s, Handle);
    assert t.scan[0] in t.scan;
  }

  lemma ScheduledKept(s: State, l: Step, p: Path)
    requires WellFormed(s) && Enabled(s, l) && Scheduled(s, p) && IsDir(s.fs, p) && p != [] && !Skipped(Last(p))
    ensures Attended(Post(s, l), p)
  {
    var t := Post(s, l);
    IndexKept(s, l);
    if Entering(s, p, false) {
      EnteringKept(s, l, p, false);
      if Opens(s, l, p, false) {
        assert s.scan[0] in s.scan;
      }
    } else if Listed(s, p, false) {
      ListedKept(s, l, p, false);
      if !Listed(t, p, false) {
        VisitEnters(s, p, false);
      }
    } else {
      EnteringKept(s, l, Parent(p), false);
      if Opens(s, l, Parent(p), false) && l.granted {
        OpenLists(s, p);
      }
    }
  }

  lemma AttendedKept(s: State, l: Step, d: Path)
    requires WellFormed(s) && Enabled(s, l) && IsDir(s.fs, d) && d != [] && !Skipped(Last(d)) && Attended(s, d)
    ensures Attended(Post(s, l), d)
  {
    IndexKept(s, l);
    if Scheduled(s, d) {
      ScheduledKept(s, l, d);
    } else if Named(s, d) {
      NamedKept(s, l, d);
      if l.Handle? && s.hand == Some(d) {
        HandleEnters(s, d);
        assert Entering(Post(s, l), d, false);
      }
    }
  }

  /** The two ways a directory can come under the promise: its parent gets watched, or it is created. */
  lemma NewlyPromised(s: State, l: Step, d: Path)
    requires WellFormed(s) && Enabled(s, l)
    requires IsDir(Post(s, l).fs, d) && d != [] && Parent(d) in Post(s, l).index
    requires !IsDir(s.fs, d) || Parent(d) !in s.index
    ensures Attended(Post(s, l), d)
  {
    var t := Post(s, l);
    if l.Add? {
      assert t.scan[0] in t.scan && t.scan[0].dir == Parent(d) && !t.scan[0].stage.Open?;
      assert Entering(t, Parent(d), false);
    } else {
      IndexSame(s, l);
      assert l.Create? && l.path == d;
      assert t.queue[|t.queue| - 1] == Event(s.kernel[Parent(d)], Last(d));
    }
  }

  /** A directory about to be entered still is after the step, or this step opens it, and then it is watched or refused. */
  lemma EnteringPays(s: State, l: Step, p: Path, notify: bool)
    requires WellFormed(s) && Enabled(s, l) && Entering(s, p, notify)
    ensures Entering(Post(s, l), p, notify) || p in Post(s, l).index || p in Post(s, l).failed
  {
    EnteringKept(s, l, p, notify);
    IndexKept(s, l);
    FailedGrows(s, l);
    if Opens(s, l, p, notify) {
      assert s.scan[0] in s.scan && FrameOk(s, s.scan[0]);
    }
  }

  lemma RootStarts(s: State, l: Step, r: Path)
    requires Enabled(s, l) && r in Post(s, l).roots && r !in s.roots
    ensures Entering(Post(s, l), r, false)
  {
    var t := Post(s, l);
    assert t.scan[0] in t.scan && t.scan[0].dir == r;
  }

  lemma RootsKept(s: State, l: Step, r: Path)
    requires Inv(s) && Enabled(s, l) && r in Post(s, l).roots
    ensures r in Post(s, l).index || Entering(Post(s, l), r, false) || r in Post(s, l).failed
  {
    if r !in s.roots {
      RootStarts(s, l, r);
    } else if Entering(s, r, false) {
      EnteringPays(s, l, r, false);
    } else {
      IndexKept(s, l);
      FailedGrows(s, l);
    }
  }

  lemma AllAttendedKept(s: State, l: Step)
    requires Inv(s) && Enabled(s, l)
    ensures AllAttended(Post(s, l))
  {
    var t := Post(s, l);
    forall d | IsDir(t.fs, d) && d != [] && !Skipped(Last(d)) && Parent(d) in t.index ensures Attended(t, d) {
      if IsDir(s.fs, d) && Parent(d) in s.index {
        AttendedKept(s, l, d);
      } else {
        NewlyPromised(s, l, d);
      }
    }
    forall r | r in t.roots ensures r in t.index || Entering(t, r, false) || r in t.failed {
      RootsKept(s, l, r);
    }
  }

  // ---- what was created under a watch ----

  lemma BornKept(s: State, l: Step, p: Path)
    requires Inv(s) && Enabled(s, l) && p in s.born
    ensures p in Post(s, l).fs && BornAttended(Post(s, l), p)
  {
    IndexKept(s, l);
    AppendedKept(s, l);
    FailedGrows(s, l);
    if Named(s, p) {
      NamedKept(s, l, p);
      if l.Handle? && s.hand == Some(p) && IsDir(s.fs, p) { HandleEnters(s, p); }
    } else if Entering(s, p, true) {
      EnteringPays(s, l, p, true);
    }
  }

  lemma NewlyBorn(s: State, p: Path, kind: Kind)
    requires s.index == s.kernel && Enabled(s, Create(p, kind)) && Parent(p) in s.kernel
    ensures Named(AfterCreate(s, p, kind), p)
  {
    var t := AfterCreate(s, p, kind);
    assert t.queue[|t.queue| - 1] == Event(s.kernel[Parent(p)], Last(p));
  }

  lemma AllBornAttendedKept(s: State, l: Step)
    requires Inv(s) && Enabled(s, l) && WellFormed(Post(s, l))
    ensures AllBornAttended(Post(s, l))
  {
    var t := Post(s, l);
    BornGrows(s, l);
    forall p | p in t.born ensures BornAttended(t, p) {
      if p in s.born {
        BornKept(s, l, p);
      } else {
        NewlyBorn(s, p, l.kind);
      }
    }
  }

  lemma CalledKept(s: State, l: Step, p: Path)
    requires Enabled(s, l) && Called(s, p)
    ensures Called(Post(s, l), p)
  {
    BornGrows(s, l);
    RootsGrow(s, l);
  }

  /** A directory comes onto the stack when it is asked for, named by an event, or met by the scan under no skipped name. */
  lemma NewFrameCalled(s: State, l: Step, f: Frame)
    requires Inv(s) && Enabled(s, l) && f in Post(s, l).scan && f !in s.scan
    ensures Called(Post(s, l), f.dir)
  {
    NewFrame(s, l, f);
    BornGrows(s, l);
    RootsGrow(s, l);
    if !Enters(s, l, f.dir) {
      CalledKept(s, l, f.dir);
    }
  }

  lemma NewIndexCalled(s: State, l: Step, p: Path)
    requires Inv(s) && Enabled(s, l) && p in Post(s, l).index && p !in s.index
    ensures Called(Post(s, l), p)
  {
    if l.Add? {
      assert s.scan[0] in s.scan;
      CalledKept(s, l, p);
    } else {
      IndexSame(s, l);
    }
  }

  lemma AllCalledKept(s: State, l: Step)
    requires Inv(s) && Enabled(s, l)
    ensures AllCalled(Post(s, l))
  {
    var t := Post(s, l);
    forall p | p in t.index ensures Called(t, p) {
      if p in s.index { CalledKept(s, l, p); } else { NewIndexCalled(s, l, p); }
    }
    forall f | f in t.scan ensures Called(t, f.dir) {
      if f in s.scan { CalledKept(s, l, f.dir); } else { NewFrameCalled(s, l, f); }
    }
  }

  lemma InvKept(s: State, l: Step)
    requires Inv(s) && Enabled(s, l)
    ensures Inv(Post(s, l))
  {
    WellFormedKept(s, l);
    AllAttendedKept(s, l);
    AllBornAttendedKept(s, l);
    AllCalledKept(s, l);
  }

  lemma {:induction false} InvAlways(s: State, ls: seq<Step>, end: State)
    requires Inv(s) && Run(s, ls, end)
    ensures Inv(end)
    decreases |ls|
  {
    if ls != [] {
      InvKept(s, ls[0]);
      InvAlways(Post(s, ls[0]), ls[1..], end);
    }
  }
}
