/**
 What the inotify service watches and announces, exactly: not only that nothing is missed, but that nothing else is
 done. A file is announced for two reasons only, an announcing watch that somebody asked for above it, or a creation
 under a watch at it or above it; and the service cannot get stuck before it is quiet.
 */
module Exactness {
  import opened Base
  import opened Paths
  import opened Coverage
  import opened Covered
  import opened Trees

  /** At or above `p` lies a source, with no name in between that the scan skips. */
  ghost predicate Under(sources: set<Path>, p: Path) {
    exists k :: 0 <= k <= |p| && p[..k] in sources && Visible(p[..k], p)
  }

  /** The same, with nothing refused in between. */
  ghost predicate ClearlyUnder(s: State, sources: set<Path>, p: Path) {
    exists k :: 0 <= k <= |p| && p[..k] in sources && Visible(p[..k], p) && !FailedFrom(s, p[..k], p)
  }

  function Asks(l: Step): set<Path> {
    if l.Start? && l.notify then {l.path} else {}
  }

  /** The paths that an announcing watch was asked for in a run. */
  function AskedIn(ls: seq<Step>): set<Path> {
    if ls == [] then {} else Asks(ls[0]) + AskedIn(ls[1..])
  }

  lemma {:induction false} AskedInIff(ls: seq<Step>, r: Path)
    ensures r in AskedIn(ls) <==> Start(r, true) in ls
  {
    if ls != [] {
      AskedInIff(ls[1..], r);
      assert ls == [ls[0]] + ls[1..];
    }
  }

  /** Whatever is scanned, watched or announced has its reason. */
  ghost predicate Reasoned(s: State, asked: set<Path>) {
    && (forall f | f in s.scan :: Under(s.roots + s.born, f.dir) && (f.notify ==> Under(asked + s.born, f.dir)))
    && (forall p | p in s.index :: Under(s.roots + s.born, p))
    && (forall p | p in s.appended :: Under(asked + s.born, p))
  }

  /** Below every reason nothing visible is missing. */
  ghost predicate AllTrees(s: State, asked: set<Path>) {
    && (forall d | d in asked :: IsDir(s.fs, d) && TreeAttended(s, d))
    && (forall d | d in s.born && IsDir(s.fs, d) :: TreeAttended(s, d))
  }

  lemma UnderGrows(a: set<Path>, b: set<Path>, p: Path)
    requires Under(a, p) && a <= b
    ensures Under(b, p)
  {
    var k :| 0 <= k <= |p| && p[..k] in a && Visible(p[..k], p);
    assert p[..k] in b;
  }

  lemma UnderHere(sources: set<Path>, p: Path)
    requires p in sources
    ensures Under(sources, p)
  {
    assert p[..|p|] == p && Visible(p, p);
  }

  lemma UnderChild(sources: set<Path>, d: Path, name: Name)
    requires Under(sources, d) && !Skipped(name)
    ensures Under(sources, d + [name])
  {
    var k :| 0 <= k <= |d| && d[..k] in sources && Visible(d[..k], d);
    var p := d + [name];
    assert p[..k] == d[..k];
    assert Visible(p[..k], p);
  }

  lemma SourcesGrow(s: State, l: Step)
    requires Enabled(s, l)
    ensures s.roots <= Post(s, l).roots && s.born <= Post(s, l).born
  {
    RootsGrow(s, l);
    BornGrows(s, l);
  }

  /** The event at hand names something created under a watch. */
  predicate HandBorn(s: State) {
    s.hand.Some? ==> s.hand.value in s.born
  }

  // ---- every step keeps the reasons ----

  /** A new frame announces because it was asked to, because an event named it, or because the one around it does. */
  lemma NewFrameNotify(s: State, l: Step, f: Frame)
    requires Enabled(s, l) && f in Post(s, l).scan && f !in s.scan && f.notify
    ensures (l.Start? && l.notify) || l.Handle? || (s.scan != [] && s.scan[0].notify)
  {
    if l.Visit? {
      assert f in s.scan[1..] ==> f in s.scan;
    }
  }

  lemma NewFrameReasoned(s: State, l: Step, asked: set<Path>, f: Frame)
    requires HandBorn(s) && Enabled(s, l) && Reasoned(s, asked) && f in Post(s, l).scan && f !in s.scan
    ensures var t := Post(s, l);
      Under(t.roots + t.born, f.dir) && (f.notify ==> Under(asked + Asks(l) + t.born, f.dir))
  {
    var t := Post(s, l);
    SourcesGrow(s, l);
    NewFrame(s, l, f);
    if f.notify { NewFrameNotify(s, l, f); }
    if l.Start? {
      UnderHere(t.roots + t.born, f.dir);
      if f.notify { UnderHere(asked + Asks(l) + t.born, f.dir); }
    } else if l.Handle? {
      UnderHere(t.roots + t.born, f.dir);
      UnderHere(asked + Asks(l) + t.born, f.dir);
    } else {
      InnerFrameReasoned(s, l, asked, f.dir);
      UnderGrows(s.roots + s.born, t.roots + t.born, f.dir);
      if f.notify { UnderGrows(asked + s.born, asked + Asks(l) + t.born, f.dir); }
    }
  }

  /** The innermost frame's directory, or an entry of it that the scan enters. */
  lemma InnerFrameReasoned(s: State, l: Step, asked: set<Path>, p: Path)
    requires Enabled(s, l) && Reasoned(s, asked) && s.scan != []
    requires p == s.scan[0].dir || (l.Visit? && p == s.scan[0].dir + [l.name] && !Skipped(l.name))
    ensures Under(s.roots + s.born, p) && (s.scan[0].notify ==> Under(asked + s.born, p))
  {
    var f := s.scan[0];
    assert f in s.scan;
    if p != f.dir {
      UnderChild(s.roots + s.born, f.dir, l.name);
      if f.notify { UnderChild(asked + s.born, f.dir, l.name); }
    }
  }

  /** What a step appends: the file of the event at hand, or an entry of a directory that is scanned to announce. */
  lemma NewAppended(s: State, l: Step, p: Path)
    requires Enabled(s, l) && p in Post(s, l).appended && p !in s.appended
    ensures (l.Handle? && s.hand == Some(p)) ||
      (l.Visit? && s.scan != [] && s.scan[0].notify && p == s.scan[0].dir + [l.name] && !Skipped(l.name))
  {
  }

  lemma NewAppendedReasoned(s: State, l: Step, asked: set<Path>, p: Path)
    requires HandBorn(s) && Enabled(s, l) && Reasoned(s, asked) && p in Post(s, l).appended && p !in s.appended
    ensures Under(asked + Asks(l) + Post(s, l).born, p)
  {
    SourcesGrow(s, l);
    NewAppended(s, l, p);
    if l.Handle? {
      UnderHere(asked + Asks(l) + Post(s, l).born, p);
    } else {
      InnerFrameReasoned(s, l, asked, p);
      UnderGrows(asked + s.born, asked + Asks(l) + Post(s, l).born, p);
    }
  }

  lemma NewIndexReasoned(s: State, l: Step, asked: set<Path>, p: Path)
    requires HandBorn(s) && Enabled(s, l) && Reasoned(s, asked) && p in Post(s, l).index && p !in s.index
    ensures Under(Post(s, l).roots + Post(s, l).born, p)
  {
    SourcesGrow(s, l);
    if l.Add? {
      InnerFrameReasoned(s, l, asked, p);
      UnderGrows(s.roots + s.born, Post(s, l).roots + Post(s, l).born, p);
    } else {
      IndexSame(s, l);
    }
  }

  lemma ReasonedKept(s: State, l: Step, asked: set<Path>)
    requires HandBorn(s) && Enabled(s, l) && Reasoned(s, asked)
    ensures Reasoned(Post(s, l), asked + Asks(l))
  {
    var t := Post(s, l);
    SourcesGrow(s, l);
    forall f | f in t.scan
      ensures Under(t.roots + t.born, f.dir) && (f.notify ==> Under(asked + Asks(l) + t.born, f.dir))
    {
      if f in s.scan {
        UnderGrows(s.roots + s.born, t.roots + t.born, f.dir);
        if f.notify { UnderGrows(asked + s.born, asked + Asks(l) + t.born, f.dir); }
      } else {
        NewFrameReasoned(s, l, asked, f);
      }
    }
    forall p | p in t.index ensures Under(t.roots + t.born, p) {
      if p in s.index { UnderGrows(s.roots + s.born, t.roots + t.born, p); } else { NewIndexReasoned(s, l, asked, p); }
    }
    forall p | p in t.appended ensures Under(asked + Asks(l) + t.born, p) {
      if p in s.appended {
        UnderGrows(asked + s.born, asked + Asks(l) + t.born, p);
      } else {
        NewAppendedReasoned(s, l, asked, p);
      }
    }
  }

  lemma DueTreeAttended(s: State, d: Path)
    requires DueFrom(s, d, d)
    ensures TreeAttended(s, d)
  {
    forall p | p in s.fs && Visible(d, p) ensures DueFrom(s, d, p) {
      DueBelow(s, d, p);
    }
  }

  lemma NewAskedTree(s: State, l: Step, d: Path)
    requires Enabled(s, l) && d in Asks(l)
    ensures IsDir(Post(s, l).fs, d) && TreeAttended(Post(s, l), d)
  {
    var t := Post(s, l);
    assert t.scan[0] in t.scan && Entering(t, d, true);
    DueTreeAttended(t, d);
  }

  lemma NewBornTree(s: State, l: Step, d: Path)
    requires s.index == s.kernel && Enabled(s, l) && d in Post(s, l).born && d !in s.born
    ensures TreeAttended(Post(s, l), d)
  {
    BornGrows(s, l);
    NewlyBorn(s, d, l.kind);
    DueTreeAttended(Post(s, l), d);
  }

  lemma AllTreesKept(s: State, l: Step, asked: set<Path>)
    requires WellFormed(s) && Enabled(s, l) && AllTrees(s, asked)
    ensures AllTrees(Post(s, l), asked + Asks(l))
  {
    var t := Post(s, l);
    FsKept(s, l);
    forall d | d in asked + Asks(l) ensures IsDir(t.fs, d) && TreeAttended(t, d) {
      if d in asked { TreeAttendedKept(s, l, d); } else { NewAskedTree(s, l, d); }
    }
    forall d | d in t.born && IsDir(t.fs, d) ensures TreeAttended(t, d) {
      if d in s.born { TreeAttendedKept(s, l, d); } else { NewBornTree(s, l, d); }
    }
  }

  lemma {:induction false} ReasonsAlways(s: State, ls: seq<Step>, end: State, asked: set<Path>)
    requires Inv(s) && Reasoned(s, asked) && AllTrees(s, asked) && Run(s, ls, end)
    ensures Inv(end) && Reasoned(end, asked + AskedIn(ls)) && AllTrees(end, asked + AskedIn(ls))
    decreases |ls|
  {
    if ls == [] {
      assert asked + AskedIn(ls) == asked;
    } else {
      InvKept(s, ls[0]);
      ReasonedKept(s, ls[0], asked);
      AllTreesKept(s, ls[0], asked);
      ReasonsAlways(Post(s, ls[0]), ls[1..], end, asked + Asks(ls[0]));
      assert asked + Asks(ls[0]) + AskedIn(ls[1..]) == asked + AskedIn(ls);
    }
  }

  // ---- the main results ----

  lemma ReasonsFromInit(s: State, ls: seq<Step>, end: State)
    requires Init(s) && Run(s, ls, end)
    ensures Inv(end) && Reasoned(end, AskedIn(ls)) && AllTrees(end, AskedIn(ls))
  {
    ReasonsAlways(s, ls, end, {});
    assert {} + AskedIn(ls) == AskedIn(ls);
  }

  lemma {:induction false} AncestorsAreDirs(fs: map<Path, Kind>, p: Path, k: nat)
    requires Tree(fs) && p in fs && k < |p|
    ensures IsDir(fs, p[..k])
    decreases |p|
  {
    if k < |p| - 1 {
      assert p[..k] == Parent(p)[..k];
      AncestorsAreDirs(fs, Parent(p), k);
    }
  }

  lemma FailedHereToo(s: State, p: Path)
    ensures p in s.failed ==> FailedFrom(s, p, p)
  {
    if p in s.failed { FailedHere(s, p, p); }
  }

  /**
   Announced, exactly. In every reachable state an announced file qualifies and lies, across no skipped name, at or
   below a path that an announcing watch was asked for or something created under a watch. At a quiet end every such
   file is announced, unless a refusal in between cut it off.
   */
  lemma AnnouncedIff(s: State, ls: seq<Step>, end: State, p: Path)
    requires Init(s) && Run(s, ls, end)
    ensures p in end.appended ==> p in end.fs && end.fs[p] == File(true) && Under(AskedIn(ls) + end.born, p)
    ensures Quiet(end) && p in end.fs && end.fs[p] == File(true) && ClearlyUnder(end, AskedIn(ls) + end.born, p)
      ==> p in end.appended
  {
    ReasonsFromInit(s, ls, end);
    if Quiet(end) && p in end.fs && end.fs[p] == File(true) && ClearlyUnder(end, AskedIn(ls) + end.born, p) {
      ClearMeansDone(end, AskedIn(ls), p);
    }
  }

  /** Watched, exactly, in the same way: the reasons are the paths asked for, announcing or not, and what was created. */
  lemma WatchedIff(s: State, ls: seq<Step>, end: State, d: Path)
    requires Init(s) && Run(s, ls, end)
    ensures d in end.index ==> IsDir(end.fs, d) && Under(end.roots + end.born, d)
    ensures Quiet(end) && IsDir(end.fs, d) && ClearlyUnder(end, end.roots + end.born, d) ==> d in end.index
  {
    ReasonsFromInit(s, ls, end);
    if Quiet(end) && IsDir(end.fs, d) && ClearlyUnder(end, end.roots + end.born, d) {
      var k :| 0 <= k <= |d| && d[..k] in end.roots + end.born && Visible(d[..k], d) && !FailedFrom(end, d[..k], d);
      if d[..k] in end.roots {
        QuietMeansWatched(s, ls, end, d[..k], d);
      } else {
        assert ClearlyUnder(end, AskedIn(ls) + end.born, d);
        ClearMeansDone(end, AskedIn(ls), d);
      }
    }
  }

  /** What was asked for is what the run asked for. */
  lemma {:induction false} RootsAreAsked(s: State, ls: seq<Step>, end: State, r: Path)
    requires Run(s, ls, end)
    ensures r in end.roots <==> r in s.roots || Start(r, true) in ls || Start(r, false) in ls
    decreases |ls|
  {
    if ls != [] {
      assert ls == [ls[0]] + ls[1..];
      RootsAreAsked(Post(s, ls[0]), ls[1..], end, r);
      assert r in Post(s, ls[0]).roots <==> r in s.roots || (ls[0].Start? && ls[0].path == r);
    }
  }

  /** A refusal counts only when the system refused: without one, nothing is cut off. */
  lemma {:induction false} NothingRefused(s: State, ls: seq<Step>, end: State)
    requires Run(s, ls, end) && s.failed == {} && Add(false) !in ls && OpenDir(false) !in ls
    ensures end.failed == {}
    decreases |ls|
  {
    if ls != [] {
      assert ls == [ls[0]] + ls[1..];
      assert ls[0] in ls;
      GrantedStep(s, ls[0]);
      NothingRefused(Post(s, ls[0]), ls[1..], end);
    }
  }

  lemma GrantedStep(s: State, l: Step)
    requires Enabled(s, l) && l != Add(false) && l != OpenDir(false)
    ensures Post(s, l).failed == s.failed
  {
  }

  /** When the system refuses nothing, the quiet service has announced exactly what it had a reason for. */
  lemma GrantedAnnouncedIff(s: State, ls: seq<Step>, end: State, p: Path)
    requires Init(s) && Run(s, ls, end) && Quiet(end) && Add(false) !in ls && OpenDir(false) !in ls
    ensures p in end.appended <==> p in end.fs && end.fs[p] == File(true) && Under(AskedIn(ls) + end.born, p)
  {
    AnnouncedIff(s, ls, end, p);
    NothingRefused(s, ls, end);
    UnderIsClear(end, AskedIn(ls) + end.born, p);
  }

  lemma GrantedWatchedIff(s: State, ls: seq<Step>, end: State, d: Path)
    requires Init(s) && Run(s, ls, end) && Quiet(end) && Add(false) !in ls && OpenDir(false) !in ls
    ensures d in end.index <==> IsDir(end.fs, d) && Under(end.roots + end.born, d)
  {
    WatchedIff(s, ls, end, d);
    NothingRefused(s, ls, end);
    UnderIsClear(end, end.roots + end.born, d);
  }

  lemma UnderIsClear(s: State, sources: set<Path>, p: Path)
    requires s.failed == {}
    ensures Under(sources, p) ==> ClearlyUnder(s, sources, p)
  {
    if Under(sources, p) {
      var k :| 0 <= k <= |p| && p[..k] in sources && Visible(p[..k], p);
      assert !FailedFrom(s, p[..k], p);
    }
  }

  // ---- the service can always go on ----

  /** What a scan has still to visit is there. */
  ghost predicate TodoThere(s: State) {
    forall f, n | f in s.scan && n in f.todo :: f.dir + [n] in s.fs
  }

  lemma TodoThereKept(s: State, l: Step)
    requires Enabled(s, l) && TodoThere(s)
    ensures TodoThere(Post(s, l))
  {
    var t := Post(s, l);
    FsKept(s, l);
    forall f, n | f in t.scan && n in f.todo ensures f.dir + [n] in t.fs {
      if f !in s.scan { NewFrameTodo(s, l, f, n); }
    }
  }

  lemma NewFrameTodo(s: State, l: Step, f: Frame, n: Name)
    requires Enabled(s, l) && TodoThere(s) && f in Post(s, l).scan && f !in s.scan && n in f.todo
    ensures f.dir + [n] in s.fs
  {
    NewFrame(s, l, f);
    assert s.scan != [] && s.scan[0] in s.scan;
    if l.OpenDir? {
      var p :| p in s.fs && p != [] && Parent(p) == f.dir && Last(p) == n;
      Split(p);
    }
  }

  lemma {:induction false} TodoThereAlways(s: State, ls: seq<Step>, end: State)
    requires TodoThere(s) && Run(s, ls, end)
    ensures TodoThere(end)
    decreases |ls|
  {
    if ls != [] {
      TodoThereKept(s, ls[0]);
      TodoThereAlways(Post(s, ls[0]), ls[1..], end);
    }
  }

  /** In every reachable state that is not quiet the service itself has a step to take, whatever the world does. */
  lemma NeverStuck(s: State, ls: seq<Step>, end: State) returns (l: Step)
    requires Init(s) && Run(s, ls, end) && !Quiet(end)
    ensures Enabled(end, l) && !l.Create? && !l.Start?
  {
    InvAlways(s, ls, end);
    TodoThereAlways(s, ls, end);
    if end.scan == [] {
      l := if end.hand.Some? then Handle else Read;
    } else {
      var f := end.scan[0];
      assert f in end.scan;
      if f.stage.Entered? {
        l := Add(true);
      } else if f.stage.Watched? {
        l := OpenDir(true);
      } else if f.todo == {} {
        l := Close;
      } else {
        var n :| n in f.todo;
        l := Visit(n);
      }
    }
  }

  // ---- from the invariant to the results ----

  /** At a quiet end everything visible below a reason is done, unless a refusal in between cut it off. */
  lemma ClearMeansDone(end: State, asked: set<Path>, p: Path)
    requires Tree(end.fs) && AllTrees(end, asked) && Quiet(end)
    requires p in end.fs && (p in end.born ==> BornAttended(end, p)) && ClearlyUnder(end, asked + end.born, p)
    ensures Done(end, p)
  {
    var k :| 0 <= k <= |p| && p[..k] in asked + end.born && Visible(p[..k], p) && !FailedFrom(end, p[..k], p);
    var d := p[..k];
    QuietOwesOnlyFailures(end, d, p);
    if k < |p| {
      AncestorsAreDirs(end.fs, p, k);
      assert TreeAttended(end, d);
    } else {
      assert d == p;
      if d in asked { assert TreeAttended(end, d); } else { assert BornAttended(end, p); FailedHereToo(end, p); }
    }
  }
}
