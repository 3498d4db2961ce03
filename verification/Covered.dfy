/**
 What the invariant of the service gives: no directory is missed in any reachable state, and once all is quiet what was
 asked for or created under a watch is watched or announced. Directories with skipped names are told exactly.
 */
module Covered {
  import opened Base
  import opened Paths
  import opened Coverage

  /** Some directory from the root down to `d` is still owed a visit, or could not be watched or opened. */
  ghost predicate OwedOnTheWay(s: State, r: Path, d: Path) {
    exists k :: |r| <= k <= |d| && (Scheduled(s, d[..k]) || Named(s, d[..k]) || d[..k] in s.failed)
  }

  /**
   In every reachable state, every visible directory under a root is watched, or it or a directory above it is
   still to be visited by the running scan, named by an unhandled create event, or one the system refused.
   */
  lemma EveryDirectoryCovered(s: State, ls: seq<Step>, end: State, r: Path, d: Path)
    requires Init(s) && Run(s, ls, end) && r in end.roots && IsDir(end.fs, d) && Visible(r, d)
    ensures (d in end.index && d in end.kernel) || OwedOnTheWay(end, r, d)
  {
    InvAlways(s, ls, end);
    CoveredBelow(end, r, d);
  }

  lemma {:induction false} CoveredBelow(s: State, r: Path, d: Path)
    requires Inv(s) && r in s.roots && IsDir(s.fs, d) && Visible(r, d)
    ensures d in s.index || OwedOnTheWay(s, r, d)
    decreases |d|
  {
    assert d[..|d|] == d;
    if d == r {
      if d !in s.index { assert Scheduled(s, d[..|d|]) || d[..|d|] in s.failed; }
    } else {
      var p := Parent(d);
      assert Last(d) == d[|d| - 1];
      CoveredBelow(s, r, p);
      if OwedOnTheWay(s, r, p) {
        var k :| |r| <= k <= |p| && (Scheduled(s, p[..k]) || Named(s, p[..k]) || p[..k] in s.failed);
        assert p[..k] == d[..k];
      } else {
        assert p in s.index && Attended(s, d);
        assert p == d[..|p|];
      }
    }
  }

  /** Nothing is under way: the queue is drained and no scan runs. */
  predicate Quiet(s: State) {
    s.queue == [] && s.hand.None? && s.scan == []
  }

  lemma QuietOwesOnlyFailures(s: State, d: Path, p: Path)
    requires Quiet(s)
    ensures !Scheduled(s, p) && !Named(s, p) && !Listed(s, p, true) && !DueFrom(s, d, p)
    decreases |p|
  {
    if p != [] { QuietOwesOnlyFailures(s, d, Parent(p)); }
  }

  /** Once all is quiet, every visible directory under a root is watched, up to refusals between the two. */
  lemma QuietMeansWatched(s: State, ls: seq<Step>, end: State, r: Path, d: Path)
    requires Init(s) && Run(s, ls, end) && r in end.roots && IsDir(end.fs, d) && Visible(r, d)
    requires Quiet(end) && !FailedFrom(end, r, d)
    ensures d in end.index && d in end.kernel && end.index[d] == end.kernel[d]
  {
    InvAlways(s, ls, end);
    EveryDirectoryCovered(s, ls, end, r, d);
    if OwedOnTheWay(end, r, d) {
      var k :| |r| <= k <= |d| && (Scheduled(end, d[..k]) || Named(end, d[..k]) || d[..k] in end.failed);
      QuietOwesOnlyFailures(end, r, d[..k]);
    }
  }

  /**
   One creation in the middle of a run: from `mid`, where the parent is watched, the node is made and the run goes
   on to a quiet end.
   */
  ghost predicate CreatedUnderWatch(
    start: State, before: seq<Step>, mid: State, p: Path, kind: Kind, after: seq<Step>, end: State)
  {
    && Init(start) && Run(start, before, mid) && Enabled(mid, Create(p, kind)) && Parent(p) in mid.kernel
    && Run(Post(mid, Create(p, kind)), after, end) && Quiet(end)
  }

  lemma {:induction false} HistoryGrows(s: State, ls: seq<Step>, end: State)
    requires Run(s, ls, end)
    ensures s.born <= end.born && forall p | p in s.fs :: p in end.fs && end.fs[p] == s.fs[p]
    decreases |ls|
  {
    if ls != [] {
      BornGrows(s, ls[0]);
      FsKept(s, ls[0]);
      HistoryGrows(Post(s, ls[0]), ls[1..], end);
    }
  }

  lemma BornAtTheEnd(
    start: State, before: seq<Step>, mid: State, p: Path, kind: Kind, after: seq<Step>, end: State)
    requires CreatedUnderWatch(start, before, mid, p, kind, after, end)
    ensures Inv(Post(mid, Create(p, kind))) && Inv(end)
    ensures p in end.born && p in end.fs && end.fs[p] == kind && BornAttended(end, p)
  {
    InvAlways(start, before, mid);
    InvKept(mid, Create(p, kind));
    InvAlways(Post(mid, Create(p, kind)), after, end);
    HistoryGrows(Post(mid, Create(p, kind)), after, end);
  }

  /** A qualifying file created under a watched parent is announced, whatever the system refused and whatever its name. */
  lemma FileUnderWatchIsAnnounced(
    start: State, before: seq<Step>, mid: State, p: Path, after: seq<Step>, end: State)
    requires CreatedUnderWatch(start, before, mid, p, File(true), after, end)
    ensures p in end.appended
  {
    BornAtTheEnd(start, before, mid, p, File(true), after, end);
    QuietOwesOnlyFailures(end, p, p);
  }

  /** A directory created under a watched parent, hidden or not, is watched, unless its own watch or open was refused. */
  lemma DirectoryUnderWatchIsWatched(
    start: State, before: seq<Step>, mid: State, d: Path, after: seq<Step>, end: State)
    requires CreatedUnderWatch(start, before, mid, d, Dir, after, end)
    ensures d in end.index || d in end.failed
  {
    BornAtTheEnd(start, before, mid, d, Dir, after, end);
    QuietOwesOnlyFailures(end, d, d);
  }

  /**
   Directories whose name the scan skips, exactly: at a quiet end, and short of a refusal, such a directory is
   watched iff somebody asked for it by name or it was created while its parent was watched.
   */
  lemma HiddenWatchedIff(s: State, ls: seq<Step>, end: State, d: Path)
    requires Init(s) && Run(s, ls, end) && Quiet(end)
    requires IsDir(end.fs, d) && d != [] && Skipped(Last(d)) && d !in end.failed
    ensures d in end.index <==> d in end.roots || d in end.born
  {
    InvAlways(s, ls, end);
    QuietOwesOnlyFailures(end, d, d);
    if d in end.roots { assert !Entering(end, d, false); }
    if d in end.born { assert BornAttended(end, d); }
  }

  /** A scan of a directory that holds nothing but one hidden directory, and its end. */
  function HiddenStart(name: Name): State {
    State(map[[] := Dir, [name] := Dir], map[], 1, [], map[], None, Free, [], [], {}, {}, {})
  }

  function HiddenScan(name: Name, stage: Stage, todo: set<Name>): State {
    HiddenStart(name).(owner := Main, scan := [Frame([], false, stage, todo)], roots := {[]},
      index := if stage.Entered? then map[] else map[[] := 1], kernel := if stage.Entered? then map[] else map[[] := 1],
      nextWd := if stage.Entered? then 1 else 2)
  }

  function HiddenEnd(name: Name): State {
    HiddenScan(name, Open, {}).(owner := Free, scan := [])
  }

  lemma HiddenVisit(name: Name)
    requires Skipped(name)
    ensures var s := HiddenScan(name, Open, {name}); Enabled(s, Visit(name)) && Post(s, Visit(name)) == HiddenScan(name, Open, {})
  {
    var s := HiddenScan(name, Open, {name});
    assert s.scan[0].dir + [name] == [name];
    assert Top(s, s.scan[0].(todo := {})) == HiddenScan(name, Open, {});
    assert s.scan[0].todo - {name} == {};
  }

  lemma HiddenOpens(name: Name)
    ensures var s := HiddenScan(name, Watched, {}); Enabled(s, OpenDir(true)) && Post(s, OpenDir(true)) == HiddenScan(name, Open, {name})
  {
    var s := HiddenScan(name, Watched, {});
    assert Last([name]) == name && Parent([name]) == [] && [name] in s.fs;
    assert Children(s.fs, []) == {name};
    assert Top(s, s.scan[0].(stage := Open, todo := {name})) == HiddenScan(name, Open, {name});
  }

  lemma HiddenEnters(name: Name)
    ensures Enabled(HiddenStart(name), Start([], false)) && Post(HiddenStart(name), Start([], false)) == HiddenScan(name, Entered, {})
    ensures var s := HiddenScan(name, Entered, {}); Enabled(s, Add(true)) && Post(s, Add(true)) == HiddenScan(name, Watched, {})
    ensures var s := HiddenScan(name, Open, {}); Enabled(s, Close) && Post(s, Close) == HiddenEnd(name)
  {
    assert HiddenScan(name, Entered, {}).scan[1..] == [];
    assert HiddenScan(name, Open, {}).scan[1..] == [];
  }

  lemma RunStep(s: State, l: Step, ls: seq<Step>, end: State)
    requires Enabled(s, l) && Run(Post(s, l), ls, end)
    ensures Run(s, [l] + ls, end)
  {
    assert ([l] + ls)[1..] == ls;
  }

  lemma HiddenTail(name: Name)
    requires Skipped(name)
    ensures Run(HiddenScan(name, Watched, {}), [OpenDir(true)] + ([Visit(name)] + [Close]), HiddenEnd(name))
  {
    HiddenEnters(name);
    HiddenOpens(name);
    HiddenVisit(name);
    assert [Close][1..] == [];
    assert Run(HiddenEnd(name), [], HiddenEnd(name));
    assert Run(HiddenScan(name, Open, {}), [Close], HiddenEnd(name));
    RunStep(HiddenScan(name, Open, {name}), Visit(name), [Close], HiddenEnd(name));
    RunStep(HiddenScan(name, Watched, {}), OpenDir(true), [Visit(name)] + [Close], HiddenEnd(name));
  }

  /** A run with such a directory: the scan meets it and leaves it unwatched, for good. */
  lemma HiddenDirectoryLeftOut(name: Name) returns (ls: seq<Step>)
    requires Skipped(name)
    ensures var start, end := HiddenStart(name), HiddenEnd(name);
      && Init(start) && Run(start, ls, end) && Quiet(end) && Visit(name) in ls
      && [] in end.roots && IsDir(end.fs, [name]) && end.failed == {}
      && [] in end.index && [name] !in end.index
  {
    HiddenEnters(name);
    HiddenTail(name);
    var tail := [OpenDir(true)] + ([Visit(name)] + [Close]);
    RunStep(HiddenScan(name, Entered, {}), Add(true), tail, HiddenEnd(name));
    RunStep(HiddenStart(name), Start([], false), [Add(true)] + tail, HiddenEnd(name));
    ls := [Start([], false)] + ([Add(true)] + tail);
    assert ls[3] == Visit(name);
  }

  /** Only what qualifies is ever announced, and nothing announced is taken back. */
  lemma OnlyQualifyingAnnounced(s: State, ls: seq<Step>, end: State, p: Path)
    requires Init(s) && Run(s, ls, end) && p in end.appended
    ensures p in end.fs && end.fs[p] == File(true)
  {
    InvAlways(s, ls, end);
  }
}
