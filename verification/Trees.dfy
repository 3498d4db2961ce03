/**
 Whole trees: what is owed below a directory stays owed, over every step of every thread, until it is done or a refusal
 cuts it off; so once all is quiet nothing is missing there.
 */
module Trees {
  import opened Base
  import opened Paths
  import opened Coverage
  import opened Covered

  predicate Done(s: State, p: Path)
    requires p in s.fs
  {
    match s.fs[p]
    case Dir => p in s.index
    case File(qualifies) => qualifies ==> p in s.appended
  }

  /** Every visible node below `d` is watched or announced, is owed an announcing visit, or was cut off by a refusal. */
  ghost predicate TreeAttended(s: State, d: Path) {
    forall p | p in s.fs && Visible(d, p) :: Done(s, p) || DueFrom(s, d, p) || FailedFrom(s, d, p)
  }

  lemma FailedKept(s: State, l: Step, d: Path, p: Path)
    requires Enabled(s, l) && FailedFrom(s, d, p)
    ensures FailedFrom(Post(s, l), d, p)
  {
    FailedGrows(s, l);
    var k :| |d| <= k <= |p| && p[..k] in s.failed;
    assert p[..k] in Post(s, l).failed;
  }

  lemma FailedBelow(s: State, d: Path, p: Path)
    requires p != [] && FailedFrom(s, d, Parent(p))
    ensures FailedFrom(s, d, p)
  {
    var k :| |d| <= k <= |Parent(p)| && Parent(p)[..k] in s.failed;
    assert p[..k] == Parent(p)[..k];
  }

  lemma FailedHere(s: State, d: Path, p: Path)
    requires p in s.failed && |d| <= |p|
    ensures FailedFrom(s, d, p)
  {
    assert p[..|p|] == p;
  }

  lemma VisibleParent(d: Path, p: Path)
    requires Visible(d, p) && |d| < |p|
    ensures Visible(d, Parent(p)) && !Skipped(Last(p))
  {
  }

  /** The visit of a file is paid by an append, if it qualifies. */
  ghost predicate PaidFile(s: State, l: Step, p: Path)
    requires Enabled(s, l)
  {
    p in s.fs && !IsDir(s.fs, p) && p in Post(s, l).fs && Done(Post(s, l), p)
  }

  /** An event owes a visit until it is handled: that turns into a scan or appends the file. */
  lemma NamedPays(s: State, l: Step, p: Path)
    requires WellFormed(s) && Enabled(s, l) && p in s.fs && Named(s, p)
    ensures Named(Post(s, l), p) || Entering(Post(s, l), p, true) || PaidFile(s, l, p)
  {
    NamedKept(s, l, p);
    if l.Handle? && s.hand == Some(p) && IsDir(s.fs, p) { HandleEnters(s, p); }
  }

  /** A listed name owes a visit until the announcing scan comes to it. */
  lemma ListedPays(s: State, l: Step, p: Path)
    requires WellFormed(s) && Enabled(s, l) && p in s.fs && Listed(s, p, true) && !Skipped(Last(p))
    ensures Listed(Post(s, l), p, true) || Entering(Post(s, l), p, true) || PaidFile(s, l, p)
  {
    ListedKept(s, l, p, true);
    if !Listed(Post(s, l), p, true) {
      if IsDir(s.fs, p) { VisitEnters(s, p, true); } else { Split(p); }
    }
  }

  /** A visit that is due stays due until the very step that pays it: the open of a directory, the append of a file. */
  lemma {:induction false} DueKept(s: State, l: Step, d: Path, p: Path)
    requires WellFormed(s) && Enabled(s, l) && p in s.fs && Visible(d, p) && DueFrom(s, d, p)
    ensures DueFrom(Post(s, l), d, p) || FailedFrom(Post(s, l), d, p) || PaidFile(s, l, p)
      || (Opens(s, l, p, true) && l.granted)
    decreases |p|
  {
    var t := Post(s, l);
    if Named(s, p) {
      NamedPays(s, l, p);
    } else if Entering(s, p, true) {
      EnteringKept(s, l, p, true);
      if Opens(s, l, p, true) && !l.granted { FailedHere(t, d, p); }
    } else {
      VisibleParent(d, p);
      if Listed(s, p, true) {
        ListedPays(s, l, p);
      } else {
        DueKept(s, l, d, Parent(p));
        DueBelowParent(s, l, d, p);
      }
    }
  }

  lemma DueBelowParent(s: State, l: Step, d: Path, p: Path)
    requires WellFormed(s) && Enabled(s, l) && p in s.fs && |d| < |p|
    requires DueFrom(Post(s, l), d, Parent(p)) || FailedFrom(Post(s, l), d, Parent(p))
      || (Opens(s, l, Parent(p), true) && l.granted)
    ensures DueFrom(Post(s, l), d, p) || FailedFrom(Post(s, l), d, p)
  {
    if FailedFrom(Post(s, l), d, Parent(p)) {
      FailedBelow(Post(s, l), d, p);
    } else if !DueFrom(Post(s, l), d, Parent(p)) {
      OpenLists(s, p);
    }
  }

  lemma OldNodeAttended(s: State, l: Step, d: Path, p: Path)
    requires WellFormed(s) && Enabled(s, l) && p in s.fs && Visible(d, p)
    requires Done(s, p) || DueFrom(s, d, p) || FailedFrom(s, d, p)
    ensures var t := Post(s, l); p in t.fs && (Done(t, p) || DueFrom(t, d, p) || FailedFrom(t, d, p))
  {
    var t := Post(s, l);
    IndexKept(s, l);
    AppendedKept(s, l);
    FailedGrows(s, l);
    if FailedFrom(s, d, p) {
      FailedKept(s, l, d, p);
    } else if !Done(s, p) {
      DueKept(s, l, d, p);
      if Opens(s, l, p, true) && p !in s.index {
        assert s.scan[0] in s.scan;
        FailedHere(t, d, p);
      }
    }
  }

  lemma NewNodeAttended(s: State, l: Step, d: Path, p: Path)
    requires WellFormed(s) && Enabled(s, l) && d in s.fs
    requires p != [] && Parent(p) in s.fs ==>
      Done(s, Parent(p)) || DueFrom(s, d, Parent(p)) || FailedFrom(s, d, Parent(p))
    requires p in Post(s, l).fs && p !in s.fs && Visible(d, p)
    ensures DueFrom(Post(s, l), d, p) || FailedFrom(Post(s, l), d, p)
  {
    assert l.Create? && l.path == p && d != p;
    VisibleParent(d, p);
    if Parent(p) in s.index {
      NewlyBorn(s, p, l.kind);
    } else if FailedFrom(s, d, Parent(p)) {
      FailedKept(s, l, d, Parent(p));
      FailedBelow(Post(s, l), d, p);
    } else {
      assert DueFrom(s, d, Parent(p));
      DueKept(s, l, d, Parent(p));
      if FailedFrom(Post(s, l), d, Parent(p)) { FailedBelow(Post(s, l), d, p); }
    }
  }

  /** Once a directory is named by an event or about to be entered, everything visible below it is owed. */
  lemma {:induction false} DueBelow(s: State, d: Path, p: Path)
    requires DueFrom(s, d, d) && d <= p
    ensures DueFrom(s, d, p)
    decreases |p|
  {
    if d != p { DueBelow(s, d, Parent(p)); }
  }

  // ---- the main results ----

  /** At a quiet end nothing visible below `d` is missing, unless a refusal between `d` and it cut it off. */
  ghost predicate Complete(s: State, d: Path) {
    forall p | p in s.fs && Visible(d, p) && !FailedFrom(s, d, p) :: Done(s, p)
  }

  /**
   Below a directory created under a watched parent, everything visible is watched or announced, at any depth and
   whenever it was made: before the directory's watch, before its scan, during the scan or later.
   */
  lemma NewTreeIsComplete(
    start: State, before: seq<Step>, mid: State, d: Path, after: seq<Step>, end: State)
    requires CreatedUnderWatch(start, before, mid, d, Dir, after, end)
    ensures Complete(end, d)
  {
    BornAtTheEnd(start, before, mid, d, Dir, after, end);
    InvAlways(start, before, mid);
    NewlyBorn(mid, d, Dir);
    QuietMeansComplete(Post(mid, Create(d, Dir)), after, end, d);
  }

  /** The special case of a file made directly in it: only a refusal of this very directory can keep it back. */
  lemma FileInNewDirectoryIsAnnounced(
    start: State, before: seq<Step>, mid: State, d: Path, after: seq<Step>, end: State, name: Name)
    requires CreatedUnderWatch(start, before, mid, d, Dir, after, end)
    requires !Skipped(name) && d + [name] in end.fs && end.fs[d + [name]] == File(true)
    ensures d in end.failed || d + [name] in end.appended
  {
    var p := d + [name];
    BornAtTheEnd(start, before, mid, d, Dir, after, end);
    NewTreeIsComplete(start, before, mid, d, after, end);
    assert Visible(d, p);
    if FailedFrom(end, d, p) { FailedAtOrBelow(end, d, name); }
  }

  lemma FailedAtOrBelow(s: State, d: Path, name: Name)
    requires FailedFrom(s, d, d + [name])
    ensures d in s.failed || d + [name] in s.failed
  {
    var p := d + [name];
    var k :| |d| <= k <= |p| && p[..k] in s.failed;
    assert p[..|d|] == d && p[..|p|] == p;
  }

  /** The same for a recursive watch that was asked to announce: old files and new ones, at any depth. */
  lemma AnnouncingScanIsComplete(
    start: State, before: seq<Step>, mid: State, r: Path, after: seq<Step>, end: State)
    requires Init(start) && Run(start, before, mid) && Enabled(mid, Start(r, true))
    requires Run(Post(mid, Start(r, true)), after, end) && Quiet(end)
    ensures Complete(end, r)
  {
    var t := Post(mid, Start(r, true));
    InvAlways(start, before, mid);
    InvKept(mid, Start(r, true));
    assert t.scan[0] in t.scan && Entering(t, r, true);
    QuietMeansComplete(t, after, end, r);
  }

  // ---- the invariant over steps and runs ----

  lemma TreeAttendedKept(s: State, l: Step, d: Path)
    requires WellFormed(s) && Enabled(s, l) && TreeAttended(s, d) && d in s.fs
    ensures TreeAttended(Post(s, l), d) && d in Post(s, l).fs
  {
    var t := Post(s, l);
    FsKept(s, l);
    forall p | p in t.fs && Visible(d, p) ensures Done(t, p) || DueFrom(t, d, p) || FailedFrom(t, d, p) {
      if p in s.fs {
        OldNodeAttended(s, l, d, p);
      } else {
        assert l.Create? && l.path == p && d != p;
        VisibleParent(d, p);
        NewNodeAttended(s, l, d, p);
      }
    }
  }

  lemma {:induction false} TreeAttendedAlways(s: State, ls: seq<Step>, end: State, d: Path)
    requires Inv(s) && Run(s, ls, end) && TreeAttended(s, d) && d in s.fs
    ensures Inv(end) && TreeAttended(end, d) && d in end.fs
    decreases |ls|
  {
    if ls != [] {
      InvKept(s, ls[0]);
      TreeAttendedKept(s, ls[0], d);
      TreeAttendedAlways(Post(s, ls[0]), ls[1..], end, d);
    }
  }

  lemma QuietMeansComplete(s: State, ls: seq<Step>, end: State, d: Path)
    requires Inv(s) && DueFrom(s, d, d) && d in s.fs && Run(s, ls, end) && Quiet(end)
    ensures Complete(end, d)
  {
    forall p | p in s.fs && Visible(d, p) ensures DueFrom(s, d, p) {
      DueBelow(s, d, p);
    }
    TreeAttendedAlways(s, ls, end, d);
    forall p | p in end.fs && Visible(d, p) ensures !DueFrom(end, d, p) {
      QuietOwesOnlyFailures(end, d, p);
    }
  }
}
