/**
 Making room for a socket file: `mkpath` removes what stands at the path, or makes the directories above it.

 Paths are C strings with any number of slashes. A component is what stands between slashes; the empty ones and "."
 name nothing new. Symbolic links and ".." are not modelled.
 */
module SocketPath {
  import opened Paths

  datatype Kind = Dir | Other

  type FileSystem = map<Path, Kind>

  // ---- strings to components ----

  datatype Cut = Cut(done: seq<Name>, cur: Name)

  /** The components finished by a slash, and the one under way at the end of the string. */
  function Split(s: string): Cut {
    if s == "" then Cut([], "") else
    var c := Split(s[..|s| - 1]);
    var ch := s[|s| - 1];
    if ch != '/' then Cut(c.done, c.cur + [ch])
    else if c.cur == "" then c
    else Cut(c.done + [c.cur], "")
  }

  function Raw(s: string): seq<Name> {
    var c := Split(s);
    if c.cur == "" then c.done else c.done + [c.cur]
  }

  function DropDots(names: seq<Name>): Path {
    if names == [] then [] else
    DropDots(names[..|names| - 1]) + if names[|names| - 1] == "." then [] else [names[|names| - 1]]
  }

  /** The place a string names. */
  function Comps(s: string): Path {
    DropDots(Raw(s))
  }

  lemma DropDotsSnoc(names: seq<Name>, n: Name)
    ensures DropDots(names + [n]) == DropDots(names) + if n == "." then [] else [n]
  {
    assert (names + [n])[..|names|] == names;
  }

  lemma SplitSnoc(s: string, ch: char)
    ensures var c := Split(s);
      Split(s + [ch]) ==
        if ch != '/' then Cut(c.done, c.cur + [ch]) else if c.cur == "" then c else Cut(c.done + [c.cur], "")
  {
    assert (s + [ch])[..|s|] == s;
  }

  lemma {:induction false} SplitName(s: string, n: string)
    requires '/' !in n
    ensures Split(s + n) == Cut(Split(s).done, Split(s).cur + n)
    decreases |n|
  {
    if n == "" {
      assert s + n == s;
    } else {
      var k := |n| - 1;
      assert n[k] in n && s + n == s + n[..k] + [n[k]];
      SplitName(s, n[..k]);
      SplitSnoc(s + n[..k], n[k]);
      assert Split(s).cur + n[..k] + [n[k]] == Split(s).cur + n;
    }
  }

  /** The components, for every spelling: a name, a name after a slash, and slashes that add nothing. */
  lemma RawIs(s: string, n: string)
    requires n != "" && '/' !in n
    ensures Raw("") == [] && Raw(n) == [n]
    ensures Raw(s + "/") == Raw(s)
    ensures Raw(s + "/" + n) == Raw(s) + [n]
  {
    SplitName("", n);
    assert "" + n == n;
    SplitSnoc(s, '/');
    SplitName(s + "/", n);
    assert Split(s + "/").cur + n == n;
  }

  /** Of a place, "." names nothing new. */
  lemma CompsIs(s: string, n: string)
    requires n != "" && '/' !in n
    ensures Comps("") == [] && Comps(s + "/") == Comps(s)
    ensures Comps(s + "/" + n) == Comps(s) + if n == "." then [] else [n]
  {
    RawIs(s, n);
    DropDotsSnoc(Raw(s), n);
  }

  // ---- dirname(3) ----

  function StripSlashes(s: string): (r: string)
    ensures r != "" ==> r[|r| - 1] != '/'
  {
    if s != "" && s[|s| - 1] == '/' then StripSlashes(s[..|s| - 1]) else s
  }

  function DropName(s: string): (r: string)
    ensures r != "" ==> r[|r| - 1] == '/'
  {
    if s != "" && s[|s| - 1] != '/' then DropName(s[..|s| - 1]) else s
  }

  function Dirname(s: string): (r: string)
    ensures r != ""
  {
    var t := StripSlashes(s);
    var u := DropName(t);
    if t == "" then "/"
    else if u == "" then "."
    else if StripSlashes(u) == "" then "/"
    else StripSlashes(u)
  }

  lemma {:induction false} StripKeepsRaw(s: string)
    ensures Raw(StripSlashes(s)) == Raw(s)
  {
    if s != "" && s[|s| - 1] == '/' {
      StripKeepsRaw(s[..|s| - 1]);
    }
  }

  lemma {:induction false} DropNameKeepsDone(s: string)
    ensures Split(DropName(s)) == Cut(Split(s).done, "")
  {
    if s != "" && s[|s| - 1] != '/' {
      DropNameKeepsDone(s[..|s| - 1]);
    } else if s != "" {
      assert Split(s).cur == "";
    }
  }

  /** dirname takes the last component away, whatever the slashes; without one it stays at the top. */
  lemma DirnameIsParent(s: string)
    requires Raw(s) != []
    ensures Raw(s)[|Raw(s)| - 1] != "." ==> Comps(Dirname(s)) == Parent(Comps(s)) && Comps(s) != []
  {
    var t := StripSlashes(s);
    StripKeepsRaw(s);
    assert t != "";
    var c := Split(t);
    assert c.cur != "";
    DropNameKeepsDone(t);
    var u := DropName(t);
    StripKeepsRaw(u);
    DropDotsSnoc(c.done, c.cur);
    assert Raw(u) == c.done;
    assert Comps("/") == [] && Comps(".") == [] by {
      assert Split("/") == Cut([], "") by { assert "/"[..0] == ""; }
      assert Split(".") == Cut([], ".") by { assert "."[..0] == ""; }
      assert DropDots(["."]) == [] by { assert ["."][..0] == []; }
    }
    assert Comps(Dirname(s)) == DropDots(c.done);
  }

  // ---- the file system ----

  predicate IsDir(fs: FileSystem, p: Path) {
    p == [] || (p in fs && fs[p].Dir?)
  }

  predicate Exists(fs: FileSystem, p: Path) {
    p == [] || p in fs
  }

  /** Everything stands in a directory; the top is there without an entry. */
  ghost predicate Tree(fs: FileSystem) {
    [] !in fs && forall p | p in fs :: IsDir(fs, Parent(p))
  }

  /** stat or access on a string: a trailing slash asks for a directory. */
  predicate Found(fs: FileSystem, s: string) {
    Exists(fs, Comps(s)) && (s != "" && s[|s| - 1] == '/' ==> IsDir(fs, Comps(s)))
  }

  function Mkdir(fs: FileSystem, s: string): FileSystem {
    var p := Comps(s);
    if p != [] && p !in fs && IsDir(fs, Parent(p)) then fs[p := Dir] else fs
  }

  predicate Empty(fs: FileSystem, p: Path) {
    forall q | q in fs :: p < q ==> false
  }

  /** remove(3): a file, or a directory without entries. */
  function Remove(fs: FileSystem, s: string): FileSystem {
    var p := Comps(s);
    if p in fs && Found(fs, s) && Empty(fs, p) then fs - {p} else fs
  }

  /** Some step of the way down to `p` is not a directory. */
  ghost predicate Blocked(fs: FileSystem, p: Path) {
    exists k :: 0 < k <= |p| && p[..k] in fs && !fs[p[..k]].Dir?
  }

  ghost predicate AllDirs(fs: FileSystem, p: Path) {
    forall k | 0 <= k <= |p| :: IsDir(fs, p[..k])
  }

  /** `fs` with the missing directories down to `p`. */
  ghost function WithDirs(fs: FileSystem, p: Path): FileSystem {
    map q | q in fs.Keys + (set k | 0 < k <= |p| :: p[..k]) :: if q in fs then fs[q] else Dir
  }

  lemma {:induction false} TreeHasAncestors(fs: FileSystem, p: Path, k: nat)
    requires Tree(fs) && Exists(fs, p) && k < |p|
    ensures IsDir(fs, p[..k])
    decreases |p|
  {
    if k < |p| - 1 {
      assert p[..k] == Parent(p)[..k];
      TreeHasAncestors(fs, Parent(p), k);
    }
  }

  lemma DirsAreThere(fs: FileSystem, p: Path)
    requires AllDirs(fs, p) && [] !in fs
    ensures WithDirs(fs, p) == fs && !Blocked(fs, p)
  {
    forall k | 0 < k <= |p| ensures p[..k] in fs {
      assert IsDir(fs, p[..k]);
    }
  }

  lemma BlockedBelow(fs: FileSystem, p: Path, q: Path)
    requires Blocked(fs, p) && p <= q
    ensures Blocked(fs, q)
  {
    var k :| 0 < k <= |p| && p[..k] in fs && !fs[p[..k]].Dir?;
    assert q[..k] == p[..k];
  }

  lemma NotAllDirsWhenBlocked(fs: FileSystem, p: Path)
    requires Blocked(fs, p)
    ensures !AllDirs(fs, p)
  {
    var k :| 0 < k <= |p| && p[..k] in fs && !fs[p[..k]].Dir?;
    assert !IsDir(fs, p[..k]);
  }

  /** One level further: what a mkdir, or finding the entry, does to the missing directories. */
  lemma WithDirsSnoc(fs: FileSystem, p: Path, n: Name)
    requires Tree(fs) && !Blocked(fs, p + [n])
    ensures !Blocked(fs, p)
    ensures var q := p + [n]; var part := WithDirs(fs, p);
      WithDirs(fs, q) == (if q in part then part else part[q := Dir])
    ensures Tree(WithDirs(fs, p)) && AllDirs(WithDirs(fs, p), p)
  {
    if Blocked(fs, p) { BlockedBelow(fs, p, p + [n]); }
    OneMoreDir(fs, p, n);
    WithDirsIsTree(fs, p);
  }

  lemma OneMoreDir(fs: FileSystem, p: Path, n: Name)
    ensures var q := p + [n]; var part := WithDirs(fs, p);
      WithDirs(fs, q) == (if q in part then part else part[q := Dir])
  {
    var q := p + [n];
    var below := set k | 0 < k <= |p| :: p[..k];
    var upTo := set k | 0 < k <= |q| :: q[..k];
    assert q[..|q|] == q;
    assert forall k | 0 < k <= |p| :: q[..k] == p[..k];
    assert upTo == below + {q};
  }

  lemma WithDirsIsTree(fs: FileSystem, p: Path)
    requires Tree(fs) && !Blocked(fs, p)
    ensures Tree(WithDirs(fs, p)) && AllDirs(WithDirs(fs, p), p)
  {
    var r := WithDirs(fs, p);
    forall k | 0 <= k <= |p| ensures IsDir(r, p[..k]) {
    }
    forall q | q in r ensures q != [] && IsDir(r, Parent(q)) {
      if q in fs {
        assert IsDir(fs, Parent(q));
      } else {
        var k :| 0 < k <= |p| && q == p[..k];
        assert Parent(q) == p[..k - 1];
      }
    }
  }

  /** Whatever stands at or above a place on the way to `d`, the way down to it is clear of files. */
  lemma DirHasClearWay(fs: FileSystem, d: Path, j: nat, m: nat)
    requires Tree(fs) && j <= |d| && Exists(fs, d[..j]) && m < j
    ensures IsDir(fs, d[..m])
  {
    assert d[..j][..m] == d[..m];
    TreeHasAncestors(fs, d[..j], m);
  }

  /** Past a non-directory nothing can be made. */
  lemma BlockedStops(fs: FileSystem, d: Path, k: nat)
    requires Tree(fs) && Blocked(fs, d) && 0 < k <= |d| && d[..k] !in fs
    ensures !IsDir(fs, d[..k - 1])
  {
    var m :| 0 < m <= |d| && d[..m] in fs && !fs[d[..m]].Dir?;
    StopsAt(fs, d, k, m);
  }

  lemma StopsAt(fs: FileSystem, d: Path, k: nat, m: nat)
    requires Tree(fs) && 0 < k <= |d| && 0 < m <= |d|
    requires d[..k] !in fs && d[..m] in fs && !fs[d[..m]].Dir?
    ensures !IsDir(fs, d[..k - 1])
  {
    if k < m {
      DirHasClearWay(fs, d, m, k);
    } else if m < k - 1 && IsDir(fs, d[..k - 1]) {
      DirHasClearWay(fs, d, k - 1, m);
    }
  }

  /** What mkdir_recursively has done when it has come down to `p` on the way to `d`. */
  ghost function Made(fs: FileSystem, d: Path, p: Path): FileSystem {
    if Blocked(fs, d) then fs else WithDirs(fs, p)
  }

  /** A mkdir or an entry that is there leads one level further, and a mkdir finds its parent made. */
  lemma MadeStep(fs: FileSystem, d: Path, p: Path, s: string)
    requires Tree(fs) && p <= Comps(s) <= d && |Comps(s)| <= |p| + 1
    ensures var now := Made(fs, d, p);
      && Mkdir(now, s) == Made(fs, d, Comps(s))
      && (Found(now, s) ==> now == Made(fs, d, Comps(s)))
      && (!Blocked(fs, d) && Comps(s) != [] ==> IsDir(now, Parent(Comps(s))))
  {
    var q := Comps(s);
    var now := Made(fs, d, p);
    if Blocked(fs, d) {
      if q != [] && q !in fs {
        assert d[..|q|] == q && d[..|q| - 1] == Parent(q);
        BlockedStops(fs, d, |q|);
      }
    } else {
      if Blocked(fs, q) { BlockedBelow(fs, q, d); }
      if q != p {
        assert q == p + [Last(q)];
        WithDirsSnoc(fs, p, Last(q));
        assert p[..|p|] == p;
      } else {
        WithDirsIsTree(fs, p);
        assert p[..|p|] == p;
      }
    }
  }

  lemma {:induction false} DoneIsPrefix(s: string, i: nat)
    requires i <= |s|
    ensures Split(s[..i]).done <= Raw(s)
    decreases |s| - i
  {
    if i < |s| {
      assert s[..i + 1][..i] == s[..i];
      DoneIsPrefix(s, i + 1);
    } else {
      assert s[..i] == s;
    }
  }

  lemma {:induction false} DropDotsPrefix(a: seq<Name>, b: seq<Name>)
    requires a <= b
    ensures DropDots(a) <= DropDots(b)
    decreases |b|
  {
    if a != b {
      assert a <= b[..|b| - 1];
      DropDotsPrefix(a, b[..|b| - 1]);
    }
  }

  /** The prefix before the character at `i`, as the loop uses it. */
  lemma PrefixComps(s: string, i: nat)
    requires i < |s|
    ensures var c := Split(s[..i]);
      && Comps(s[..i]) == DropDots(c.done) + (if c.cur == "" || c.cur == "." then [] else [c.cur])
      && (s[i] == '/' ==> DropDots(Split(s[..i + 1]).done) == Comps(s[..i]) <= Comps(s))
      && (s[i] != '/' ==> Split(s[..i + 1]).done == c.done)
  {
    var c := Split(s[..i]);
    assert s[..i + 1][..i] == s[..i];
    DropDotsSnoc(c.done, c.cur);
    if s[i] == '/' {
      DoneIsPrefix(s, i + 1);
      DropDotsPrefix(Split(s[..i + 1]).done, Raw(s));
    }
  }

  /** The loop of mkdir_recursively before the character at `i`. */
  ghost function MadeAt(fs: FileSystem, s: string, i: nat): FileSystem
    requires i <= |s|
  {
    Made(fs, Comps(s), DropDots(Split(s[..i]).done))
  }

  lemma AlreadyMade(fs: FileSystem, d: Path)
    requires Tree(fs) && IsDir(fs, d)
    ensures Made(fs, d, d) == fs
  {
    forall k | 0 <= k <= |d| ensures IsDir(fs, d[..k]) {
      if k < |d| { TreeHasAncestors(fs, d, k); } else { assert d[..k] == d; }
    }
    DirsAreThere(fs, d);
  }

  /** The first character is skipped: a slash there has no component before it. */
  lemma LoopStart(fs: FileSystem, s: string)
    requires s != ""
    ensures MadeAt(fs, s, 1) == fs
  {
    assert s[..1][..0] == "";
    assert Split(s[..1]).done == [];
    assert WithDirs(fs, []) == fs;
  }

  lemma LoopStep(fs: FileSystem, s: string, i: nat)
    requires Tree(fs) && 0 < i < |s|
    ensures var now := MadeAt(fs, s, i);
      && (s[i] != '/' ==> MadeAt(fs, s, i + 1) == now)
      && (s[i] == '/' ==> Mkdir(now, s[..i]) == MadeAt(fs, s, i + 1))
      && (s[i] == '/' && Found(now, s[..i]) ==> now == MadeAt(fs, s, i + 1))
  {
    PrefixComps(s, i);
    if s[i] == '/' {
      MadeStep(fs, Comps(s), DropDots(Split(s[..i]).done), s[..i]);
    }
  }

  lemma LoopEnd(fs: FileSystem, s: string)
    requires Tree(fs)
    ensures Mkdir(MadeAt(fs, s, |s|), s) == Made(fs, Comps(s), Comps(s))
  {
    assert s[..|s|] == s;
    DropDotsSnoc(Split(s).done, Split(s).cur);
    MadeStep(fs, Comps(s), DropDots(Split(s).done), s);
  }

  ghost function AfterMkpath(fs: FileSystem, path: string): FileSystem {
    if path == "" then fs
    else if Found(fs, path) then Remove(fs, path)
    else Made(fs, Comps(Dirname(path)), Comps(Dirname(path)))
  }

  class UnixStream {
    var fs: FileSystem

    constructor (initial: FileSystem)
      ensures fs == initial
    {
      fs := initial;
    }

    /** Makes every missing directory down to the named one, unless a non-directory is in the way. */
    method MkdirRecursively(dirName: string)
      requires Tree(fs)
      modifies this
      ensures fs == Made(old(fs), Comps(dirName), Comps(dirName))
    {
      if dirName == "" {
        return;
      }
      if Found(fs, dirName) && IsDir(fs, Comps(dirName)) {
        AlreadyMade(fs, Comps(dirName));
        return;
      }
      var i := 1;
      LoopStart(fs, dirName);
      while i < |dirName|
        invariant 1 <= i <= |dirName|
        invariant fs == MadeAt(old(fs), dirName, i)
      {
        LoopStep(old(fs), dirName, i);
        if dirName[i] == '/' {
          var tmp := dirName[..i];
          if !Found(fs, tmp) {
            fs := Mkdir(fs, tmp);
          }
        }
        i := i + 1;
      }
      LoopEnd(old(fs), dirName);
      fs := Mkdir(fs, dirName);
    }

    /** What listen does before it binds; the empty path is left alone. */
    method Mkpath(path: string)
      requires Tree(fs)
      modifies this
      ensures fs == AfterMkpath(old(fs), path)
    {
      if path == "" {
        return;
      }
      if Found(fs, path) {
        fs := Remove(fs, path);
        return;
      }
      MkdirRecursively(Dirname(path));
    }
  }

  /** A path with a last component that a socket can be bound to. */
  predicate Bindable(path: string) {
    Raw(path) != [] && Raw(path)[|Raw(path)| - 1] != "."
  }

  /**
   After mkpath every ancestor is a directory exactly when no non-directory was in the way, and the place itself is
   free exactly when it was not a directory with entries, nor a file asked for with a trailing slash. Nothing else
   is removed, and all that is made are missing ancestors.
   */
  lemma MkpathPrepares(fs: FileSystem, path: string)
    requires Tree(fs) && Bindable(path)
    ensures var p := Comps(path); var r := AfterMkpath(fs, path);
      && p != []
      && Tree(r)
      && (AllDirs(r, Parent(p)) <==> !Blocked(fs, Parent(p)))
      && (p !in r <==> (p !in fs || (Found(fs, path) && Empty(fs, p))))
      && (forall q | q in fs && q != p :: q in r && r[q] == fs[q])
      && (forall q | q in r && q !in fs :: r[q].Dir? && q <= Parent(p))
  {
    DirnameIsParent(path);
    if Found(fs, path) {
      RemovePrepares(fs, path);
    } else {
      MakePrepares(fs, Comps(path));
    }
  }

  lemma RemovePrepares(fs: FileSystem, path: string)
    requires Tree(fs) && Comps(path) != [] && Found(fs, path)
    ensures var p := Comps(path); var r := Remove(fs, path);
      && Tree(r)
      && AllDirs(r, Parent(p)) && !Blocked(fs, Parent(p))
  {
    var p := Comps(path);
    var r := Remove(fs, path);
    forall k | 0 <= k <= |Parent(p)| ensures IsDir(fs, Parent(p)[..k]) && IsDir(r, Parent(p)[..k]) {
      TreeHasAncestors(fs, p, k);
      assert Parent(p)[..k] == p[..k] != p;
    }
    DirsAreThere(fs, Parent(p));
    forall q | q in r ensures IsDir(r, Parent(q)) {
      assert IsDir(fs, Parent(q));
      if Parent(q) == p { assert p < q; }
    }
  }

  lemma MakePrepares(fs: FileSystem, p: Path)
    requires Tree(fs) && p != []
    ensures var r := Made(fs, Parent(p), Parent(p));
      && Tree(r)
      && (AllDirs(r, Parent(p)) <==> !Blocked(fs, Parent(p)))
      && (p in r <==> p in fs)
      && (forall q | q in fs :: q in r && r[q] == fs[q])
      && (forall q | q in r && q !in fs :: r[q].Dir? && q <= Parent(p))
  {
    if Blocked(fs, Parent(p)) {
      NotAllDirsWhenBlocked(fs, Parent(p));
    } else {
      WithDirsIsTree(fs, Parent(p));
      assert forall k | 0 < k <= |Parent(p)| :: |Parent(p)[..k]| < |p|;
    }
  }
}
