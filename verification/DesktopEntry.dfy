/**
 Desktop files of Android apps: the generator writes one, and a language change rewrites the names in all of them.

 Texts are read line by line as QTextStream does, for texts without carriage returns; the format is the one of the
 Desktop Entry Specification, sections 3 and 5.
 */
module DesktopEntry {
  import opened Base

  datatype AppInfo = AppInfo(pkgName: string, appName: string, version: string)

  predicate OneLine(s: string) {
    '\n' !in s
  }

  function UpToNewline(s: string): (r: string)
    ensures OneLine(r) && r <= s
    ensures |r| < |s| ==> s[|r|] == '\n'
  {
    if s == "" || s[0] == '\n' then "" else [s[0]] + UpToNewline(s[1..])
  }

  /** The text after its first line and that line's newline, if it has one. */
  function AfterLine(s: string): (r: string)
    ensures s != "" ==> |r| < |s|
  {
    var n := |UpToNewline(s)|;
    if n < |s| then s[n + 1..] else ""
  }

  function Lines(s: string): (ls: seq<string>)
    ensures forall l | l in ls :: OneLine(l)
    decreases |s|
  {
    if s == "" then [] else [UpToNewline(s)] + Lines(AfterLine(s))
  }

  function Join(ls: seq<string>): string {
    if ls == [] then "" else ls[0] + "\n" + Join(ls[1..])
  }

  lemma {:induction false} LinesOfJoin(ls: seq<string>)
    requires forall l | l in ls :: OneLine(l)
    ensures Lines(Join(ls)) == ls
  {
    if ls != [] {
      FirstLine(ls[0], Join(ls[1..]));
      assert ls[0] + "\n" + Join(ls[1..]) == ls[0] + ("\n" + Join(ls[1..]));
      LinesOfJoin(ls[1..]);
    }
  }

  /** The lines of any text: up to each newline, and what is left at the end, if something is. */
  lemma LinesIs(l: string, rest: string)
    requires OneLine(l)
    ensures Lines("") == [] && Lines(l + ("\n" + rest)) == [l] + Lines(rest)
    ensures l != "" ==> Lines(l) == [l]
  {
    FirstLine(l, rest);
    WholeLine(l);
  }

  lemma {:induction false} WholeLine(l: string)
    requires OneLine(l)
    ensures UpToNewline(l) == l && AfterLine(l) == ""
  {
    if l != "" {
      assert l[0] in l;
      WholeLine(l[1..]);
    }
  }

  lemma {:induction false} FirstLine(l: string, rest: string)
    requires OneLine(l)
    ensures var s := l + ("\n" + rest); UpToNewline(s) == l && AfterLine(s) == rest
  {
    var s := l + ("\n" + rest);
    if l != "" {
      assert s[1..] == l[1..] + ("\n" + rest);
      FirstLine(l[1..], rest);
    }
  }

  // ---- the generator ----

  function Opening(): seq<string> {
    ["[Desktop Entry]",
     "Terminal=false",
     "Type=Application",
     "StartupNotify=false"]
  }

  function Middle(a: AppInfo): seq<string> {
    ["Keywords=Android;App;Apk",
     "Categories=Android;App;Apk",
     "X-GXDE-KMREAPP=true",
     "X-GXDE-KMRE-PKGNAME=" + a.pkgName]
  }

  function Naming(name: string): seq<string> {
    ["Name=" + name,
     "Name[zh_CN]=" + name,
     "Comment=" + name,
     "Comment[zh_CN]=" + name]
  }

  function After(a: AppInfo, home: string): seq<string> {
    ["Exec=/usr/bin/startapp " + a.pkgName + " " + a.version,
     "Icon=" + home + "/.local/share/icons/" + a.pkgName + ".svg"]
  }

  function EntryLines(a: AppInfo, home: string): seq<string> {
    Opening() + Middle(a) + Naming(a.appName) + After(a, home)
  }

  function Generate(a: AppInfo, home: string): string {
    Join(EntryLines(a, home))
  }

  function FileName(pkg: string): string {
    "gxme-" + pkg + ".desktop"
  }

  /** chop the suffix, remove the prefix. */
  function PkgOf(file: string): string
    requires |file| >= 13
  {
    file[..|file| - 8][5..]
  }

  lemma PkgOfFileName(pkg: string)
    ensures |FileName(pkg)| >= 13 && PkgOf(FileName(pkg)) == pkg
  {
  }

  // ---- the rewriter ----

  function RewriteLine(line: string, name: string): string {
    if "Name=" <= line then "Name=" + name
    else if "Name[zh_CN]=" <= line then "Name[zh_CN]=" + name
    else if "Comment=" <= line then "Comment=" + name
    else if "Comment[zh_CN]=" <= line then "Comment[zh_CN]=" + name
    else line
  }

  predicate NamesApp(line: string) {
    "Name=" <= line || "Name[zh_CN]=" <= line || "Comment=" <= line || "Comment[zh_CN]=" <= line
  }

  function RewriteLines(ls: seq<string>, name: string): (r: seq<string>)
    ensures |r| == |ls| && forall i | 0 <= i < |ls| :: r[i] == RewriteLine(ls[i], name)
  {
    seq(|ls|, i requires 0 <= i < |ls| => RewriteLine(ls[i], name))
  }

  function Update(text: string, name: string): string {
    Join(RewriteLines(Lines(text), name))
  }

  /** The later name wins on each line, and the line keeps its key. */
  lemma RewriteTwice(line: string, a: string, b: string)
    ensures RewriteLine(RewriteLine(line, a), b) == RewriteLine(line, b)
  {
    var r := RewriteLine(line, a);
    assert "Name=" <= line ==> r[4] == '=';
    if "Name[zh_CN]=" <= line && !("Name=" <= line) { assert r[4] == '['; }
    if "Comment=" <= line && !("Name=" <= line) && !("Name[zh_CN]=" <= line) { assert r[0] == 'C' && r[7] == '='; }
    if "Comment[zh_CN]=" <= line && !("Comment=" <= line) && !("Name=" <= line) && !("Name[zh_CN]=" <= line) {
      assert r[0] == 'C' && r[7] == '[';
    }
  }

  lemma RewriteKeepsOneLine(line: string, name: string)
    requires OneLine(line) && OneLine(name)
    ensures OneLine(RewriteLine(line, name))
  {
  }

  lemma LinesOfUpdate(text: string, name: string)
    requires OneLine(name)
    ensures Lines(Update(text, name)) == RewriteLines(Lines(text), name)
  {
    var ls := Lines(text);
    forall l | l in RewriteLines(ls, name) ensures OneLine(l) {
      var i :| 0 <= i < |ls| && RewriteLines(ls, name)[i] == l;
      assert ls[i] in ls;
      RewriteKeepsOneLine(ls[i], name);
    }
    LinesOfJoin(RewriteLines(ls, name));
  }

  /** On any text: a second update with the same name changes nothing, and with another name the last one wins. */
  lemma LastNameWins(text: string, a: string, b: string)
    requires OneLine(a)
    ensures Update(Update(text, a), b) == Update(text, b)
  {
    LinesOfUpdate(text, a);
    var ls := Lines(text);
    forall i | 0 <= i < |ls| ensures RewriteLine(RewriteLine(ls[i], a), b) == RewriteLine(ls[i], b) {
      RewriteTwice(ls[i], a, b);
    }
    assert RewriteLines(RewriteLines(ls, a), b) == RewriteLines(ls, b);
  }

  /** A line names the app before the rewriting iff it does afterwards. */
  lemma RewriteKeepsKey(line: string, name: string)
    ensures NamesApp(RewriteLine(line, name)) <==> NamesApp(line)
    ensures !NamesApp(line) ==> RewriteLine(line, name) == line
  {
    if "Name=" <= line { assert "Name=" <= "Name=" + name; }
    else if "Name[zh_CN]=" <= line { assert "Name[zh_CN]=" <= "Name[zh_CN]=" + name; }
    else if "Comment=" <= line { assert "Comment=" <= "Comment=" + name; }
    else if "Comment[zh_CN]=" <= line { assert "Comment[zh_CN]=" <= "Comment[zh_CN]=" + name; }
  }

  /** On any text: as many lines as before, and each that does not name the app is kept in its place. */
  lemma OtherLinesKept(text: string, name: string, i: nat)
    requires OneLine(name) && i < |Lines(text)|
    ensures |Lines(Update(text, name))| == |Lines(text)|
    ensures NamesApp(Lines(text)[i]) || Lines(Update(text, name))[i] == Lines(text)[i]
    ensures NamesApp(Lines(text)[i]) <==> NamesApp(Lines(Update(text, name))[i])
  {
    LinesOfUpdate(text, name);
    RewriteKeepsKey(Lines(text)[i], name);
    assert Lines(Update(text, name))[i] == RewriteLine(Lines(text)[i], name);
  }

  // ---- rewriting and generating commute ----

  lemma RewriteConcat(a: seq<string>, b: seq<string>, name: string)
    ensures RewriteLines(a + b, name) == RewriteLines(a, name) + RewriteLines(b, name)
  {
  }

  lemma NotNamed(l: string)
    requires l != "" && l[0] != 'N' && (l[0] == 'C' ==> |l| > 1 && l[1] != 'o')
    ensures !NamesApp(l)
  {
    assert "Name="[0] == 'N' && "Name[zh_CN]="[0] == 'N';
    assert "Comment="[0] == 'C' && "Comment="[1] == 'o' && "Comment[zh_CN]="[0] == 'C' && "Comment[zh_CN]="[1] == 'o';
  }

  lemma RewriteOpening(name: string)
    ensures RewriteLines(Opening(), name) == Opening()
  {
    NotNamed("[Desktop Entry]");
    NotNamed("Terminal=false");
    NotNamed("Type=Application");
    NotNamed("StartupNotify=false");
  }

  lemma RewriteMiddle(a: AppInfo, name: string)
    ensures RewriteLines(Middle(a), name) == Middle(a)
  {
    var pkg := "X-GXDE-KMRE-PKGNAME=" + a.pkgName;
    assert pkg[0] == 'X';
    NotNamed("Keywords=Android;App;Apk");
    NotNamed("Categories=Android;App;Apk");
    NotNamed("X-GXDE-KMREAPP=true");
    NotNamed(pkg);
  }

  lemma RewriteAfter(a: AppInfo, home: string, name: string)
    ensures RewriteLines(After(a, home), name) == After(a, home)
  {
    var exec := "Exec=/usr/bin/startapp " + a.pkgName + " " + a.version;
    var icon := "Icon=" + home + "/.local/share/icons/" + a.pkgName + ".svg";
    assert exec[0] == 'E' && icon[0] == 'I';
    NotNamed(exec);
    NotNamed(icon);
  }

  lemma RewriteNaming(old_: string, name: string)
    ensures RewriteLines(Naming(old_), name) == Naming(name)
  {
    assert ("Name[zh_CN]=" + old_)[4] == '[';
    assert ("Comment=" + old_)[0] == 'C' && ("Comment[zh_CN]=" + old_)[0] == 'C';
    assert ("Comment[zh_CN]=" + old_)[7] == '[';
    assert "Name=" <= "Name=" + old_ && "Name[zh_CN]=" <= "Name[zh_CN]=" + old_;
    assert "Comment=" <= "Comment=" + old_ && "Comment[zh_CN]=" <= "Comment[zh_CN]=" + old_;
  }

  lemma RewriteEntry(a: AppInfo, home: string, name: string)
    ensures RewriteLines(EntryLines(a, home), name) == EntryLines(a.(appName := name), home)
  {
    RewriteConcat(Opening() + Middle(a) + Naming(a.appName), After(a, home), name);
    RewriteConcat(Opening() + Middle(a), Naming(a.appName), name);
    RewriteConcat(Opening(), Middle(a), name);
    RewriteOpening(name);
    RewriteMiddle(a, name);
    RewriteNaming(a.appName, name);
    RewriteAfter(a, home, name);
  }

  function Newlines(s: string): nat {
    if s == "" then 0 else (if s[0] == '\n' then 1 else 0) + Newlines(s[1..])
  }

  function Total(ls: seq<string>): nat {
    if ls == [] then 0 else Newlines(ls[0]) + Total(ls[1..])
  }

  lemma {:induction false} NewlinesConcat(a: string, b: string)
    ensures Newlines(a + b) == Newlines(a) + Newlines(b)
  {
    if a == "" {
      assert a + b == b;
    } else {
      assert (a + b)[1..] == a[1..] + b;
      NewlinesConcat(a[1..], b);
    }
  }

  lemma {:induction false} NewlinesZero(s: string)
    ensures Newlines(s) == 0 <==> OneLine(s)
  {
    if s != "" {
      NewlinesZero(s[1..]);
      assert s == [s[0]] + s[1..];
    }
  }

  lemma {:induction false} NewlinesOfJoin(ls: seq<string>)
    ensures Newlines(Join(ls)) == |ls| + Total(ls)
  {
    if ls != [] {
      NewlinesOfJoin(ls[1..]);
      NewlinesConcat(ls[0] + "\n", Join(ls[1..]));
      NewlinesConcat(ls[0], "\n");
      assert Newlines("\n") == 1 by { assert "\n"[1..] == ""; }
    }
  }

  lemma {:induction false} TotalZero(ls: seq<string>)
    ensures Total(ls) == 0 <==> forall l | l in ls :: OneLine(l)
  {
    if ls != [] {
      TotalZero(ls[1..]);
      NewlinesZero(ls[0]);
      assert ls == [ls[0]] + ls[1..];
    }
  }

  /** A joined text has as many lines as newlines. */
  lemma {:induction false} LineCount(ls: seq<string>)
    ensures |Lines(Join(ls))| == Newlines(Join(ls))
  {
    JoinEndsLine(ls);
    CountLines(Join(ls));
  }

  lemma JoinEndsLine(ls: seq<string>)
    ensures var s := Join(ls); s != "" ==> s[|s| - 1] == '\n'
  {
    if ls != [] { JoinEndsLine(ls[1..]); }
  }

  lemma {:induction false} CountLines(s: string)
    requires s != "" ==> s[|s| - 1] == '\n'
    ensures |Lines(s)| == Newlines(s)
    decreases |s|
  {
    if s != "" {
      var l := UpToNewline(s);
      assert l != s by { assert s[|s| - 1] in s; }
      assert s == l + (['\n'] + AfterLine(s));
      NewlinesConcat(l, ['\n'] + AfterLine(s));
      NewlinesConcat(['\n'], AfterLine(s));
      assert Newlines(['\n']) == 1 by { assert ['\n'][1..] == []; }
      NewlinesZero(l);
      CountLines(AfterLine(s));
    }
  }

  /** Updating the text generated for one name gives exactly the text generated for the new name. */
  lemma RewriteCommutes(a: AppInfo, home: string, name: string)
    requires OneLine(a.pkgName) && OneLine(a.version) && OneLine(home) && OneLine(a.appName)
    ensures Update(Generate(a, home), name) == Generate(a.(appName := name), home)
  {
    EntryIsLines(a, home);
    LinesOfJoin(EntryLines(a, home));
    RewriteEntry(a, home, name);
  }

  /** And only then, whatever the new name: an old name that does not fit on its line leaves lines behind. */
  lemma RewriteCommutesIff(a: AppInfo, home: string, name: string)
    requires OneLine(a.pkgName) && OneLine(a.version) && OneLine(home)
    ensures Update(Generate(a, home), name) == Generate(a.(appName := name), home) <==> OneLine(a.appName)
  {
    if OneLine(a.appName) {
      RewriteCommutes(a, home, name);
    } else {
      UpdateHasMoreNewlines(a, home, name);
    }
  }

  /** What a line brings when each that names the app brings `n` newlines. */
  function Weight(line: string, n: nat): nat {
    if NamesApp(line) then n else 0
  }

  /** What the lines that name the app come to when each of them brings `n` newlines. */
  function NamedTotal(ls: seq<string>, n: nat): nat {
    if ls == [] then 0 else Weight(ls[0], n) + NamedTotal(ls[1..], n)
  }

  lemma NewlinesAfterKey(key: string, name: string)
    requires OneLine(key)
    ensures Newlines(key + name) == Newlines(name)
  {
    NewlinesConcat(key, name);
    NewlinesZero(key);
  }

  lemma NewlinesOfRewrite(line: string, name: string)
    requires OneLine(line)
    ensures Newlines(RewriteLine(line, name)) == if NamesApp(line) then Newlines(name) else 0
  {
    if "Name=" <= line { NewlinesAfterKey("Name=", name); }
    else if "Name[zh_CN]=" <= line { NewlinesAfterKey("Name[zh_CN]=", name); }
    else if "Comment=" <= line { NewlinesAfterKey("Comment=", name); }
    else if "Comment[zh_CN]=" <= line { NewlinesAfterKey("Comment[zh_CN]=", name); }
    else { NewlinesZero(line); }
  }

  lemma {:induction false} TotalOfRewrite(ls: seq<string>, name: string)
    requires forall l | l in ls :: OneLine(l)
    ensures Total(RewriteLines(ls, name)) == NamedTotal(ls, Newlines(name))
  {
    if ls != [] {
      NewlinesOfRewrite(ls[0], name);
      TotalOfRewrite(ls[1..], name);
      assert RewriteLines(ls, name)[1..] == RewriteLines(ls[1..], name);
    }
  }

  lemma NamedFirst(ls: seq<string>, n: nat)
    requires ls != []
    ensures NamedTotal(ls, n) == Weight(ls[0], n) + NamedTotal(ls[1..], n)
  {
  }

  /** What the first line of a text adds to the rest. */
  lemma NamedByLine(s: string, n: nat)
    requires s != ""
    ensures NamedTotal(Lines(s), n) == Weight(UpToNewline(s), n) + NamedTotal(Lines(AfterLine(s)), n)
  {
    var ls := Lines(s);
    assert ls[0] == UpToNewline(s) && ls[1..] == Lines(AfterLine(s));
    NamedFirst(ls, n);
  }

  lemma SliceOfConcat(a: string, b: string, k: nat)
    requires k <= |a| + |b|
    ensures (a + b)[k..] == if k <= |a| then a[k..] + b else b[k - |a|..]
  {
  }

  lemma AfterWithin(l: string, tail: string)
    requires |UpToNewline(l)| < |l| && tail != "" && tail[0] == '\n'
    ensures AfterLine(l + tail) == AfterLine(l) + tail
  {
    FirstLineOf(l, tail);
    SliceOfConcat(l, tail, |UpToNewline(l)| + 1);
  }

  lemma AfterEnd(l: string, tail: string)
    requires |UpToNewline(l)| == |l| && tail != "" && tail[0] == '\n'
    ensures AfterLine(l + tail) == tail[1..]
  {
    FirstLineOf(l, tail);
    SliceOfConcat(l, tail, |l| + 1);
  }

  lemma CutBefore(l: string, rest: string)
    ensures var s := l + ("\n" + rest);
      && s != "" && UpToNewline(s) == UpToNewline(l)
      && AfterLine(s) == if |UpToNewline(l)| < |l| then AfterLine(l) + ("\n" + rest) else rest
  {
    var tail := "\n" + rest;
    FirstLineOf(l, tail);
    if |UpToNewline(l)| < |l| { AfterWithin(l, tail); } else { AfterEnd(l, tail); }
    assert tail[1..] == rest;
  }

  /** A string put before a text adds the lines it has itself; its first line keeps its key. */
  lemma {:induction false} NamedBefore(l: string, rest: string, n: nat)
    ensures NamedTotal(Lines(l + ("\n" + rest)), n) >= Weight(l, n) + NamedTotal(Lines(rest), n)
    decreases |l|
  {
    var s := l + ("\n" + rest);
    CutBefore(l, rest);
    NamedByLine(s, n);
    KeyOnFirstLine(l, n);
    if |UpToNewline(l)| < |l| {
      NamedBefore(AfterLine(l), rest, n);
    }
  }

  lemma {:induction false} FirstLineOf(l: string, rest: string)
    requires rest != "" && rest[0] == '\n'
    ensures UpToNewline(l + rest) == UpToNewline(l)
  {
    if l == "" || l[0] == '\n' {
      assert (l + rest)[0] == '\n';
    } else {
      assert (l + rest)[1..] == l[1..] + rest;
      FirstLineOf(l[1..], rest);
    }
  }

  lemma {:induction false} PrefixBeforeNewline(key: string, l: string)
    requires OneLine(key) && key <= l
    ensures key <= UpToNewline(l)
  {
    if key != "" {
      assert key[0] in key;
      assert key[1..] <= l[1..];
      PrefixBeforeNewline(key[1..], l[1..]);
      assert key == [key[0]] + key[1..];
    }
  }

  lemma KeyOnFirstLine(l: string, n: nat)
    ensures Weight(l, n) <= Weight(UpToNewline(l), n)
  {
    if "Name=" <= l { PrefixBeforeNewline("Name=", l); }
    if "Name[zh_CN]=" <= l { PrefixBeforeNewline("Name[zh_CN]=", l); }
    if "Comment=" <= l { PrefixBeforeNewline("Comment=", l); }
    if "Comment[zh_CN]=" <= l { PrefixBeforeNewline("Comment[zh_CN]=", l); }
  }

  lemma JoinFirst(ls: seq<string>)
    requires ls != []
    ensures Join(ls) == ls[0] + ("\n" + Join(ls[1..]))
  {
  }

  lemma {:induction false} NamedOfJoin(ls: seq<string>, n: nat)
    ensures NamedTotal(Lines(Join(ls)), n) >= NamedTotal(ls, n)
  {
    if ls != [] {
      var rest := Join(ls[1..]);
      NamedOfJoin(ls[1..], n);
      NamedBefore(ls[0], rest, n);
      JoinFirst(ls);
      NamedFirst(ls, n);
    }
  }

  lemma {:induction false} NamedTotalConcat(a: seq<string>, b: seq<string>, n: nat)
    ensures NamedTotal(a + b, n) == NamedTotal(a, n) + NamedTotal(b, n)
  {
    if a == [] {
      assert a + b == b;
    } else {
      assert (a + b)[1..] == a[1..] + b;
      NamedTotalConcat(a[1..], b, n);
    }
  }

  lemma {:induction false} TotalConcat(a: seq<string>, b: seq<string>)
    ensures Total(a + b) == Total(a) + Total(b)
  {
    if a == [] {
      assert a + b == b;
    } else {
      assert (a + b)[1..] == a[1..] + b;
      TotalConcat(a[1..], b);
    }
  }

  lemma TotalFirst(l: string, rest: seq<string>)
    ensures Total([l] + rest) == Newlines(l) + Total(rest)
  {
    assert ([l] + rest)[1..] == rest;
  }

  lemma FourTotal(a: string, b: string, c: string, d: string)
    ensures Total([a, b, c, d]) == Newlines(a) + Newlines(b) + Newlines(c) + Newlines(d)
  {
    TotalFirst(d, []);
    TotalFirst(c, [d]);
    TotalFirst(b, [c, d]);
    TotalFirst(a, [b, c, d]);
    assert [a, b, c, d] == [a] + [b, c, d] && [b, c, d] == [b] + [c, d] && [c, d] == [c] + [d] && [d] == [d] + [];
  }

  lemma FourNamed(a: string, b: string, c: string, d: string, n: nat)
    requires NamesApp(a) && NamesApp(b) && NamesApp(c) && NamesApp(d)
    ensures NamedTotal([a, b, c, d], n) == 4 * n
  {
    assert [a, b, c, d][1..] == [b, c, d] && [b, c, d][1..] == [c, d] && [c, d][1..] == [d] && [d][1..] == [];
    NamedFirst([a, b, c, d], n);
    NamedFirst([b, c, d], n);
    NamedFirst([c, d], n);
    NamedFirst([d], n);
  }

  lemma NamingTotal(name: string)
    ensures Total(Naming(name)) == 4 * Newlines(name)
  {
    FourTotal("Name=" + name, "Name[zh_CN]=" + name, "Comment=" + name, "Comment[zh_CN]=" + name);
    NewlinesAfterKey("Name=", name);
    NewlinesAfterKey("Name[zh_CN]=", name);
    NewlinesAfterKey("Comment=", name);
    NewlinesAfterKey("Comment[zh_CN]=", name);
  }

  lemma NamingNamed(name: string, n: nat)
    ensures NamedTotal(Naming(name), n) == 4 * n
  {
    var a, b, c, d := "Name=" + name, "Name[zh_CN]=" + name, "Comment=" + name, "Comment[zh_CN]=" + name;
    assert "Name=" <= a && "Name[zh_CN]=" <= b && "Comment=" <= c && "Comment[zh_CN]=" <= d;
    FourNamed(a, b, c, d, n);
  }

  lemma OnlyThird(a: seq<string>, b: seq<string>, c: seq<string>, d: seq<string>)
    requires forall l | l in a || l in b || l in d :: OneLine(l)
    ensures Total(a + b + c + d) == Total(c)
  {
    TotalConcat(a + b + c, d);
    TotalConcat(a + b, c);
    TotalConcat(a, b);
    TotalZero(a);
    TotalZero(b);
    TotalZero(d);
  }

  /** Of the generated lines only the four naming ones bring newlines. */
  lemma EntryTotal(a: AppInfo, home: string)
    requires OneLine(a.pkgName) && OneLine(a.version) && OneLine(home)
    ensures Total(EntryLines(a, home)) == 4 * Newlines(a.appName)
  {
    OpeningIsLines();
    MiddleIsLines(a);
    AfterIsLines(a, home);
    OnlyThird(Opening(), Middle(a), Naming(a.appName), After(a, home));
    NamingTotal(a.appName);
  }

  lemma EntryNamed(a: AppInfo, home: string, n: nat)
    ensures NamedTotal(EntryLines(a, home), n) >= 4 * n
  {
    var opening, middle, naming, after := Opening(), Middle(a), Naming(a.appName), After(a, home);
    NamedTotalConcat(opening + middle + naming, after, n);
    NamedTotalConcat(opening + middle, naming, n);
    NamingNamed(a.appName, n);
  }

  /** The newlines of both texts, counted: the update keeps the ones that the old name brought. */
  lemma UpdateHasMoreNewlines(a: AppInfo, home: string, name: string)
    requires OneLine(a.pkgName) && OneLine(a.version) && OneLine(home) && !OneLine(a.appName)
    ensures Newlines(Update(Generate(a, home), name)) > Newlines(Generate(a.(appName := name), home))
  {
    var n := Newlines(name);
    var ls := EntryLines(a, home);
    var lines := Lines(Join(ls));
    EntryTotal(a, home);
    EntryTotal(a.(appName := name), home);
    EntryNamed(a, home, n);
    NewlinesZero(a.appName);
    NewlinesOfJoin(ls);
    NewlinesOfJoin(EntryLines(a.(appName := name), home));
    LineCount(ls);
    NewlinesOfJoin(RewriteLines(lines, name));
    TotalOfRewrite(lines, name);
    NamedOfJoin(ls, n);
  }

  lemma EntryIsLines(a: AppInfo, home: string)
    requires OneLine(a.pkgName) && OneLine(a.version) && OneLine(home) && OneLine(a.appName)
    ensures forall l | l in EntryLines(a, home) :: OneLine(l)
  {
    OpeningIsLines();
    MiddleIsLines(a);
    NamingIsLines(a.appName);
    AfterIsLines(a, home);
  }

  lemma Glue(a: string, b: string)
    requires OneLine(a) && OneLine(b)
    ensures OneLine(a + b)
  {
  }

  lemma OpeningIsLines()
    ensures forall l | l in Opening() :: OneLine(l)
  {
    assert OneLine("[Desktop Entry]") && OneLine("Terminal=false");
    assert OneLine("Type=Application") && OneLine("StartupNotify=false");
  }

  lemma MiddleIsLines(a: AppInfo)
    requires OneLine(a.pkgName)
    ensures forall l | l in Middle(a) :: OneLine(l)
  {
    assert OneLine("Keywords=Android;App;Apk") && OneLine("Categories=Android;App;Apk");
    assert OneLine("X-GXDE-KMREAPP=true");
    Glue("X-GXDE-KMRE-PKGNAME=", a.pkgName);
  }

  lemma NamingIsLines(name: string)
    requires OneLine(name)
    ensures forall l | l in Naming(name) :: OneLine(l)
  {
    Glue("Name=", name);
    Glue("Name[zh_CN]=", name);
    Glue("Comment=", name);
    Glue("Comment[zh_CN]=", name);
  }

  lemma AfterIsLines(a: AppInfo, home: string)
    requires OneLine(a.pkgName) && OneLine(a.version) && OneLine(home)
    ensures forall l | l in After(a, home) :: OneLine(l)
  {
    Glue("Exec=/usr/bin/startapp ", a.pkgName);
    Glue("Exec=/usr/bin/startapp " + a.pkgName, " ");
    Glue("Exec=/usr/bin/startapp " + a.pkgName + " ", a.version);
    Glue("Icon=", home);
    Glue("Icon=" + home, "/.local/share/icons/");
    Glue("Icon=" + home + "/.local/share/icons/", a.pkgName);
    Glue("Icon=" + home + "/.local/share/icons/" + a.pkgName, ".svg");
  }

  // ---- reading an entry back ----

  predicate HasKey(line: string, key: string) {
    key + "=" <= line
  }

  /** The value of a key: what follows it on the first line that starts with it. */
  function ValueOf(ls: seq<string>, key: string): Option<string> {
    if ls == [] then None
    else if HasKey(ls[0], key) then Some(ls[0][|key| + 1..])
    else ValueOf(ls[1..], key)
  }

  lemma {:induction false} ValueAt(ls: seq<string>, i: nat, key: string)
    requires i < |ls| && HasKey(ls[i], key) && forall j | 0 <= j < i :: !HasKey(ls[j], key)
    ensures ValueOf(ls, key) == Some(ls[i][|key| + 1..])
  {
    if i > 0 {
      assert !HasKey(ls[0], key);
      forall j | 0 <= j < i - 1 ensures !HasKey(ls[1..][j], key) {
        assert ls[1..][j] == ls[j + 1];
      }
      ValueAt(ls[1..], i - 1, key);
    }
  }

  lemma OtherKey(line: string, key: string, i: nat)
    requires i < |line| && i < |key + "="| && line[i] != (key + "=")[i]
    ensures !HasKey(line, key)
  {
  }

  /** The words between single spaces. */
  function Words(s: string): seq<string>
    decreases |s|
  {
    var n := |UpToSpace(s)|;
    if n < |s| then [UpToSpace(s)] + Words(s[n + 1..]) else [s]
  }

  function UpToSpace(s: string): (r: string)
    ensures r <= s && ' ' !in r && (|r| < |s| ==> s[|r|] == ' ')
  {
    if s == "" || s[0] == ' ' then "" else [s[0]] + UpToSpace(s[1..])
  }

  lemma {:induction false} UpToSpaceOf(w: string, rest: string)
    requires ' ' !in w && (rest == "" || rest[0] == ' ')
    ensures UpToSpace(w + rest) == w
  {
    if w == "" {
      assert w + rest == rest;
    } else {
      assert w[0] in w && (w + rest)[0] == w[0] && (w + rest)[1..] == w[1..] + rest;
      UpToSpaceOf(w[1..], rest);
    }
  }

  lemma FirstWord(w: string, rest: string)
    requires ' ' !in w
    ensures Words(w + (" " + rest)) == [w] + Words(rest) && Words(w) == [w]
  {
    UpToSpaceOf(w, " " + rest);
    assert (w + (" " + rest))[|w| + 1..] == rest;
    UpToSpaceOf(w, "");
    assert w + "" == w;
  }

  lemma EntryAt(a: AppInfo, home: string)
    ensures var ls := EntryLines(a, home);
      && |ls| == 14
      && ls[..4] == Opening() && ls[4..8] == Middle(a) && ls[8..12] == Naming(a.appName) && ls[12..] == After(a, home)
  {
  }

  /** The lines from the first one on that have another first letter than the key. */
  lemma OtherLetters(ls: seq<string>, n: nat, key: string)
    requires n <= |ls| && key != "" && forall j | 0 <= j < n :: ls[j] != "" && ls[j][0] != key[0]
    ensures forall j | 0 <= j < n :: !HasKey(ls[j], key)
  {
    forall j | 0 <= j < n ensures !HasKey(ls[j], key) {
      OtherKey(ls[j], key, 0);
    }
  }

  /** The first letters of the entry's lines. */
  lemma EntryLetters(a: AppInfo, home: string)
    ensures var ls := EntryLines(a, home);
      && |ls| == 14
      && (forall j | 0 <= j < 14 :: ls[j] != "")
      && (forall j | 0 <= j < 8 :: ls[j][0] != 'N')
      && (forall j | 0 <= j < 6 :: ls[j][0] != 'X')
      && (forall j | 0 <= j < 12 :: ls[j][0] != 'E')
      && (forall j | 0 <= j < 13 :: ls[j][0] != 'I')
  {
    var ls := EntryLines(a, home);
    EntryAt(a, home);
    assert ls[0] == Opening()[0] && ls[1] == Opening()[1] && ls[2] == Opening()[2] && ls[3] == Opening()[3];
    assert ls[4] == Middle(a)[0] && ls[5] == Middle(a)[1] && ls[6] == Middle(a)[2] && ls[7] == Middle(a)[3];
    assert ls[8] == Naming(a.appName)[0] && ls[9] == Naming(a.appName)[1];
    assert ls[10] == Naming(a.appName)[2] && ls[11] == Naming(a.appName)[3];
    assert ls[12] == After(a, home)[0] && ls[13] == After(a, home)[1];
    assert ls[7][0] == 'X' && ls[8][0] == 'N' && ls[9][0] == 'N' && ls[10][0] == 'C' && ls[11][0] == 'C';
    assert ls[12][0] == 'E' && ls[13][0] == 'I';
  }

  /** The generated text, read line by line, gives back the package, the name, the icon and the command. */
  lemma GeneratedReadsBack(a: AppInfo, home: string)
    requires OneLine(a.pkgName) && OneLine(a.version) && OneLine(home) && OneLine(a.appName)
    ensures var ls := Lines(Generate(a, home));
      && ls != [] && ls[0] == "[Desktop Entry]"
      && ValueOf(ls, "X-GXDE-KMRE-PKGNAME") == Some(a.pkgName)
      && ValueOf(ls, "Name") == Some(a.appName)
      && ValueOf(ls, "Exec") == Some("/usr/bin/startapp " + a.pkgName + " " + a.version)
      && ValueOf(ls, "Icon") == Some(home + "/.local/share/icons/" + a.pkgName + ".svg")
  {
    var ls := EntryLines(a, home);
    EntryIsLines(a, home);
    LinesOfJoin(ls);
    EntryLetters(a, home);
    PkgReadsBack(a, home);
    NameReadsBack(a, home);
    ExecReadsBack(a, home);
    IconReadsBack(a, home);
  }

  lemma PkgReadsBack(a: AppInfo, home: string)
    ensures ValueOf(EntryLines(a, home), "X-GXDE-KMRE-PKGNAME") == Some(a.pkgName)
  {
    var ls, key := EntryLines(a, home), "X-GXDE-KMRE-PKGNAME";
    EntryLetters(a, home);
    OtherLetters(ls, 6, key);
    assert ls[6] == "X-GXDE-KMREAPP=true" && ls[7] == key + "=" + a.pkgName;
    OtherKey(ls[6], key, 11);
    ValueAt(ls, 7, key);
  }

  lemma NameReadsBack(a: AppInfo, home: string)
    ensures ValueOf(EntryLines(a, home), "Name") == Some(a.appName)
  {
    var ls := EntryLines(a, home);
    EntryLetters(a, home);
    OtherLetters(ls, 8, "Name");
    assert ls[8] == "Name" + "=" + a.appName;
    ValueAt(ls, 8, "Name");
  }

  lemma ExecLine(a: AppInfo, home: string)
    ensures EntryLines(a, home)[12] == "Exec=" + ("/usr/bin/startapp " + a.pkgName + " " + a.version)
  {
    EntryAt(a, home);
    assert After(a, home)[0] == "Exec=" + ("/usr/bin/startapp " + a.pkgName + " " + a.version);
  }

  lemma ExecReadsBack(a: AppInfo, home: string)
    ensures ValueOf(EntryLines(a, home), "Exec") == Some("/usr/bin/startapp " + a.pkgName + " " + a.version)
  {
    var ls := EntryLines(a, home);
    EntryLetters(a, home);
    OtherLetters(ls, 12, "Exec");
    var value := "/usr/bin/startapp " + a.pkgName + " " + a.version;
    ExecLine(a, home);
    assert ls[12] == "Exec=" + value;
    assert ls[12][|"Exec"| + 1..] == value && HasKey(ls[12], "Exec");
    ValueAt(ls, 12, "Exec");
  }

  lemma IconReadsBack(a: AppInfo, home: string)
    ensures ValueOf(EntryLines(a, home), "Icon") == Some(home + "/.local/share/icons/" + a.pkgName + ".svg")
  {
    var ls := EntryLines(a, home);
    EntryLetters(a, home);
    OtherLetters(ls, 13, "Icon");
    assert ls[13] == "Icon" + "=" + (home + "/.local/share/icons/" + a.pkgName + ".svg");
    ValueAt(ls, 13, "Icon");
  }

  lemma ThreeWords(a: string, b: string, c: string)
    requires ' ' !in a && ' ' !in b && ' ' !in c
    ensures Words(a + (" " + (b + (" " + c)))) == [a, b, c]
  {
    FirstWord(a, b + (" " + c));
    FirstWord(b, c);
    FirstWord(c, "");
  }

  lemma Regrouped(a: string, b: string, c: string)
    ensures a + " " + b + " " + c == a + (" " + (b + (" " + c)))
  {
  }

  /** The command's words: startapp gets the package first and the version second. */
  lemma ExecWords(pkg: string, version: string)
    requires ' ' !in pkg && ' ' !in version
    ensures Words("/usr/bin/startapp " + pkg + " " + version) == ["/usr/bin/startapp", pkg, version]
  {
    var program := "/usr/bin/startapp";
    assert program + " " == "/usr/bin/startapp ";
    Regrouped(program, pkg, version);
    ThreeWords(program, pkg, version);
  }

  /** On any text, each naming line ends with its key and the new name. */
  lemma NamingLinesUpdated(text: string, name: string, i: nat, key: string)
    requires OneLine(name) && i < |Lines(text)| && key in {"Name", "Name[zh_CN]", "Comment", "Comment[zh_CN]"}
    requires HasKey(Lines(text)[i], key)
    ensures |Lines(Update(text, name))| == |Lines(text)| && Lines(Update(text, name))[i] == key + "=" + name
  {
    LinesOfUpdate(text, name);
    RewriteOfKey(Lines(text)[i], key, name);
    assert Lines(Update(text, name))[i] == RewriteLine(Lines(text)[i], name);
  }

  lemma RewriteOfKey(line: string, key: string, name: string)
    requires key in {"Name", "Name[zh_CN]", "Comment", "Comment[zh_CN]"} && HasKey(line, key)
    ensures RewriteLine(line, name) == key + "=" + name
  {
    assert "Name" + "=" == "Name=" && "Comment" + "=" == "Comment=";
    assert "Name[zh_CN]" + "=" == "Name[zh_CN]=" && "Comment[zh_CN]" + "=" == "Comment[zh_CN]=";
    if key == "Name[zh_CN]" { assert line[4] == '['; }
    if key == "Comment" { assert line[0] == 'C' && line[7] == '='; }
    if key == "Comment[zh_CN]" { assert line[0] == 'C' && line[7] == '['; }
  }

  // ---- the manager's loop over the files ----

  class ControlManager {
    var files: map<string, string>   // ~/.local/share/applications

    constructor (initial: map<string, string>)
      ensures files == initial
    {
      files := initial;
    }

    /** The name that the first matching entry of the app list gives, or "". */
    static method AppNameOf(apps: seq<AppInfo>, pkg: string) returns (name: string)
      ensures name == FirstName(apps, pkg)
    {
      var i := 0;
      while i < |apps|
        invariant i <= |apps|
        invariant FirstName(apps, pkg) == FirstName(apps[i..], pkg)
      {
        assert apps[i..][1..] == apps[i + 1..];
        if apps[i].pkgName == pkg {
          return apps[i].appName;
        }
        i := i + 1;
      }
      return "";
    }

    /** The loop that reads lines until the end and collects the new content. */
    static method NewContent(text: string, name: string) returns (content: string)
      ensures content == Update(text, name)
    {
      var rest := text;
      content := "";
      ghost var done: seq<string> := [];
      while rest != ""
        invariant Lines(text) == done + Lines(rest)
        invariant content == Join(RewriteLines(done, name))
        decreases |rest|
      {
        var line := UpToNewline(rest);
        rest := AfterLine(rest);
        UpdateStep(done, line, Lines(rest), name);
        done := done + [line];
        content := AppendLine(content, line, name);
      }
      assert done + [] == done;
    }

    static method AppendLine(content: string, line: string, name: string) returns (r: string)
      ensures r == content + (RewriteLine(line, name) + "\n")
    {
      if "Name=" <= line {
        r := content + ("Name=" + name + "\n");
      } else if "Name[zh_CN]=" <= line {
        r := content + ("Name[zh_CN]=" + name + "\n");
      } else if "Comment=" <= line {
        r := content + ("Comment=" + name + "\n");
      } else if "Comment[zh_CN]=" <= line {
        r := content + ("Comment[zh_CN]=" + name + "\n");
      } else {
        r := content + (line + "\n");
      }
    }

    /** `names` are the files gxme-*.desktop, each once; the ones in `locked` cannot be opened. */
    method UpdateAllAppNames(names: seq<string>, apps: seq<AppInfo>, locked: set<string>)
      requires forall n | n in names :: n in files && |n| >= 13
      requires forall i, j | 0 <= i < j < |names| :: names[i] != names[j]
      modifies this
      ensures files == AllRenamed(old(files), names, apps, locked)
    {
      for k := 0 to |names|
        invariant files == AllRenamed(old(files), names[..k], apps, locked)
      {
        RenameNext(old(files), names, k, apps, locked);
        UpdateAppName(names[k], apps, locked);
      }
      assert names[..|names|] == names;
    }

    /** One turn of the loop over the files. */
    method UpdateAppName(file: string, apps: seq<AppInfo>, locked: set<string>)
      requires file in files && |file| >= 13
      modifies this
      ensures files == old(files)[file := Renamed(old(files)[file], file, apps, locked)]
    {
      var appName := AppNameOf(apps, PkgOf(file));
      if appName == "" {
        return;
      }
      if file in locked {
        return;
      }
      var newContent := NewContent(files[file], appName);
      if newContent != "" {
        files := files[file := newContent];
      } else {
        EmptyUpdate(files[file], appName);
      }
    }
  }

  /** One more line read and written. */
  lemma UpdateStep(done: seq<string>, line: string, rest: seq<string>, name: string)
    ensures done + ([line] + rest) == (done + [line]) + rest
    ensures Join(RewriteLines(done + [line], name)) == Join(RewriteLines(done, name)) + (RewriteLine(line, name) + "\n")
  {
    RewriteConcat(done, [line], name);
    JoinSnoc(RewriteLines(done, name), RewriteLine(line, name));
    assert RewriteLines([line], name) == [RewriteLine(line, name)];
  }

  lemma EmptyUpdate(text: string, name: string)
    requires Update(text, name) == ""
    ensures text == ""
  {
    NewlinesOfJoin(RewriteLines(Lines(text), name));
  }

  function FirstName(apps: seq<AppInfo>, pkg: string): string {
    if apps == [] then ""
    else if apps[0].pkgName == pkg then apps[0].appName
    else FirstName(apps[1..], pkg)
  }

  lemma {:induction false} NoFirstName(apps: seq<AppInfo>, pkg: string)
    requires forall a | a in apps :: a.pkgName != pkg
    ensures FirstName(apps, pkg) == ""
  {
    if apps != [] {
      assert apps[0] in apps;
      NoFirstName(apps[1..], pkg);
    }
  }

  /** The name found is that of the first entry with the package. */
  lemma {:induction false} FirstNameAt(apps: seq<AppInfo>, pkg: string, i: nat)
    requires i < |apps| && apps[i].pkgName == pkg && forall j | 0 <= j < i :: apps[j].pkgName != pkg
    ensures FirstName(apps, pkg) == apps[i].appName
  {
    if i > 0 {
      assert apps[0].pkgName != pkg;
      forall j | 0 <= j < i - 1 ensures apps[1..][j].pkgName != pkg {
        assert apps[1..][j] == apps[j + 1];
      }
      FirstNameAt(apps[1..], pkg, i - 1);
    }
  }

  /** A file of a listed app that has a name, and that can be opened, is updated with the name of the first such entry. */
  lemma KnownAppRenamed(text: string, file: string, apps: seq<AppInfo>, locked: set<string>, i: nat)
    requires |file| >= 13 && file !in locked && i < |apps| && apps[i].appName != ""
    requires apps[i].pkgName == PkgOf(file) && forall j | 0 <= j < i :: apps[j].pkgName != PkgOf(file)
    ensures Renamed(text, file, apps, locked) == Update(text, apps[i].appName)
  {
    FirstNameAt(apps, PkgOf(file), i);
  }

  /** Of all files only the named ones may change, and none comes or goes. */
  lemma OtherFilesKept(files: map<string, string>, names: seq<string>, apps: seq<AppInfo>, locked: set<string>)
    ensures var r := AllRenamed(files, names, apps, locked);
      && r.Keys == files.Keys
      && (forall n | n in files && n !in names :: r[n] == files[n])
      && (forall n | n in files && n in names && |n| >= 13 :: r[n] == Renamed(files[n], n, apps, locked))
  {
  }

  /** A file of an app that is not listed, or that cannot be opened, is untouched. */
  lemma UnknownAppUntouched(text: string, file: string, apps: seq<AppInfo>, locked: set<string>)
    requires |file| >= 13 && (file in locked || forall a | a in apps :: a.pkgName != PkgOf(file))
    ensures Renamed(text, file, apps, locked) == text
  {
    if file !in locked { NoFirstName(apps, PkgOf(file)); }
  }

  /** A file is left alone when its app is not listed, has no name, or the file cannot be opened. */
  function Renamed(text: string, file: string, apps: seq<AppInfo>, locked: set<string>): string
    requires |file| >= 13
  {
    var name := FirstName(apps, PkgOf(file));
    if name == "" || file in locked then text else Update(text, name)
  }

  /** A generated file that the manager renames is the file that would be generated for the app's new name. */
  lemma GenerateThenRename(a: AppInfo, home: string, apps: seq<AppInfo>)
    requires OneLine(a.pkgName) && OneLine(a.version) && OneLine(home) && OneLine(a.appName)
    requires FirstName(apps, a.pkgName) != ""
    ensures Renamed(Generate(a, home), FileName(a.pkgName), apps, {}) ==
      Generate(a.(appName := FirstName(apps, a.pkgName)), home)
  {
    PkgOfFileName(a.pkgName);
    RewriteCommutes(a, home, FirstName(apps, a.pkgName));
  }

  /** Each of the named files renamed, every other file untouched. */
  ghost function AllRenamed(files: map<string, string>, names: seq<string>, apps: seq<AppInfo>, locked: set<string>):
    map<string, string>
  {
    map n | n in files :: if n in names && |n| >= 13 then Renamed(files[n], n, apps, locked) else files[n]
  }

  lemma RenameNext(files: map<string, string>, names: seq<string>, k: nat, apps: seq<AppInfo>, locked: set<string>)
    requires k < |names| && names[k] in files && |names[k]| >= 13
    requires forall i, j | 0 <= i < j < |names| :: names[i] != names[j]
    ensures var now := AllRenamed(files, names[..k], apps, locked);
      && names[k] in now
      && now[names[k] := Renamed(now[names[k]], names[k], apps, locked)] == AllRenamed(files, names[..k + 1], apps, locked)
  {
    assert names[..k + 1] == names[..k] + [names[k]];
    assert names[k] !in names[..k];
  }

  lemma {:induction false} JoinSnoc(ls: seq<string>, l: string)
    ensures Join(ls + [l]) == Join(ls) + (l + "\n")
  {
    if ls == [] {
      assert [l][1..] == [] && ls + [l] == [l];
    } else {
      assert (ls + [l])[1..] == ls[1..] + [l];
      JoinSnoc(ls[1..], l);
    }
  }
}
