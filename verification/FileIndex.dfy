/**
 The manager's index of Android files: five lists filled by batches, and two mirrored trees of hard links.

 A full dump comes in several type-0 messages that announce their common total; type 1 adds, type 2 removes. Two
 counters decide where a dump starts and ends, and the reset sits inside the loop over the items.
 */
module FileIndex {
  datatype Meta = Meta(path: string, mime: string, pkg: string)

  datatype Class = Image | Video | Audio | Document | Other

  /** QString::indexOf(t) != -1. */
  predicate Has(s: string, t: string) {
    exists i :: 0 <= i <= |s| - |t| && StandsAt(s, t, i)
  }

  predicate StandsAt(s: string, t: string, i: int)
    requires 0 <= i <= |s| - |t|
  {
    s[i..i + |t|] == t
  }

  function ClassOf(mime: string): Class {
    if Has(mime, "image") then Image
    else if Has(mime, "video") then Video
    else if Has(mime, "audio") then Audio
    else if Has(mime, "application") || Has(mime, "text") then Document
    else Other
  }

  // ---- one list ----

  /** QList::contains with the class's equality, which compares paths. */
  predicate HasPath(l: seq<Meta>, path: string) {
    exists i :: 0 <= i < |l| && l[i].path == path
  }

  function AddTo(l: seq<Meta>, m: Meta): seq<Meta> {
    if HasPath(l, m.path) then l else l + [m]
  }

  /** The first item with the path goes. */
  function RemoveFrom(l: seq<Meta>, path: string): seq<Meta> {
    if l == [] then []
    else if l[0].path == path then l[1..]
    else [l[0]] + RemoveFrom(l[1..], path)
  }

  ghost predicate Distinct(l: seq<Meta>) {
    forall i, j | 0 <= i < j < |l| :: l[i].path != l[j].path
  }

  // ---- the five lists ----

  datatype Lists = Lists(image: seq<Meta>, video: seq<Meta>, audio: seq<Meta>, document: seq<Meta>, other: seq<Meta>) {
    function Get(c: Class): seq<Meta> {
      match c
      case Image => image
      case Video => video
      case Audio => audio
      case Document => document
      case Other => other
    }

    function Set(c: Class, l: seq<Meta>): (r: Lists)
      ensures r.Get(c) == l
      ensures forall d | d != c :: r.Get(d) == Get(d)
    {
      match c
      case Image => this.(image := l)
      case Video => this.(video := l)
      case Audio => this.(audio := l)
      case Document => this.(document := l)
      case Other => this.(other := l)
    }

    function Add(m: Meta): Lists {
      Set(ClassOf(m.mime), AddTo(Get(ClassOf(m.mime)), m))
    }

    function Remove(m: Meta): Lists {
      Set(ClassOf(m.mime), RemoveFrom(Get(ClassOf(m.mime)), m.path))
    }

    /** No path twice in a list, and every item in the list of its own mime type. */
    ghost predicate Inv() {
      forall c :: Distinct(Get(c)) && forall m | m in Get(c) :: ClassOf(m.mime) == c
    }
  }

  const NO_FILES := Lists([], [], [], [], [])

  /** One call of filesMessage. */
  datatype Emission = Emission(kind: int, metas: seq<Meta>)

  function Times(e: Emission, n: nat): (r: seq<Emission>)
    ensures |r| == n && forall i | 0 <= i < n :: r[i] == e
  {
    seq(n, _ => e)
  }

  /** The lists, the two counters and what filesMessage was called with. */
  datatype State = State(lists: Lists, total: int, current: int, emitted: seq<Emission>)

  function Begin(s: State, kind: int, n: nat, total: int): State {
    if kind == 0
    then s.(total := total, lists := if s.current == 0 then NO_FILES else s.lists, current := s.current + n)
    else s
  }

  /** One item of the message that `e` carries. */
  function Item(s: State, e: Emission, m: Meta): State {
    if e.kind == 0 then
      var s1 := s.(lists := s.lists.Add(m));
      if s1.current >= s1.total then s1.(emitted := s.emitted + [e], total := 0, current := 0) else s1
    else if e.kind == 1 then s.(lists := s.lists.Add(m), emitted := s.emitted + [e])
    else if e.kind == 2 then s.(lists := s.lists.Remove(m), emitted := s.emitted + [e])
    else s
  }

  function Items(s: State, e: Emission, metas: seq<Meta>): State {
    if metas == [] then s else Item(Items(s, e, metas[..|metas| - 1]), e, metas[|metas| - 1])
  }

  datatype Message = Message(kind: int, metas: seq<Meta>, total: int)

  function Receive(s: State, msg: Message): State {
    Items(Begin(s, msg.kind, |msg.metas|, msg.total), Emission(msg.kind, msg.metas), msg.metas)
  }

  function ReceiveAll(s: State, msgs: seq<Message>): State {
    if msgs == [] then s else Receive(ReceiveAll(s, msgs[..|msgs| - 1]), msgs[|msgs| - 1])
  }

  // ---- what every message keeps ----

  lemma DistinctTail(l: seq<Meta>)
    requires Distinct(l) && l != []
    ensures Distinct(l[1..]) && forall m | m in l[1..] :: m.path != l[0].path
  {
    forall m | m in l[1..] ensures m.path != l[0].path {
      var i :| 0 <= i < |l[1..]| && l[1..][i] == m;
      assert l[i + 1] == m;
    }
  }

  /** In a list without duplicates exactly the items with the path go. */
  lemma {:induction false} RemoveFromMembers(l: seq<Meta>, path: string)
    requires Distinct(l)
    ensures forall m :: m in RemoveFrom(l, path) <==> m in l && m.path != path
  {
    if l != [] {
      DistinctTail(l);
      assert l == [l[0]] + l[1..];
      RemoveFromMembers(l[1..], path);
    }
  }

  lemma DistinctCons(m: Meta, l: seq<Meta>)
    requires Distinct(l) && forall x | x in l :: x.path != m.path
    ensures Distinct([m] + l)
  {
    var r := [m] + l;
    forall i, j | 0 <= i < j < |r| ensures r[i].path != r[j].path {
      assert r[j] == l[j - 1];
      if i > 0 { assert r[i] == l[i - 1]; }
    }
  }

  lemma {:induction false} RemoveFromKeeps(l: seq<Meta>, path: string)
    requires Distinct(l)
    ensures var r := RemoveFrom(l, path);
      && Distinct(r) && !HasPath(r, path)
      && (forall m :: m in r <==> m in l && m.path != path)
  {
    var r := RemoveFrom(l, path);
    RemoveFromMembers(l, path);
    forall i | 0 <= i < |r| ensures r[i].path != path {
      assert r[i] in r;
    }
    if l != [] {
      DistinctTail(l);
      if l[0].path != path {
        RemoveFromKeeps(l[1..], path);
        RemoveFromMembers(l[1..], path);
        DistinctCons(l[0], RemoveFrom(l[1..], path));
      }
    }
  }

  lemma SetKeepsInv(ls: Lists, c: Class, l: seq<Meta>)
    requires ls.Inv() && Distinct(l) && forall m | m in l :: ClassOf(m.mime) == c
    ensures ls.Set(c, l).Inv()
  {
    var r := ls.Set(c, l);
    forall d ensures Distinct(r.Get(d)) && forall m | m in r.Get(d) :: ClassOf(m.mime) == d {
      if d != c { assert r.Get(d) == ls.Get(d) && Distinct(ls.Get(d)); }
    }
  }

  lemma ItemKeepsInv(s: State, e: Emission, m: Meta)
    requires s.lists.Inv()
    ensures Item(s, e, m).lists.Inv()
  {
    var c := ClassOf(m.mime);
    var l := s.lists.Get(c);
    assert Distinct(l);
    RemoveFromKeeps(l, m.path);
    SetKeepsInv(s.lists, c, AddTo(l, m));
    SetKeepsInv(s.lists, c, RemoveFrom(l, m.path));
  }

  lemma {:induction false} ItemsKeepInv(s: State, e: Emission, metas: seq<Meta>)
    requires s.lists.Inv()
    ensures Items(s, e, metas).lists.Inv()
  {
    if metas != [] {
      ItemsKeepInv(s, e, metas[..|metas| - 1]);
      ItemKeepsInv(Items(s, e, metas[..|metas| - 1]), e, metas[|metas| - 1]);
    }
  }

  /** In every reachable state the lists are free of duplicates and sorted out by mime type. */
  lemma {:induction false} InvAlways(s: State, msgs: seq<Message>)
    requires s.lists.Inv()
    ensures ReceiveAll(s, msgs).lists.Inv()
  {
    if msgs != [] {
      var before := ReceiveAll(s, msgs[..|msgs| - 1]);
      var msg := msgs[|msgs| - 1];
      InvAlways(s, msgs[..|msgs| - 1]);
      ItemsKeepInv(Begin(before, msg.kind, |msg.metas|, msg.total), Emission(msg.kind, msg.metas), msg.metas);
    }
  }

  lemma {:induction false} RemoveLast(l: seq<Meta>, m: Meta)
    requires !HasPath(l, m.path)
    ensures RemoveFrom(l + [m], m.path) == l
  {
    if l != [] {
      assert (l + [m])[1..] == l[1..] + [m];
      assert forall i | 0 <= i < |l[1..]| :: l[1..][i] == l[i + 1];
      RemoveLast(l[1..], m);
    }
  }

  /** Adding a file with a path its list does not have, then removing it, restores all five lists and the counters. */
  lemma AddThenRemove(s: State, m: Meta, t1: int, t2: int)
    requires !HasPath(s.lists.Get(ClassOf(m.mime)), m.path)
    ensures var r := ReceiveAll(s, [Message(1, [m], t1), Message(2, [m], t2)]);
      r.lists == s.lists && r.total == s.total && r.current == s.current
  {
    var add, del := Message(1, [m], t1), Message(2, [m], t2);
    var msgs := [add, del];
    assert msgs[..1] == [add] && [add][..0] == [];
    assert ReceiveAll(s, [add]) == Receive(s, add);
    OneItem(s, Emission(1, [m]), m);
    OneItem(Receive(s, add), Emission(2, [m]), m);
    var c := ClassOf(m.mime);
    RemoveLast(s.lists.Get(c), m);
    assert s.lists.Add(m).Remove(m) == s.lists;
  }

  lemma OneItem(s: State, e: Emission, m: Meta)
    ensures Items(s, e, [m]) == Item(s, e, m)
  {
    assert [m][..0] == [];
  }

  // ---- a full dump ----

  /** The items that no earlier item of the list shares a path with: first occurrences, in order. */
  ghost function FirstOnes(l: seq<Meta>): seq<Meta> {
    if l == [] then [] else
    FirstOnes(l[..|l| - 1]) + if HasPath(l[..|l| - 1], l[|l| - 1].path) then [] else [l[|l| - 1]]
  }

  function OfClass(l: seq<Meta>, c: Class): seq<Meta> {
    if l == [] then [] else
    OfClass(l[..|l| - 1], c) + if ClassOf(l[|l| - 1].mime) == c then [l[|l| - 1]] else []
  }

  function AddEach(ls: Lists, metas: seq<Meta>): Lists {
    if metas == [] then ls else AddEach(ls, metas[..|metas| - 1]).Add(metas[|metas| - 1])
  }

  lemma HasPathSnoc(l: seq<Meta>, m: Meta, path: string)
    ensures HasPath(l + [m], path) <==> HasPath(l, path) || m.path == path
  {
    assert forall i | 0 <= i < |l| :: (l + [m])[i] == l[i];
    assert (l + [m])[|l|] == m;
  }

  lemma {:induction false} FirstOnesPaths(l: seq<Meta>, path: string)
    ensures HasPath(FirstOnes(l), path) <==> HasPath(l, path)
  {
    if l != [] {
      var n := |l| - 1;
      FirstOnesPaths(l[..n], path);
      assert l == l[..n] + [l[n]];
      HasPathSnoc(l[..n], l[n], path);
      HasPathSnoc(FirstOnes(l[..n]), l[n], path);
      assert FirstOnes(l[..n]) + [] == FirstOnes(l[..n]);
    }
  }

  /** Adding one by one to empty lists leaves each class with its first occurrences. */
  lemma {:induction false} AddEachIsDedup(metas: seq<Meta>, c: Class)
    ensures AddEach(NO_FILES, metas).Get(c) == FirstOnes(OfClass(metas, c))
  {
    if metas != [] {
      var n := |metas| - 1;
      var m := metas[n];
      var before := OfClass(metas[..n], c);
      AddEachIsDedup(metas[..n], c);
      if ClassOf(m.mime) == c {
        assert (before + [m])[..|before|] == before;
        FirstOnesPaths(before, m.path);
      } else {
        assert before + [] == before;
      }
    }
  }

  lemma {:induction false} AddEachConcat(ls: Lists, a: seq<Meta>, b: seq<Meta>)
    ensures AddEach(ls, a + b) == AddEach(AddEach(ls, a), b)
    decreases |b|
  {
    if b == [] {
      assert a + b == a;
    } else {
      var n := |b| - 1;
      assert (a + b)[..|a + b| - 1] == a + b[..n];
      AddEachConcat(ls, a, b[..n]);
    }
  }

  /** A batch that leaves the total unreached only adds. */
  lemma {:induction false} ShortBatch(s: State, e: Emission, metas: seq<Meta>)
    requires s.current < s.total && e.kind == 0
    ensures Items(s, e, metas) == s.(lists := AddEach(s.lists, metas))
  {
    if metas != [] {
      ShortBatch(s, e, metas[..|metas| - 1]);
    }
  }

  /** A batch that reaches it adds all its items too; the counters are reset at the first and the batch goes out per item. */
  lemma {:induction false} LastBatch(s: State, e: Emission, metas: seq<Meta>)
    requires s.current >= s.total && metas != [] && e.kind == 0
    ensures Items(s, e, metas) == State(AddEach(s.lists, metas), 0, 0, s.emitted + Times(e, |metas|))
  {
    var n := |metas| - 1;
    assert s.emitted + Times(e, n) + [e] == s.emitted + Times(e, |metas|);
    if n == 0 {
      assert metas[..0] == [] && s.emitted + Times(e, 0) == s.emitted;
      assert Items(s, e, metas[..0]) == s && AddEach(s.lists, metas[..0]) == s.lists;
    } else {
      LastBatch(s, e, metas[..n]);
    }
  }

  function Dump(batches: seq<seq<Meta>>, total: int): seq<Message> {
    seq(|batches|, i requires 0 <= i < |batches| => Message(0, batches[i], total))
  }

  function Flat(batches: seq<seq<Meta>>): seq<Meta> {
    if batches == [] then [] else Flat(batches[..|batches| - 1]) + batches[|batches| - 1]
  }

  /** The running sum stays below the total. */
  ghost predicate Short(batches: seq<seq<Meta>>, total: int) {
    forall k | 0 < k <= |batches| :: |Flat(batches[..k])| < total
  }

  /** A dump under way: everything received so far is stored, and the counters say so. */
  lemma {:induction false} DumpUnderWay(s: State, batches: seq<seq<Meta>>, total: int)
    requires s.current == 0 && batches != [] && Short(batches, total)
    ensures ReceiveAll(s, Dump(batches, total)) ==
      State(AddEach(NO_FILES, Flat(batches)), total, |Flat(batches)|, s.emitted)
    decreases |batches|, 0
  {
    var n := |batches| - 1;
    forall k | 0 < k <= n ensures |Flat(batches[..n][..k])| < total {
      assert batches[..n][..k] == batches[..k];
    }
    assert batches[..|batches|] == batches;
    NextBatchStarts(s, batches[..n], |batches[n]|, total);
    ReceiveLast(s, batches, total);
    StoreShort(Begin(ReceiveAll(s, Dump(batches[..n], total)), 0, |batches[n]|, total),
               Flat(batches[..n]), Emission(0, batches[n]), batches[n], total, s.emitted);
  }

  /** Where a dump stands when its next batch, of `size` items, is about to be stored. */
  lemma {:induction false} NextBatchStarts(s: State, batches: seq<seq<Meta>>, size: nat, total: int)
    requires s.current == 0 && Short(batches, total)
    ensures Begin(ReceiveAll(s, Dump(batches, total)), 0, size, total) ==
      State(AddEach(NO_FILES, Flat(batches)), total, |Flat(batches)| + size, s.emitted)
    decreases |batches|, 1
  {
    if batches == [] {
      assert Dump(batches, total) == [];
    } else {
      DumpUnderWay(s, batches, total);
      if Flat(batches) == [] { assert AddEach(NO_FILES, Flat(batches)) == NO_FILES; }
    }
  }

  /** Storing a batch that is not the last. */
  lemma StoreShort(
    started: State, init: seq<Meta>, e: Emission, batch: seq<Meta>, total: int, emitted: seq<Emission>)
    requires e.kind == 0
    requires started == State(AddEach(NO_FILES, init), total, |init| + |batch|, emitted) && |init| + |batch| < total
    ensures Items(started, e, batch) == State(AddEach(NO_FILES, init + batch), total, |init + batch|, emitted)
  {
    ShortBatch(started, e, batch);
    AddEachConcat(NO_FILES, init, batch);
  }

  lemma ReceiveLast(s: State, batches: seq<seq<Meta>>, total: int)
    requires batches != []
    ensures var n := |batches| - 1;
      ReceiveAll(s, Dump(batches, total)) ==
        Items(Begin(ReceiveAll(s, Dump(batches[..n], total)), 0, |batches[n]|, total), Emission(0, batches[n]), batches[n])
  {
    var n := |batches| - 1;
    assert Dump(batches, total)[..n] == Dump(batches[..n], total);
  }

  /**
   A full dump: the running sum stays below the total until the last, non-empty batch reaches it. Then each list is
   the first-occurrence dedup of the dump's items of its class, both counters are back at 0, and the message went
   out once for each item of the last batch.
   */
  lemma FullDump(s: State, batches: seq<seq<Meta>>, total: int, c: Class)
    requires s.current == 0 && batches != [] && batches[|batches| - 1] != []
    requires Short(batches[..|batches| - 1], total) && |Flat(batches)| >= total
    ensures var r := ReceiveAll(s, Dump(batches, total));
      && r.lists.Get(c) == FirstOnes(OfClass(Flat(batches), c))
      && r.total == 0 && r.current == 0
      && var last := batches[|batches| - 1]; r.emitted == s.emitted + Times(Emission(0, last), |last|)
  {
    var n := |batches| - 1;
    ReceiveLast(s, batches, total);
    NextBatchStarts(s, batches[..n], |batches[n]|, total);
    LastBatch(Begin(ReceiveAll(s, Dump(batches[..n], total)), 0, |batches[n]|, total), Emission(0, batches[n]), batches[n]);
    AddEachConcat(NO_FILES, Flat(batches[..n]), batches[n]);
    AddEachIsDedup(Flat(batches), c);
  }

  /** A round is over when its sum has reached the total; one without items leaves nothing to forget. */
  predicate Closed(round: seq<seq<Meta>>, total: int) {
    |Flat(round)| == 0 || total <= |Flat(round)|
  }

  /** The batches since the last earlier reset. */
  function Round(batches: seq<seq<Meta>>, total: int): seq<seq<Meta>> {
    if batches == [] then [] else
    var before := Round(batches[..|batches| - 1], total);
    (if Closed(before, total) then [] else before) + [batches[|batches| - 1]]
  }

  lemma FlatSnoc(batches: seq<seq<Meta>>, batch: seq<Meta>)
    ensures Flat(batches + [batch]) == Flat(batches) + batch
  {
    assert (batches + [batch])[..|batches|] == batches;
  }

  lemma FlatOfNext(before: seq<seq<Meta>>, batch: seq<Meta>, total: int)
    ensures Flat((if Closed(before, total) then [] else before) + [batch]) ==
      (if Closed(before, total) then [] else Flat(before)) + batch
  {
    FlatSnoc(if Closed(before, total) then [] else before, batch);
  }

  /** Storing one batch, from either side of the total. */
  lemma StoreBatch(
    started: State, kept: seq<Meta>, e: Emission, batch: seq<Meta>, total: int, emitted: seq<Emission>)
    requires e.kind == 0
    requires started == State(AddEach(NO_FILES, kept), total, |kept| + |batch|, emitted)
    requires kept == [] || |kept| < total
    ensures var r := Items(started, e, batch);
      && r.lists == AddEach(NO_FILES, kept + batch)
      && r.current == if |kept + batch| >= total then 0 else |kept + batch|
  {
    if |kept| + |batch| < total {
      ShortBatch(started, e, batch);
      AddEachConcat(NO_FILES, kept, batch);
    } else if batch == [] {
      assert kept + batch == [];
    } else {
      LastBatch(started, e, batch);
      AddEachConcat(NO_FILES, kept, batch);
    }
  }

  /** The lists hold exactly the last round, and its size is counted until it is over. */
  ghost predicate HoldsRound(r: State, round: seq<seq<Meta>>, total: int) {
    && (round != [] ==> r.lists == AddEach(NO_FILES, Flat(round)))
    && r.current == if |Flat(round)| >= total then 0 else |Flat(round)|
  }

  /** What is left of a round when the next batch comes. */
  function Kept(round: seq<seq<Meta>>, total: int): seq<Meta> {
    if Closed(round, total) then [] else Flat(round)
  }

  lemma NextRoundStarts(before: State, round: seq<seq<Meta>>, size: nat, total: int)
    requires HoldsRound(before, round, total)
    ensures var kept := Kept(round, total);
      && Begin(before, 0, size, total) == State(AddEach(NO_FILES, kept), total, |kept| + size, before.emitted)
      && (kept == [] || |kept| < total)
  {
    var none: seq<Meta> := [];
    assert AddEach(NO_FILES, none) == NO_FILES;
    if round == [] { assert Flat(round) == []; }
  }

  lemma RoundHolds(r: State, next: seq<seq<Meta>>, items: seq<Meta>, total: int)
    requires Flat(next) == items && r.lists == AddEach(NO_FILES, items) && r.current == if |items| >= total then 0 else |items|
    ensures HoldsRound(r, next, total)
  {
  }

  /** The next batch, from a round that is over or one that is not. */
  lemma RoundStep(before: State, round: seq<seq<Meta>>, batch: seq<Meta>, total: int)
    requires HoldsRound(before, round, total)
    ensures HoldsRound(Items(Begin(before, 0, |batch|, total), Emission(0, batch), batch),
                       (if Closed(round, total) then [] else round) + [batch], total)
  {
    var kept, e, started := Kept(round, total), Emission(0, batch), Begin(before, 0, |batch|, total);
    FlatOfNext(round, batch, total);
    NextRoundStarts(before, round, |batch|, total);
    StoreBatch(started, kept, e, batch, total, before.emitted);
    RoundHolds(Items(started, e, batch), (if Closed(round, total) then [] else round) + [batch], kept + batch, total);
  }

  /** Whatever the batches and the total. */
  lemma {:induction false} DumpKeepsLastRound(s: State, batches: seq<seq<Meta>>, total: int)
    requires s.current == 0
    ensures HoldsRound(ReceiveAll(s, Dump(batches, total)), Round(batches, total), total)
  {
    if batches == [] {
      assert Dump(batches, total) == [];
    } else {
      var n := |batches| - 1;
      DumpKeepsLastRound(s, batches[..n], total);
      ReceiveLast(s, batches, total);
      RoundStep(ReceiveAll(s, Dump(batches[..n], total)), Round(batches[..n], total), batches[n], total);
    }
  }

  /** Some proper prefix of the dump has items and reaches the total. */
  ghost predicate EarlyTotal(batches: seq<seq<Meta>>, total: int) {
    exists k :: 0 < k < |batches| && 0 < |Flat(batches[..k])| && total <= |Flat(batches[..k])|
  }

  lemma {:induction false} FlatGrows(batches: seq<seq<Meta>>, k: nat)
    requires k <= |batches|
    ensures |Flat(batches[..k])| <= |Flat(batches)|
  {
    if k < |batches| {
      var n := |batches| - 1;
      assert batches[..n][..k] == batches[..k];
      FlatGrows(batches[..n], k);
    } else {
      assert batches[..k] == batches;
    }
  }

  lemma EarlyTotalSnoc(batches: seq<seq<Meta>>, total: int)
    requires batches != []
    ensures var init := batches[..|batches| - 1];
      EarlyTotal(batches, total) <==> EarlyTotal(init, total) || (0 < |Flat(init)| && total <= |Flat(init)|)
  {
    var n := |batches| - 1;
    var init := batches[..n];
    if EarlyTotal(init, total) {
      var k :| 0 < k < n && 0 < |Flat(init[..k])| && total <= |Flat(init[..k])|;
      assert batches[..k] == init[..k];
    }
    if EarlyTotal(batches, total) {
      var k :| 0 < k < |batches| && 0 < |Flat(batches[..k])| && total <= |Flat(batches[..k])|;
      if k < n { assert batches[..k] == init[..k]; }
    }
  }

  /** A dump forgets nothing exactly when no proper prefix reaches the total: otherwise the last round is shorter. */
  lemma {:induction false} NothingForgottenIff(batches: seq<seq<Meta>>, total: int)
    ensures Flat(Round(batches, total)) == Flat(batches) <==> !EarlyTotal(batches, total)
    ensures EarlyTotal(batches, total) ==> |Flat(Round(batches, total))| < |Flat(batches)|
  {
    if batches != [] {
      var n := |batches| - 1;
      var init := batches[..n];
      NothingForgottenIff(init, total);
      FlatOfNext(Round(init, total), batches[n], total);
      EarlyTotalSnoc(batches, total);
    }
  }

  lemma {:induction false} ReceiveAllConcat(s: State, a: seq<Message>, b: seq<Message>)
    ensures ReceiveAll(s, a + b) == ReceiveAll(ReceiveAll(s, a), b)
    decreases |b|
  {
    if b == [] {
      assert a + b == a;
    } else {
      var n := |b| - 1;
      assert (a + b)[..|a + b| - 1] == a + b[..n];
      ReceiveAllConcat(s, a, b[..n]);
    }
  }

  lemma ShortIsNotEarly(batches: seq<seq<Meta>>, total: int)
    requires batches != [] && Short(batches[..|batches| - 1], total)
    ensures !EarlyTotal(batches, total)
  {
    forall k | 0 < k < |batches| ensures |Flat(batches[..k])| < total {
      assert batches[..|batches| - 1][..k] == batches[..k];
    }
  }

  lemma DumpConcat(a: seq<seq<Meta>>, b: seq<seq<Meta>>, total: int)
    ensures Dump(a + b, total) == Dump(a, total) + Dump(b, total)
  {
  }

  lemma DumpAfterDump(s: State, a: seq<seq<Meta>>, b: seq<seq<Meta>>, total: int)
    ensures ReceiveAll(s, Dump(a + b, total)) == ReceiveAll(ReceiveAll(s, Dump(a, total)), Dump(b, total))
  {
    DumpConcat(a, b, total);
    var x, y := Dump(a, total), Dump(b, total);
    ReceiveAllConcat(s, x, y);
  }

  /**
   After a full dump the next batches start a new one, even when they belong to the same: only they are kept, all of
   them when they stay below the total until the last.
   */
  lemma EarlyTotalForgets(s: State, a: seq<seq<Meta>>, b: seq<seq<Meta>>, total: int, c: Class)
    requires s.current == 0 && a != [] && a[|a| - 1] != [] && b != []
    requires Short(a[..|a| - 1], total) && |Flat(a)| >= total
    ensures var l := ReceiveAll(s, Dump(a + b, total)).lists.Get(c);
      && l == FirstOnes(OfClass(Flat(Round(b, total)), c))
      && (Short(b[..|b| - 1], total) ==> l == FirstOnes(OfClass(Flat(b), c)))
  {
    FullDump(s, a, total, c);
    DumpAfterDump(s, a, b, total);
    DumpKeepsLastRound(ReceiveAll(s, Dump(a, total)), b, total);
    AddEachIsDedup(Flat(Round(b, total)), c);
    if Short(b[..|b| - 1], total) {
      ShortIsNotEarly(b, total);
      NothingForgottenIff(b, total);
    }
  }

  // ---- any messages ----

  /** What one item says about its file. */
  datatype Edit = Put(m: Meta) | Take(m: Meta)

  function Edited(ls: Lists, e: Edit): Lists {
    match e case Put(m) => ls.Add(m) case Take(m) => ls.Remove(m)
  }

  function Replay(ls: Lists, es: seq<Edit>): Lists {
    if es == [] then ls else Edited(Replay(ls, es[..|es| - 1]), es[|es| - 1])
  }

  function EditsOf(kind: int, metas: seq<Meta>): (es: seq<Edit>)
    ensures |es| == if kind in {0, 1, 2} then |metas| else 0
  {
    if kind == 0 || kind == 1 then seq(|metas|, i requires 0 <= i < |metas| => Put(metas[i]))
    else if kind == 2 then seq(|metas|, i requires 0 <= i < |metas| => Take(metas[i]))
    else []
  }

  /** The edits since the lists were cleared last, and the count of the dump under way. */
  datatype Log = Log(edits: seq<Edit>, current: int)

  function Record(log: Log, msg: Message): Log {
    var es := EditsOf(msg.kind, msg.metas);
    if msg.kind != 0 then Log(log.edits + es, log.current) else
    var current := log.current + |msg.metas|;
    Log((if log.current == 0 then [] else log.edits) + es, if msg.metas != [] && current >= msg.total then 0 else current)
  }

  function RecordAll(log: Log, msgs: seq<Message>): Log {
    if msgs == [] then log else Record(RecordAll(log, msgs[..|msgs| - 1]), msgs[|msgs| - 1])
  }

  lemma {:induction false} ReplayConcat(ls: Lists, a: seq<Edit>, b: seq<Edit>)
    ensures Replay(ls, a + b) == Replay(Replay(ls, a), b)
    decreases |b|
  {
    if b == [] {
      assert a + b == a;
    } else {
      assert (a + b)[..|a + b| - 1] == a + b[..|b| - 1];
      ReplayConcat(ls, a, b[..|b| - 1]);
    }
  }

  lemma EditsSnoc(kind: int, metas: seq<Meta>, n: nat)
    requires n < |metas| && kind in {0, 1, 2}
    ensures EditsOf(kind, metas[..n + 1]) == EditsOf(kind, metas[..n]) + [if kind == 2 then Take(metas[n]) else Put(metas[n])]
  {
  }

  lemma {:induction false} ItemsReplay(s: State, e: Emission, metas: seq<Meta>)
    ensures var r := Items(s, e, metas);
      && r.lists == Replay(s.lists, EditsOf(e.kind, metas))
      && r.current == (if e.kind == 0 && metas != [] && s.current >= s.total then 0 else s.current)
      && r.total == (if e.kind == 0 && metas != [] && s.current >= s.total then 0 else s.total)
  {
    if metas != [] {
      var n := |metas| - 1;
      ItemsReplay(s, e, metas[..n]);
      if e.kind in {0, 1, 2} {
        EditsSnoc(e.kind, metas, n);
        assert metas[..n + 1] == metas;
      }
    }
  }

  /** The log of a state: its lists are the replay of the edits, its counter the count. */
  ghost predicate Logged(s: State, log: Log) {
    s.lists == Replay(NO_FILES, log.edits) && s.current == log.current
  }

  lemma ReceiveIsLogged(s: State, log: Log, msg: Message)
    requires Logged(s, log)
    ensures Logged(Receive(s, msg), Record(log, msg))
  {
    var started := Begin(s, msg.kind, |msg.metas|, msg.total);
    ItemsReplay(started, Emission(msg.kind, msg.metas), msg.metas);
    var kept := if msg.kind == 0 && log.current == 0 then [] else log.edits;
    ReplayConcat(NO_FILES, kept, EditsOf(msg.kind, msg.metas));
  }

  lemma {:induction false} AllIsLogged(s: State, log: Log, msgs: seq<Message>)
    requires Logged(s, log)
    ensures Logged(ReceiveAll(s, msgs), RecordAll(log, msgs))
  {
    if msgs != [] {
      AllIsLogged(s, log, msgs[..|msgs| - 1]);
      ReceiveIsLogged(ReceiveAll(s, msgs[..|msgs| - 1]), RecordAll(log, msgs[..|msgs| - 1]), msgs[|msgs| - 1]);
    }
  }

  /** The last edit of the path in its class is an add. */
  predicate LastIsPut(es: seq<Edit>, c: Class, path: string) {
    es != [] &&
    var e := es[|es| - 1];
    if ClassOf(e.m.mime) == c && e.m.path == path then e.Put? else LastIsPut(es[..|es| - 1], c, path)
  }

  lemma EditedListed(ls: Lists, e: Edit, c: Class, path: string)
    requires ls.Inv()
    ensures Edited(ls, e).Inv()
    ensures HasPath(Edited(ls, e).Get(c), path) <==>
      if ClassOf(e.m.mime) == c && e.m.path == path then e.Put? else HasPath(ls.Get(c), path)
  {
    ItemKeepsInv(State(ls, 1, 0, []), Emission(if e.Put? then 1 else 2, []), e.m);
    var l := ls.Get(c);
    assert Distinct(l);
    if ClassOf(e.m.mime) == c {
      if e.Put? {
        HasPathSnoc(l, e.m, path);
      } else {
        RemoveFromKeeps(l, e.m.path);
        StillListed(l, RemoveFrom(l, e.m.path), e.m.path, path);
      }
    }
  }

  lemma StillListed(l: seq<Meta>, r: seq<Meta>, gone: string, path: string)
    requires forall m :: m in r <==> m in l && m.path != gone
    ensures path != gone ==> (HasPath(r, path) <==> HasPath(l, path))
  {
    if path != gone && HasPath(l, path) {
      var i :| 0 <= i < |l| && l[i].path == path;
      assert l[i] in r;
    }
    if path != gone && HasPath(r, path) {
      var i :| 0 <= i < |r| && r[i].path == path;
      assert r[i] in l;
    }
  }

  lemma {:induction false} ReplayListed(es: seq<Edit>, c: Class, path: string)
    ensures Replay(NO_FILES, es).Inv()
    ensures HasPath(Replay(NO_FILES, es).Get(c), path) <==> LastIsPut(es, c, path)
  {
    if es != [] {
      ReplayListed(es[..|es| - 1], c, path);
      EditedListed(Replay(NO_FILES, es[..|es| - 1]), es[|es| - 1], c, path);
    }
  }

  /**
   After any messages, dumps, inserts and deletes in any order: a file is in the list of a class exactly when the last
   thing said about its path in that class, since the lists were cleared last, was an add.
   */
  lemma FileListedIff(msgs: seq<Message>, c: Class, path: string)
    ensures HasPath(ReceiveAll(State(NO_FILES, 0, 0, []), msgs).lists.Get(c), path) <==>
      LastIsPut(RecordAll(Log([], 0), msgs).edits, c, path)
  {
    AllIsLogged(State(NO_FILES, 0, 0, []), Log([], 0), msgs);
    ReplayListed(RecordAll(Log([], 0), msgs).edits, c, path);
  }

  function AllEdits(msgs: seq<Message>): seq<Edit> {
    if msgs == [] then [] else
    AllEdits(msgs[..|msgs| - 1]) + EditsOf(msgs[|msgs| - 1].kind, msgs[|msgs| - 1].metas)
  }

  /** The items that the dump's own messages have brought. */
  function Dumped(msgs: seq<Message>): nat {
    if msgs == [] then 0 else
    Dumped(msgs[..|msgs| - 1]) + if msgs[|msgs| - 1].kind == 0 then |msgs[|msgs| - 1].metas| else 0
  }

  /** A dump under way from its first message on, with inserts and deletes between its batches. */
  ghost predicate UnderWay(msgs: seq<Message>, total: int) {
    && msgs != [] && msgs[0].kind == 0
    && (forall i | 0 <= i < |msgs| && msgs[i].kind == 0 :: msgs[i].total == total)
    && (forall k | 0 < k < |msgs| :: 0 < Dumped(msgs[..k]) < total)
  }

  /** Such a dump loses none of its batches and none of the inserts and deletes that come between them. */
  lemma {:induction false} InterleavedDump(log: Log, msgs: seq<Message>, total: int)
    requires log.current == 0 && UnderWay(msgs, total)
    ensures RecordAll(log, msgs).edits == AllEdits(msgs)
    ensures RecordAll(log, msgs).current == if Dumped(msgs) >= total then 0 else Dumped(msgs)
    decreases |msgs|
  {
    var n := |msgs| - 1;
    if n == 0 {
      assert msgs[..0] == [];
      assert AllEdits(msgs[..0]) == [] && Dumped(msgs[..0]) == 0 && RecordAll(log, msgs[..0]) == log;
      assert [] + EditsOf(0, msgs[0].metas) == EditsOf(0, msgs[0].metas);
    } else {
      forall k | 0 < k < n ensures msgs[..n][..k] == msgs[..k] {
      }
      InterleavedDump(log, msgs[..n], total);
    }
  }

  // ---- the two trees of hard links ----

  /** A place below KmreData: two directory names and a file name. */
  type Place = seq<string>

  type Links = map<Place, nat>

  /** split("/", SkipEmptyParts).front(), or "" when there is no part. */
  function FirstPart(s: string): string {
    if s == "" then ""
    else if s[0] == '/' then FirstPart(s[1..])
    else UpToSlash(s)
  }

  function UpToSlash(s: string): string {
    if s == "" || s[0] == '/' then "" else [s[0]] + UpToSlash(s[1..])
  }

  /** split("/", SkipEmptyParts).back(), or "". */
  function LastPart(s: string): string {
    if s == "" then ""
    else if s[|s| - 1] == '/' then LastPart(s[..|s| - 1])
    else FromSlash(s)
  }

  function FromSlash(s: string): string {
    if s == "" || s[|s| - 1] == '/' then "" else FromSlash(s[..|s| - 1]) + [s[|s| - 1]]
  }

  function FileType(mime: string): string {
    var t := FirstPart(mime);
    if t == "audio" then "音乐"
    else if t == "video" then "视频"
    else if t == "image" then "图片"
    else if t == "application" || t == "text" then "文档"
    else "其他"
  }

  predicate HasLinks(m: Meta) {
    m.pkg != "" && m.mime != ""
  }

  /** What front() and back() need: a part between slashes. */
  predicate HasParts(m: Meta) {
    HasLinks(m) ==> FirstPart(m.mime) != "" && LastPart(m.path) != ""
  }

  /** The package and the file name are single path components, as Android's are. */
  predicate Plain(m: Meta) {
    HasLinks(m) ==> LastPart(m.path) !in {".", ".."} && '/' !in m.pkg && m.pkg !in {".", ".."}
  }

  function ByPackage(m: Meta): Place {
    [m.pkg, FileType(m.mime), LastPart(m.path)]
  }

  function ByType(m: Meta): Place {
    [FileType(m.mime), m.pkg, LastPart(m.path)]
  }

  /** link(2): it fails when the source is missing or the place is taken. */
  function Link(links: Links, place: Place, m: Meta, files: map<string, nat>): Links {
    if m.path in files && place !in links then links[place := files[m.path]] else links
  }

  /** `files` are the inodes that the items' paths name while the message is handled. */
  function LinkItem(links: Links, kind: int, m: Meta, files: map<string, nat>): Links {
    if !HasLinks(m) then links
    else if kind == 0 || kind == 1 then Link(Link(links, ByPackage(m), m, files), ByType(m), m, files)
    else if kind == 2 then links - {ByPackage(m)} - {ByType(m)}
    else links
  }

  function LinkItems(links: Links, kind: int, metas: seq<Meta>, files: map<string, nat>): Links {
    if metas == [] then links
    else LinkItem(LinkItems(links, kind, metas[..|metas| - 1], files), kind, metas[|metas| - 1], files)
  }

  datatype Delivery = Delivery(msg: Message, files: map<string, nat>)

  function LinkAll(links: Links, ds: seq<Delivery>): Links {
    if ds == [] then links else
    var d := ds[|ds| - 1];
    LinkItems(LinkAll(links, ds[..|ds| - 1]), d.msg.kind, d.msg.metas, d.files)
  }

  /** The two views agree everywhere: both have the file or neither has, and they name the same inode. */
  ghost predicate Mirrored(links: Links) {
    forall a, b, n ::
      ([a, b, n] in links <==> [b, a, n] in links) && ([a, b, n] in links ==> links[[a, b, n]] == links[[b, a, n]])
  }

  lemma LinkItemMirrors(links: Links, kind: int, m: Meta, files: map<string, nat>)
    requires Mirrored(links)
    ensures Mirrored(LinkItem(links, kind, m, files))
  {
    var r := LinkItem(links, kind, m, files);
    var p, t, f := m.pkg, FileType(m.mime), LastPart(m.path);
    assert [p, t, f] in links <==> [t, p, f] in links;
    forall a, b, n ensures
      ([a, b, n] in r <==> [b, a, n] in r) && ([a, b, n] in r ==> r[[a, b, n]] == r[[b, a, n]])
    {
      SamePlace(a, b, n, p, t, f);
      SamePlace(b, a, n, p, t, f);
      SamePlace(a, b, n, t, p, f);
      SamePlace(b, a, n, t, p, f);
      assert [a, b, n] in links <==> [b, a, n] in links;
    }
  }

  lemma SamePlace(a: string, b: string, n: string, p: string, t: string, f: string)
    ensures [a, b, n] == [p, t, f] <==> a == p && b == t && n == f
  {
    assert [a, b, n] == [p, t, f] ==> [a, b, n][0] == [p, t, f][0] && [a, b, n][1] == [p, t, f][1] && [a, b, n][2] == [p, t, f][2];
  }

  lemma {:induction false} LinkItemsMirror(links: Links, kind: int, metas: seq<Meta>, files: map<string, nat>)
    requires Mirrored(links)
    ensures Mirrored(LinkItems(links, kind, metas, files))
  {
    if metas != [] {
      LinkItemsMirror(links, kind, metas[..|metas| - 1], files);
      LinkItemMirrors(LinkItems(links, kind, metas[..|metas| - 1], files), kind, metas[|metas| - 1], files);
    }
  }

  /** The views agree after any run of messages, whatever names collide, even a package named like a type. */
  lemma {:induction false} ViewsAgree(links: Links, ds: seq<Delivery>)
    requires Mirrored(links)
    ensures Mirrored(LinkAll(links, ds))
  {
    if ds != [] {
      var d := ds[|ds| - 1];
      ViewsAgree(links, ds[..|ds| - 1]);
      LinkItemsMirror(LinkAll(links, ds[..|ds| - 1]), d.msg.kind, d.msg.metas, d.files);
    }
  }

  /** After an add that finds its file, the item has a link in both views; after a remove it has none. */
  lemma ItemHasBothLinks(links: Links, kind: int, m: Meta, files: map<string, nat>)
    requires Mirrored(links) && HasLinks(m)
    ensures var r := LinkItem(links, kind, m, files);
      && ((kind == 0 || kind == 1) && m.path in files ==> ByPackage(m) in r && ByType(m) in r && r[ByPackage(m)] == r[ByType(m)])
      && (kind == 2 ==> ByPackage(m) !in r && ByType(m) !in r)
  {
    LinkItemMirrors(links, kind, m, files);
  }

  // ---- which links there are ----

  predicate NamesPlace(m: Meta, p: Place) {
    HasLinks(m) && (p == ByPackage(m) || p == ByType(m))
  }

  /** What one item does to any place: its own two are linked or emptied, every other one is as before. */
  lemma LinkItemAt(links: Links, kind: int, m: Meta, files: map<string, nat>, p: Place)
    ensures var r := LinkItem(links, kind, m, files); var own := NamesPlace(m, p);
      && (p in r <==>
            if own && kind == 2 then false
            else p in links || (own && kind in {0, 1} && m.path in files))
      && (p in r ==> r[p] == if p in links then links[p] else files[m.path])
  {
  }

  /** The same for the places of others alone: they keep their links. */
  lemma OtherLinksKept(links: Links, kind: int, m: Meta, files: map<string, nat>, p: Place)
    requires p != ByPackage(m) && p != ByType(m)
    ensures var r := LinkItem(links, kind, m, files); (p in r <==> p in links) && (p in r ==> r[p] == links[p])
  {
  }

  datatype LinkStep = LinkStep(kind: int, m: Meta, files: map<string, nat>)

  function StepsOf(kind: int, metas: seq<Meta>, files: map<string, nat>): (r: seq<LinkStep>)
    ensures |r| == |metas| && forall i | 0 <= i < |metas| :: r[i] == LinkStep(kind, metas[i], files)
  {
    seq(|metas|, i requires 0 <= i < |metas| => LinkStep(kind, metas[i], files))
  }

  /** The items of a run, one by one. */
  function Steps(ds: seq<Delivery>): seq<LinkStep> {
    if ds == [] then [] else
    var d := ds[|ds| - 1];
    Steps(ds[..|ds| - 1]) + StepsOf(d.msg.kind, d.msg.metas, d.files)
  }

  function LinkRun(links: Links, steps: seq<LinkStep>): Links {
    if steps == [] then links else
    var st := steps[|steps| - 1];
    LinkItem(LinkRun(links, steps[..|steps| - 1]), st.kind, st.m, st.files)
  }

  lemma {:induction false} LinkRunConcat(links: Links, a: seq<LinkStep>, b: seq<LinkStep>)
    ensures LinkRun(links, a + b) == LinkRun(LinkRun(links, a), b)
    decreases |b|
  {
    if b == [] {
      assert a + b == a;
    } else {
      assert (a + b)[..|a + b| - 1] == a + b[..|b| - 1];
      LinkRunConcat(links, a, b[..|b| - 1]);
    }
  }

  lemma {:induction false} LinkItemsIsRun(links: Links, kind: int, metas: seq<Meta>, files: map<string, nat>)
    ensures LinkItems(links, kind, metas, files) == LinkRun(links, StepsOf(kind, metas, files))
  {
    if metas != [] {
      var n := |metas| - 1;
      LinkItemsIsRun(links, kind, metas[..n], files);
      assert StepsOf(kind, metas, files)[..n] == StepsOf(kind, metas[..n], files);
    }
  }

  lemma {:induction false} LinkAllIsRun(links: Links, ds: seq<Delivery>)
    ensures LinkAll(links, ds) == LinkRun(links, Steps(ds))
  {
    if ds != [] {
      var d := ds[|ds| - 1];
      LinkAllIsRun(links, ds[..|ds| - 1]);
      LinkItemsIsRun(LinkAll(links, ds[..|ds| - 1]), d.msg.kind, d.msg.metas, d.files);
      LinkRunConcat(links, Steps(ds[..|ds| - 1]), StepsOf(d.msg.kind, d.msg.metas, d.files));
    }
  }

  /** An add that names the place and finds its file; a delete that names the place. */
  predicate Makes(st: LinkStep, p: Place) {
    st.kind in {0, 1} && NamesPlace(st.m, p) && st.m.path in st.files
  }

  predicate Breaks(st: LinkStep, p: Place) {
    st.kind == 2 && NamesPlace(st.m, p)
  }

  /** No later item breaks what item `i` made. */
  ghost predicate Standing(steps: seq<LinkStep>, p: Place, i: int) {
    0 <= i < |steps| && Makes(steps[i], p) && forall j | i < j < |steps| :: !Breaks(steps[j], p)
  }

  /** Item `i` found the place free: whatever was made there before had been broken. */
  ghost predicate FoundFree(steps: seq<LinkStep>, p: Place, i: int)
    requires i <= |steps|
  {
    forall j | 0 <= j < i && Makes(steps[j], p) :: exists k :: j < k < i && Breaks(steps[k], p)
  }

  ghost predicate MadeBy(steps: seq<LinkStep>, p: Place, i: int) {
    Standing(steps, p, i) && FoundFree(steps, p, i)
  }

  lemma MadeByOne(steps: seq<LinkStep>, p: Place, i: int, j: int)
    requires MadeBy(steps, p, i) && MadeBy(steps, p, j)
    ensures i == j
  {
  }

  lemma {:induction false} RunLinked(steps: seq<LinkStep>, p: Place)
    ensures var r := LinkRun(map[], steps);
      && (p in r ==> exists i :: MadeBy(steps, p, i) && r[p] == steps[i].files[steps[i].m.path])
      && (p !in r ==> NoneStanding(steps, p))
  {
    if steps != [] {
      var n := |steps| - 1;
      var init, st := steps[..n], steps[n];
      assert steps == init + [st];
      var before, r := LinkRun(map[], init), LinkRun(map[], steps);
      RunLinked(init, p);
      LinkItemAt(before, st.kind, st.m, st.files, p);
      if p in before && p in r {
        var i :| MadeBy(init, p, i) && before[p] == init[i].files[init[i].m.path];
        StillMadeBy(init, st, p, i);
      } else if p in r {
        FirstMadeBy(init, st, p);
      } else {
        forall i | 0 <= i < |steps| ensures !Standing(steps, p, i) {
          if Standing(steps, p, i) && i < n { StandingBefore(steps, p, i); }
        }
      }
    }
  }

  lemma StandingBefore(steps: seq<LinkStep>, p: Place, i: int)
    requires Standing(steps, p, i) && i < |steps| - 1
    ensures Standing(steps[..|steps| - 1], p, i) && !Breaks(steps[|steps| - 1], p)
  {
  }

  lemma BreaksStay(init: seq<LinkStep>, st: LinkStep, p: Place, j: int, i: int)
    requires 0 <= j < i <= |init| && exists k :: j < k < i && Breaks(init[k], p)
    ensures exists k :: j < k < i && Breaks((init + [st])[k], p)
  {
    var k :| j < k < i && Breaks(init[k], p);
    assert (init + [st])[k] == init[k];
  }

  lemma StillMadeBy(init: seq<LinkStep>, st: LinkStep, p: Place, i: int)
    requires MadeBy(init, p, i) && !Breaks(st, p)
    ensures MadeBy(init + [st], p, i)
  {
    var steps := init + [st];
    forall j | 0 <= j < i && Makes(steps[j], p) ensures exists k :: j < k < i && Breaks(steps[k], p) {
      assert steps[j] == init[j];
      BreaksStay(init, st, p, j, i);
    }
  }

  ghost predicate NoneStanding(steps: seq<LinkStep>, p: Place) {
    forall i | 0 <= i < |steps| :: !Standing(steps, p, i)
  }

  lemma FirstMadeBy(init: seq<LinkStep>, st: LinkStep, p: Place)
    requires Makes(st, p) && NoneStanding(init, p)
    ensures MadeBy(init + [st], p, |init|)
  {
    var steps := init + [st];
    forall j | 0 <= j < |init| && Makes(steps[j], p) ensures exists k :: j < k < |init| && Breaks(steps[k], p) {
      assert steps[j] == init[j] && !Standing(init, p, j);
      BreaksStay(init, st, p, j, |init|);
    }
  }

  /**
   After any messages a place is linked exactly when some add that names it found its file and no later delete names
   it; the link names the inode that the first such add, after the last delete, found.
   */
  lemma LinkedIff(ds: seq<Delivery>, p: Place)
    ensures var r := LinkAll(map[], ds); var steps := Steps(ds);
      && (p in r <==> exists i :: Standing(steps, p, i))
      && (forall i | MadeBy(steps, p, i) :: p in r && r[p] == steps[i].files[steps[i].m.path])
  {
    var steps := Steps(ds);
    LinkAllIsRun(map[], ds);
    RunLinked(steps, p);
    forall i | MadeBy(steps, p, i)
      ensures p in LinkAll(map[], ds) && LinkAll(map[], ds)[p] == steps[i].files[steps[i].m.path]
    {
      var j :| MadeBy(steps, p, j) && LinkAll(map[], ds)[p] == steps[j].files[steps[j].m.path];
      MadeByOne(steps, p, i, j);
    }
  }

  // ---- names and classes ----

  lemma {:induction false} FirstPartOf(t: string, rest: string)
    requires t != "" && '/' !in t && (rest == "" || rest[0] == '/')
    ensures FirstPart(t + rest) == t
    ensures FirstPart("/" + (t + rest)) == t
  {
    assert (t + rest)[0] == t[0] && t[0] in t;
    UpToSlashOf(t, rest);
    assert ("/" + (t + rest))[1..] == t + rest;
  }

  lemma {:induction false} UpToSlashOf(t: string, rest: string)
    requires '/' !in t && (rest == "" || rest[0] == '/')
    ensures UpToSlash(t + rest) == t
  {
    if t == "" {
      assert t + rest == rest;
    } else {
      assert (t + rest)[0] == t[0] && t[0] in t && (t + rest)[1..] == t[1..] + rest;
      UpToSlashOf(t[1..], rest);
    }
  }

  /** The file name is what follows the last slash, a slash at the very end not counted. */
  lemma LastPartOf(dir: string, name: string)
    requires name != "" && '/' !in name && (dir == "" || dir[|dir| - 1] == '/')
    ensures LastPart(dir + name) == name && LastPart(dir + name + "/") == name
  {
    var s := dir + name;
    assert s[|s| - 1] == name[|name| - 1] && name[|name| - 1] in name;
    FromSlashOf(dir, name);
    assert (s + "/")[..|s + "/"| - 1] == s;
  }

  lemma {:induction false} FromSlashOf(dir: string, name: string)
    requires '/' !in name && (dir == "" || dir[|dir| - 1] == '/')
    ensures FromSlash(dir + name) == name
    decreases |name|
  {
    var s := dir + name;
    if name == "" {
      assert s == dir;
    } else {
      var n := |name| - 1;
      assert s[|s| - 1] == name[n] && name[n] in name && s[..|s| - 1] == dir + name[..n];
      FromSlashOf(dir, name[..n]);
    }
  }

  /** The five directories, by the main type of the mime type. */
  lemma FileTypeOf(sub: string)
    ensures FileType("audio" + "/" + sub) == "音乐"
    ensures FileType("video" + "/" + sub) == "视频"
    ensures FileType("image" + "/" + sub) == "图片"
    ensures FileType("application" + "/" + sub) == "文档"
    ensures FileType("text" + "/" + sub) == "文档"
  {
    MainTypeOf("audio", sub);
    MainTypeOf("video", sub);
    MainTypeOf("image", sub);
    MainTypeOf("application", sub);
    MainTypeOf("text", sub);
  }

  lemma OtherFileType(t: string, sub: string)
    requires t != "" && '/' !in t && t !in {"audio", "video", "image", "application", "text"}
    ensures FileType(t + "/" + sub) == "其他"
  {
    MainTypeOf(t, sub);
  }

  lemma MainTypeOf(t: string, sub: string)
    requires t != "" && '/' !in t
    ensures FirstPart(t + "/" + sub) == t
  {
    FirstPartOf(t, "/" + sub);
    assert t + "/" + sub == t + ("/" + sub);
  }

  /** Where the two links of a file stand. */
  lemma PlacesOf(pkg: string, t: string, sub: string, dir: string, name: string)
    requires name != "" && '/' !in name
    ensures var m := Meta(dir + "/" + name, t + "/" + sub, pkg);
      ByPackage(m) == [pkg, FileType(m.mime), name] && ByType(m) == [FileType(m.mime), pkg, name]
  {
    LastPartOf(dir + "/", name);
  }

  /** A word without a slash stands in a mime type iff it stands in its main type or in its subtype. */
  lemma HasAcrossSlash(t: string, sub: string, w: string)
    requires w != "" && '/' !in w
    ensures Has(t + "/" + sub, w) <==> Has(t, w) || Has(sub, w)
  {
    var s := t + "/" + sub;
    HasWithin("", t, "/" + sub, w);
    assert "" + t + ("/" + sub) == s;
    HasWithin(t + "/", sub, "", w);
    assert t + "/" + sub + "" == s;
    if i :| 0 <= i <= |s| - |w| && StandsAt(s, w, i) {
      NoSlashThere(s, w, i);
      assert s[|t|] == '/';
      if i + |w| <= |t| {
        assert s[i..i + |w|] == t[i..i + |w|];
        assert StandsAt(t, w, i);
      } else {
        var j := i - |t| - 1;
        assert s[i..i + |w|] == sub[j..j + |w|];
        assert StandsAt(sub, w, j);
      }
    }
  }

  lemma HasWithin(a: string, s: string, b: string, w: string)
    ensures Has(s, w) ==> Has(a + s + b, w)
  {
    if i :| 0 <= i <= |s| - |w| && StandsAt(s, w, i) {
      var r := a + s + b;
      var j := |a| + i;
      assert forall k | i <= k < i + |w| :: s[k] == r[|a| + k];
      assert r[j..j + |w|] == s[i..i + |w|];
      assert StandsAt(r, w, j);
    }
  }

  lemma NoSlashThere(s: string, w: string, i: int)
    requires 0 <= i <= |s| - |w| && StandsAt(s, w, i) && '/' !in w
    ensures forall k | i <= k < i + |w| :: s[k] != '/'
  {
    forall k | i <= k < i + |w| ensures s[k] != '/' {
      assert s[i..i + |w|][k - i] == s[k] && w[k - i] in w;
    }
  }

  predicate Neutral(sub: string) {
    !Has(sub, "image") && !Has(sub, "video") && !Has(sub, "audio") && !Has(sub, "application") && !Has(sub, "text")
  }

  /** With a subtype that has none of the five words the main type alone decides. */
  lemma ClassOfMainType(t: string, sub: string)
    requires Neutral(sub)
    ensures ClassOf(t + "/" + sub) == ClassOf(t)
  {
    HasAcrossSlash(t, sub, "image");
    HasAcrossSlash(t, sub, "video");
    HasAcrossSlash(t, sub, "audio");
    HasAcrossSlash(t, sub, "application");
    HasAcrossSlash(t, sub, "text");
  }

  lemma HasItself(w: string)
    ensures Has(w, w)
  {
    assert w[0..0 + |w|] == w;
    assert StandsAt(w, w, 0);
  }

  lemma ShorterHasNot(s: string, w: string)
    requires |s| < |w| || (|s| == |w| && s != w)
    ensures !Has(s, w)
  {
    assert s[0..|s|] == s;
  }

  /** The lists of the main types. */
  lemma ClassOfKnown()
    ensures ClassOf("image") == Image && ClassOf("video") == Video && ClassOf("audio") == Audio
    ensures ClassOf("application") == ClassOf("text") == Document && ClassOf("font") == Other
  {
    HasItself("image");
    HasItself("video");
    HasItself("audio");
    HasItself("application");
    HasItself("text");
    ShorterHasNot("video", "image");
    ShorterHasNot("audio", "image");
    ShorterHasNot("audio", "video");
    ShorterHasNot("text", "image");
    ShorterHasNot("text", "video");
    ShorterHasNot("text", "audio");
    ShorterHasNot("font", "image");
    ShorterHasNot("font", "video");
    ShorterHasNot("font", "audio");
    ShorterHasNot("font", "application");
    ShorterHasNot("font", "text");
    ApplicationHasNone();
  }

  /** The letters m, v and d are not in it. */
  lemma ApplicationHasNone()
    ensures !Has("application", "image") && !Has("application", "video") && !Has("application", "audio")
  {
    HasAllLetters("application", "image", 1);
    HasAllLetters("application", "video", 0);
    HasAllLetters("application", "audio", 2);
  }

  lemma HasAllLetters(s: string, w: string, k: nat)
    requires k < |w| && w[k] !in s
    ensures !Has(s, w)
  {
    forall i | 0 <= i <= |s| - |w| ensures !StandsAt(s, w, i) {
      assert s[i..i + |w|][k] == s[i + k] && s[i + k] in s;
    }
  }

  function UriOf(c: Class): string {
    match c
    case Image => "kmre:///picture"
    case Video => "kmre:///video"
    case Audio => "kmre:///audio"
    case Document => "kmre:///document"
    case Other => "kmre:///other"
  }

  /** An insert or a delete is announced once for each item, with the whole message, and leaves the counters alone. */
  lemma EditsEmit(s: State, msg: Message)
    requires msg.kind == 1 || msg.kind == 2
    ensures var r := Receive(s, msg); var n := |msg.metas|;
      r.total == s.total && r.current == s.current && r.emitted == s.emitted + Times(Emission(msg.kind, msg.metas), n)
  {
    EditItemsEmit(s, Emission(msg.kind, msg.metas), msg.metas);
  }

  /** A message of any other type changes nothing. */
  lemma {:induction false} OtherTypesIgnored(s: State, msg: Message)
    requires msg.kind !in {0, 1, 2}
    ensures Receive(s, msg) == s
  {
    ItemsIgnored(s, Emission(msg.kind, msg.metas), msg.metas);
  }

  lemma {:induction false} ItemsIgnored(s: State, e: Emission, metas: seq<Meta>)
    requires e.kind !in {0, 1, 2}
    ensures Items(s, e, metas) == s
  {
    if metas != [] { ItemsIgnored(s, e, metas[..|metas| - 1]); }
  }

  lemma {:induction false} EditItemsEmit(s: State, e: Emission, metas: seq<Meta>)
    requires e.kind == 1 || e.kind == 2
    ensures var r := Items(s, e, metas);
      r.total == s.total && r.current == s.current && r.emitted == s.emitted + Times(e, |metas|)
  {
    var n := |metas|;
    if n == 0 {
      assert s.emitted + Times(e, 0) == s.emitted;
    } else {
      EditItemsEmit(s, e, metas[..n - 1]);
      assert s.emitted + Times(e, n - 1) + [e] == s.emitted + Times(e, n);
    }
  }

  lemma NextItem(s: State, links: Links, e: Emission, k: nat, files: map<string, nat>)
    requires k < |e.metas|
    ensures Items(s, e, e.metas[..k + 1]) == Item(Items(s, e, e.metas[..k]), e, e.metas[k])
    ensures LinkItems(links, e.kind, e.metas[..k + 1], files) ==
      LinkItem(LinkItems(links, e.kind, e.metas[..k], files), e.kind, e.metas[k], files)
  {
    assert e.metas[..k + 1][..k] == e.metas[..k];
  }

  // ---- the manager ----

  class ControlManager {
    var m_imageMetas: seq<Meta>
    var m_videoMetas: seq<Meta>
    var m_audioMetas: seq<Meta>
    var m_documentMetas: seq<Meta>
    var m_otherMetas: seq<Meta>
    var m_totalNum: int
    var m_currentNum: int
    var emitted: seq<Emission>   // calls of filesMessage
    var links: Links          // the files below KmreData

    /** The counters are taken to start at 0; the constructor of the source does not set them. */
    constructor ()
      ensures Now() == State(NO_FILES, 0, 0, []) && links == map[]
    {
      m_imageMetas, m_videoMetas, m_audioMetas, m_documentMetas, m_otherMetas := [], [], [], [], [];
      m_totalNum, m_currentNum, emitted, links := 0, 0, [], map[];
    }

    function Now(): State
      reads this
    {
      State(Lists(m_imageMetas, m_videoMetas, m_audioMetas, m_documentMetas, m_otherMetas),
            m_totalNum, m_currentNum, emitted)
    }

    method OnSyncFiles(kind: int, metas: seq<Meta>, totalNum: int, files: map<string, nat>)
      requires forall m | m in metas :: HasParts(m)
      modifies this
      ensures Now() == Receive(old(Now()), Message(kind, metas, totalNum))
      ensures (forall m | m in metas :: Plain(m)) ==> links == LinkItems(old(links), kind, metas, files)
    {
      if kind == 0 {
        StartBatch(|metas|, totalNum);
      }
      ghost var started := Now();
      ghost var before := links;
      for k := 0 to |metas|
        invariant Now() == Items(started, Emission(kind, metas), metas[..k])
        invariant (forall m | m in metas :: Plain(m)) ==> links == LinkItems(before, kind, metas[..k], files)
      {
        NextItem(started, before, Emission(kind, metas), k, files);
        SyncItem(kind, metas, metas[k], files);
      }
      assert metas[..|metas|] == metas;
    }

    /** The head of a type-0 message: the first batch of a dump clears the lists. */
    method StartBatch(n: nat, totalNum: int)
      modifies this
      ensures Now() == Begin(old(Now()), 0, n, totalNum) && links == old(links)
    {
      m_totalNum := totalNum;
      if m_currentNum == 0 {
        m_imageMetas, m_videoMetas, m_audioMetas, m_documentMetas, m_otherMetas := [], [], [], [], [];
      }
      m_currentNum := m_currentNum + n;
    }

    /** One turn of the loop over the items. */
    method SyncItem(kind: int, metas: seq<Meta>, meta: Meta, files: map<string, nat>)
      requires HasParts(meta)
      modifies this
      ensures Now() == Item(old(Now()), Emission(kind, metas), meta)
      ensures Plain(meta) ==> links == LinkItem(old(links), kind, meta, files)
    {
      if kind == 0 || kind == 1 {
        AddMeta(meta);
        if kind == 0 {
          if m_currentNum >= m_totalNum {
            emitted := emitted + [Emission(kind, metas)];
            m_totalNum := 0;
            m_currentNum := 0;
          }
        } else {
          emitted := emitted + [Emission(kind, metas)];
        }
        MakeLinks(meta, files);
      } else if kind == 2 {
        RemoveMeta(meta);
        emitted := emitted + [Emission(kind, metas)];
        RemoveLinks(meta);
      }
    }

    /** The chain of tests on the mime type, for an item to add. */
    method AddMeta(meta: Meta)
      modifies this`m_imageMetas, this`m_videoMetas, this`m_audioMetas, this`m_documentMetas, this`m_otherMetas
      ensures Now() == old(Now()).(lists := old(Now()).lists.Add(meta))
    {
      if Has(meta.mime, "image") {
        if !HasPath(m_imageMetas, meta.path) { m_imageMetas := m_imageMetas + [meta]; }
      } else if Has(meta.mime, "video") {
        if !HasPath(m_videoMetas, meta.path) { m_videoMetas := m_videoMetas + [meta]; }
      } else if Has(meta.mime, "audio") {
        if !HasPath(m_audioMetas, meta.path) { m_audioMetas := m_audioMetas + [meta]; }
      } else if Has(meta.mime, "application") || Has(meta.mime, "text") {
        if !HasPath(m_documentMetas, meta.path) { m_documentMetas := m_documentMetas + [meta]; }
      } else {
        if !HasPath(m_otherMetas, meta.path) { m_otherMetas := m_otherMetas + [meta]; }
      }
    }

    method RemoveMeta(meta: Meta)
      modifies this`m_imageMetas, this`m_videoMetas, this`m_audioMetas, this`m_documentMetas, this`m_otherMetas
      ensures Now() == old(Now()).(lists := old(Now()).lists.Remove(meta))
    {
      if Has(meta.mime, "image") {
        m_imageMetas := RemoveFirst(m_imageMetas, meta.path);
      } else if Has(meta.mime, "video") {
        m_videoMetas := RemoveFirst(m_videoMetas, meta.path);
      } else if Has(meta.mime, "audio") {
        m_audioMetas := RemoveFirst(m_audioMetas, meta.path);
      } else if Has(meta.mime, "application") || Has(meta.mime, "text") {
        m_documentMetas := RemoveFirst(m_documentMetas, meta.path);
      } else {
        m_otherMetas := RemoveFirst(m_otherMetas, meta.path);
      }
    }

    /** The search over a copy of the list that stops at the first item with the path. */
    static method RemoveFirst(l: seq<Meta>, path: string) returns (r: seq<Meta>)
      ensures r == RemoveFrom(l, path)
    {
      var k := 0;
      while k < |l|
        invariant k <= |l|
        invariant RemoveFrom(l, path) == l[..k] + RemoveFrom(l[k..], path)
      {
        assert l[k..][1..] == l[k + 1..];
        if l[k].path == path {
          return l[..k] + l[k + 1..];
        }
        assert l[..k] + [l[k]] == l[..k + 1];
        k := k + 1;
      }
      return l;
    }

    method MakeLinks(meta: Meta, files: map<string, nat>)
      requires HasParts(meta)
      modifies this`links
      ensures Plain(meta) ==> links == LinkItem(old(links), 1, meta, files)
    {
      if meta.pkg != "" && meta.mime != "" {
        links := Link(links, ByPackage(meta), meta, files);
        links := Link(links, ByType(meta), meta, files);
      }
    }

    method RemoveLinks(meta: Meta)
      requires HasParts(meta)
      modifies this`links
      ensures Plain(meta) ==> links == LinkItem(old(links), 2, meta, map[])
    {
      if meta.pkg != "" && meta.mime != "" {
        if ByPackage(meta) in links { links := links - {ByPackage(meta)}; }
        if ByType(meta) in links { links := links - {ByType(meta)}; }
      }
    }

    /** A query with the uri of a class shows its list, any other nothing. */
    function GetAllFiles(uri: string): (r: seq<Meta>)
      reads this
      ensures forall c :: uri == UriOf(c) ==> r == Now().lists.Get(c)
      ensures (forall c :: uri != UriOf(c)) ==> r == []
    {
      assert UriOf(Image) == "kmre:///picture" && UriOf(Video) == "kmre:///video" && UriOf(Audio) == "kmre:///audio";
      assert UriOf(Document) == "kmre:///document" && UriOf(Other) == "kmre:///other";
      if uri == "kmre:///picture" then m_imageMetas
      else if uri == "kmre:///video" then m_videoMetas
      else if uri == "kmre:///audio" then m_audioMetas
      else if uri == "kmre:///document" then m_documentMetas
      else if uri == "kmre:///other" then m_otherMetas
      else []
    }

    /** Empty exactly when no query can show a file. */
    predicate FilesIsEmpty()
      reads this
      ensures FilesIsEmpty() <==> forall uri :: GetAllFiles(uri) == []
    {
      assert GetAllFiles("kmre:///picture") == m_imageMetas && GetAllFiles("kmre:///video") == m_videoMetas;
      assert GetAllFiles("kmre:///audio") == m_audioMetas && GetAllFiles("kmre:///document") == m_documentMetas;
      assert GetAllFiles("kmre:///other") == m_otherMetas;
      m_imageMetas == [] && m_videoMetas == [] && m_audioMetas == [] && m_documentMetas == [] && m_otherMetas == []
    }
  }
}
