/**
 The list of files to announce: the watcher appends, and a second thread passes over the list ten times a second.

 A pass holds `mListLock` from its first entry to its last, so appends fall between passes. Each entry is dropped
 when its file is gone, remembered with its new size when that changed, and submitted when it did not. The size
 is kept in an `int`: `info.size = sb.st_size` keeps the low 32 bits of the file's 64-bit size.
 */
module NotifyQueue {
  import opened Base
  import opened Paths

  datatype NotifyFileInfo = NotifyFileInfo(path: Path, size: int)

  /** What stat and, if it is asked, the service answer for one entry during a pass. */
  datatype Obs = Gone | Stat(size: nat, up: bool)

  datatype Fate = Stay | Vanish | Submit

  function FateOf(info: NotifyFileInfo, o: Obs): Fate {
    if o.Gone? then Vanish else if o.size != info.size || !o.up then Stay else Submit
  }

  function Update(info: NotifyFileInfo, o: Obs): NotifyFileInfo {
    if o.Stat? && o.size != info.size then info.(size := ToInt(o.size)) else info
  }

  // ---- the history of the queue ----

  /** An entry with its place in the order of appends and the sizes the passes have seen. */
  datatype Tracked = Tracked(id: nat, info: NotifyFileInfo, seen: seq<nat>) {
    function See(o: Obs): Tracked {
      Tracked(id, Update(info, o), if o.Gone? then seen else seen + [o.size])
    }
  }

  datatype Queue = Queue(appended: seq<Path>, pending: seq<Tracked>, vanished: seq<Tracked>, submitted: seq<Tracked>)

  /** The entries of one fate in a pass, in list order. */
  function Pick(ts: seq<Tracked>, obs: seq<Obs>, fate: Fate): (r: seq<Tracked>)
    requires |ts| == |obs|
    ensures |r| <= |ts|
  {
    if ts == [] then [] else
    var n := |ts| - 1;
    Pick(ts[..n], obs[..n], fate) + if FateOf(ts[n].info, obs[n]) == fate then [ts[n].See(obs[n])] else []
  }

  datatype Op = Append(path: Path) | Pass(obs: seq<Obs>)

  predicate Fits(q: Queue, op: Op) {
    op.Pass? ==> |op.obs| == |q.pending|
  }

  function Apply(q: Queue, op: Op): Queue
    requires Fits(q, op)
  {
    match op
    case Append(path) =>
      q.(appended := q.appended + [path],
         pending := q.pending + [Tracked(|q.appended|, NotifyFileInfo(path, -1), [])])
    case Pass(obs) =>
      q.(pending := Pick(q.pending, obs, Stay),
         vanished := q.vanished + Pick(q.pending, obs, Vanish),
         submitted := q.submitted + Pick(q.pending, obs, Submit))
  }

  const EMPTY := Queue([], [], [], [])

  ghost predicate Run(q: Queue, ops: seq<Op>, end: Queue)
    decreases |ops|
  {
    if ops == [] then q == end else Fits(q, ops[0]) && Run(Apply(q, ops[0]), ops[1..], end)
  }

  function Ids(ts: seq<Tracked>): (r: seq<nat>)
    ensures |r| == |ts| && forall i | 0 <= i < |ts| :: r[i] == ts[i].id
  {
    seq(|ts|, i requires 0 <= i < |ts| => ts[i].id)
  }

  ghost function AllIds(q: Queue): multiset<nat> {
    multiset(Ids(q.pending)) + multiset(Ids(q.vanished)) + multiset(Ids(q.submitted))
  }

  /** Every append is in exactly one place, once. */
  ghost predicate Conserved(q: Queue) {
    forall id: nat :: AllIds(q)[id] == if id < |q.appended| then 1 else 0
  }

  ghost predicate InOrder(ts: seq<Tracked>) {
    forall i, j | 0 <= i < j < |ts| :: ts[i].id < ts[j].id
  }

  /** The entry is the one appended under its id, and its size field is what the last pass left there. */
  ghost predicate Sound(q: Queue, t: Tracked) {
    && t.id < |q.appended| && q.appended[t.id] == t.info.path
    && t.info.size == if t.seen == [] then -1 else ToInt(t.seen[|t.seen| - 1])
  }

  /** The last two sizes that a submitted entry showed. */
  ghost predicate Stable(t: Tracked) {
    && |t.seen| >= 2
    && t.seen[|t.seen| - 1] == ToInt(t.seen[|t.seen| - 2])
  }

  ghost predicate Inv(q: Queue) {
    && Conserved(q)
    && InOrder(q.pending)
    && (forall t | t in q.pending :: Sound(q, t))
    && (forall t | t in q.vanished :: Sound(q, t))
    && (forall t | t in q.submitted :: Sound(q, t) && Stable(t))
  }

  lemma IdsConcat(a: seq<Tracked>, b: seq<Tracked>)
    ensures Ids(a + b) == Ids(a) + Ids(b)
    ensures multiset(Ids(a + b)) == multiset(Ids(a)) + multiset(Ids(b))
  {
    assert Ids(a + b) == Ids(a) + Ids(b);
  }

  lemma PickSnoc(ts: seq<Tracked>, obs: seq<Obs>, t: Tracked, o: Obs, fate: Fate)
    requires |ts| == |obs|
    ensures Pick(ts + [t], obs + [o], fate) ==
      Pick(ts, obs, fate) + if FateOf(t.info, o) == fate then [t.See(o)] else []
  {
    assert (ts + [t])[..|ts|] == ts && (obs + [o])[..|obs|] == obs;
  }

  lemma PickIdsSnoc(ts: seq<Tracked>, obs: seq<Obs>, t: Tracked, o: Obs, fate: Fate)
    requires |ts| == |obs|
    ensures multiset(Ids(Pick(ts + [t], obs + [o], fate))) ==
      multiset(Ids(Pick(ts, obs, fate))) + if FateOf(t.info, o) == fate then multiset{t.id} else multiset{}
  {
    PickSnoc(ts, obs, t, o, fate);
    var before, last := Pick(ts, obs, fate), [t.See(o)];
    assert Ids(last) == [t.id];
    if FateOf(t.info, o) == fate {
      IdsConcat(before, last);
    } else {
      assert before + [] == before;
    }
  }

  ghost function PickedIds(ts: seq<Tracked>, obs: seq<Obs>): multiset<nat>
    requires |ts| == |obs|
  {
    multiset(Ids(Pick(ts, obs, Stay))) + multiset(Ids(Pick(ts, obs, Vanish))) + multiset(Ids(Pick(ts, obs, Submit)))
  }

  lemma PickedIdsSnoc(ts: seq<Tracked>, obs: seq<Obs>, t: Tracked, o: Obs)
    requires |ts| == |obs|
    ensures PickedIds(ts + [t], obs + [o]) == PickedIds(ts, obs) + multiset{t.id}
  {
    PickIdsSnoc(ts, obs, t, o, Stay);
    PickIdsSnoc(ts, obs, t, o, Vanish);
    PickIdsSnoc(ts, obs, t, o, Submit);
  }

  /** A pass splits the list three ways and loses nothing. */
  lemma {:induction false} PickPartitions(ts: seq<Tracked>, obs: seq<Obs>)
    requires |ts| == |obs|
    ensures PickedIds(ts, obs) == multiset(Ids(ts))
  {
    if ts != [] {
      var n := |ts| - 1;
      PickPartitions(ts[..n], obs[..n]);
      assert ts == ts[..n] + [ts[n]] && obs == obs[..n] + [obs[n]];
      PickedIdsSnoc(ts[..n], obs[..n], ts[n], obs[n]);
      IdsConcat(ts[..n], [ts[n]]);
      assert Ids([ts[n]]) == [ts[n].id];
    }
  }

  /** What a picked entry was, and what the pass saw of it. */
  lemma {:induction false} PickedFrom(ts: seq<Tracked>, obs: seq<Obs>, fate: Fate, t: Tracked) returns (i: nat)
    requires |ts| == |obs| && t in Pick(ts, obs, fate)
    ensures i < |ts| && FateOf(ts[i].info, obs[i]) == fate && t == ts[i].See(obs[i])
  {
    var n := |ts| - 1;
    if t in Pick(ts[..n], obs[..n], fate) {
      i := PickedFrom(ts[..n], obs[..n], fate, t);
    } else {
      i := n;
    }
  }

  lemma {:induction false} PickKeepsOrder(ts: seq<Tracked>, obs: seq<Obs>, fate: Fate)
    requires |ts| == |obs| && InOrder(ts)
    ensures InOrder(Pick(ts, obs, fate))
  {
    if ts != [] {
      var n := |ts| - 1;
      PickKeepsOrder(ts[..n], obs[..n], fate);
      forall t | t in Pick(ts[..n], obs[..n], fate) ensures t.id < ts[n].id {
        var i := PickedFrom(ts[..n], obs[..n], fate, t);
      }
    }
  }

  /** A submission, exactly: the size field, so the previous size as an int, equals the size seen now. */
  lemma SubmittedIff(q: Queue, t: Tracked, o: Obs)
    requires Sound(q, t)
    ensures FateOf(t.info, o) == Submit <==>
      o.Stat? && o.up && t.seen != [] && ToInt(t.seen[|t.seen| - 1]) == o.size
  {
  }

  lemma PassKeepsEntry(q: Queue, t: Tracked, o: Obs)
    requires Sound(q, t)
    ensures Sound(q, t.See(o))
    ensures FateOf(t.info, o) == Submit ==> Stable(t.See(o))
  {
    SubmittedIff(q, t, o);
  }

  lemma PassKeepsConserved(q: Queue, obs: seq<Obs>)
    requires Conserved(q) && |obs| == |q.pending|
    ensures Conserved(Apply(q, Pass(obs)))
  {
    var r := Apply(q, Pass(obs));
    PickPartitions(q.pending, obs);
    IdsConcat(q.vanished, Pick(q.pending, obs, Vanish));
    IdsConcat(q.submitted, Pick(q.pending, obs, Submit));
    assert AllIds(r) == AllIds(q);
  }

  lemma AppendKeepsConserved(q: Queue, path: Path)
    requires Conserved(q)
    ensures Conserved(Apply(q, Append(path)))
  {
    var r := Apply(q, Append(path));
    var last := [Tracked(|q.appended|, NotifyFileInfo(path, -1), [])];
    IdsConcat(q.pending, last);
    assert Ids(last) == [|q.appended|];
    assert AllIds(r) == AllIds(q) + multiset{|q.appended|};
  }

  /** Every entry picked in a pass keeps its place in the history, and a submitted one was stable. */
  lemma PickedAreSound(q: Queue, obs: seq<Obs>, fate: Fate)
    requires Inv(q) && |obs| == |q.pending|
    ensures forall t | t in Pick(q.pending, obs, fate) :: Sound(q, t) && (fate == Submit ==> Stable(t))
  {
    forall t | t in Pick(q.pending, obs, fate) ensures Sound(q, t) && (fate == Submit ==> Stable(t)) {
      var i := PickedFrom(q.pending, obs, fate, t);
      assert q.pending[i] in q.pending;
      PassKeepsEntry(q, q.pending[i], obs[i]);
    }
  }

  lemma PassKeepsInv(q: Queue, obs: seq<Obs>)
    requires Inv(q) && |obs| == |q.pending|
    ensures Inv(Apply(q, Pass(obs)))
  {
    var r := Apply(q, Pass(obs));
    PassKeepsConserved(q, obs);
    PickKeepsOrder(q.pending, obs, Stay);
    PickedAreSound(q, obs, Stay);
    PickedAreSound(q, obs, Vanish);
    PickedAreSound(q, obs, Submit);
    assert forall t | Sound(q, t) :: Sound(r, t);
  }

  lemma AppendKeepsInv(q: Queue, path: Path)
    requires Inv(q)
    ensures Inv(Apply(q, Append(path)))
  {
    var r := Apply(q, Append(path));
    AppendKeepsConserved(q, path);
    assert forall t | Sound(q, t) :: Sound(r, t);
    forall i | 0 <= i < |q.pending| ensures q.pending[i].id < |q.appended| {
      assert q.pending[i] in q.pending;
    }
  }

  lemma ApplyKeepsInv(q: Queue, op: Op)
    requires Inv(q) && Fits(q, op)
    ensures Inv(Apply(q, op))
  {
    match op
    case Append(path) => AppendKeepsInv(q, path);
    case Pass(obs) => PassKeepsInv(q, obs);
  }

  lemma {:induction false} InvAlways(q: Queue, ops: seq<Op>, end: Queue)
    requires Inv(q) && Run(q, ops, end)
    ensures Inv(end)
    decreases |ops|
  {
    if ops != [] {
      ApplyKeepsInv(q, ops[0]);
      InvAlways(Apply(q, ops[0]), ops[1..], end);
    }
  }

  /**
   Over any interleaving of appends and passes: each append is pending, vanished or submitted, exactly one of them
   and once; what is pending stays in the order of the appends, under the path that was appended.
   */
  lemma NothingLostOrRepeated(q: Queue, ops: seq<Op>, id: nat)
    requires Run(EMPTY, ops, q)
    ensures AllIds(q)[id] == if id < |q.appended| then 1 else 0
    ensures InOrder(q.pending) && forall t | t in q.pending :: t.id < |q.appended| && q.appended[t.id] == t.info.path
  {
    InvAlways(EMPTY, ops, q);
  }

  /**
   A submitted file was below 2^31 bytes when it was submitted, and its size was then equal in two consecutive
   passes exactly when it was below 2^31 in the one before as well.
   */
  lemma SubmittedWasStableIff(q: Queue, ops: seq<Op>, t: Tracked)
    requires Run(EMPTY, ops, q) && t in q.submitted
    ensures |t.seen| >= 2 && t.seen[|t.seen| - 1] < TWO31
    ensures t.seen[|t.seen| - 2] == t.seen[|t.seen| - 1] <==> t.seen[|t.seen| - 2] < TWO31
  {
    InvAlways(EMPTY, ops, q);
  }

  lemma {:induction false} PickedIs(ts: seq<Tracked>, obs: seq<Obs>, fate: Fate, i: nat)
    requires |ts| == |obs| && i < |ts| && FateOf(ts[i].info, obs[i]) == fate
    ensures ts[i].See(obs[i]) in Pick(ts, obs, fate)
  {
    var n := |ts| - 1;
    if i < n { PickedIs(ts[..n], obs[..n], fate, i); }
  }

  /** Each append has one place in the list, so a pass gives one verdict on it. */
  lemma PickedOnce(q: Queue, obs: seq<Obs>, fate: Fate, i: nat)
    requires Inv(q) && |obs| == |q.pending| && i < |q.pending|
    ensures (exists t :: t in Pick(q.pending, obs, fate) && t.id == q.pending[i].id) <==>
      FateOf(q.pending[i].info, obs[i]) == fate
  {
    if FateOf(q.pending[i].info, obs[i]) == fate {
      PickedIs(q.pending, obs, fate, i);
      assert q.pending[i].See(obs[i]).id == q.pending[i].id;
    }
    if t :| t in Pick(q.pending, obs, fate) && t.id == q.pending[i].id {
      var k := PickedFrom(q.pending, obs, fate, t);
      assert k == i;
    }
  }

  /** Entry `id` leaves the list in this pass and is submitted. */
  ghost predicate SubmitsNow(q: Queue, obs: seq<Obs>, id: nat)
    requires |obs| == |q.pending|
  {
    exists t :: t in Pick(q.pending, obs, Submit) && t.id == id
  }

  /** An entry of the list is not among the ones that are done. */
  lemma OnlyPending(q: Queue, i: nat)
    requires Inv(q) && i < |q.pending|
    ensures forall t | t in q.vanished || t in q.submitted :: t.id != q.pending[i].id
  {
    var id := q.pending[i].id;
    assert Ids(q.pending)[i] == id && id in multiset(Ids(q.pending));
    assert q.pending[i] in q.pending;
    assert AllIds(q)[id] == 1;
    forall t | t in q.vanished ensures t.id != id {
      var k :| 0 <= k < |q.vanished| && q.vanished[k] == t;
      assert Ids(q.vanished)[k] in multiset(Ids(q.vanished));
    }
    forall t | t in q.submitted ensures t.id != id {
      var k :| 0 <= k < |q.submitted| && q.submitted[k] == t;
      assert Ids(q.submitted)[k] in multiset(Ids(q.submitted));
    }
  }

  ghost predicate Holds(ts: seq<Tracked>, id: nat) {
    exists t :: t in ts && t.id == id
  }

  /**
   The verdict of a pass on any entry of any reachable queue. It vanishes exactly when its file is gone. It is submitted
   exactly when the file is there, the service is up, and the size is what the pass before noted. Otherwise it stays,
   also when it is stable and the service is down, and the size seen now is noted.
   */
  lemma PassVerdict(q: Queue, ops: seq<Op>, i: nat, obs: seq<Obs>)
    requires Run(EMPTY, ops, q) && i < |q.pending| && |obs| == |q.pending|
    ensures var r := Apply(q, Pass(obs)); var t := q.pending[i]; var o := obs[i];
      var stable := o.Stat? && t.seen != [] && ToInt(t.seen[|t.seen| - 1]) == o.size;
      && (Holds(r.vanished, t.id) <==> o.Gone?)
      && (Holds(r.submitted, t.id) <==> stable && o.up)
      && (Holds(r.pending, t.id) <==> o.Stat? && !(stable && o.up))
      && (Holds(r.pending, t.id) ==>
            Tracked(t.id, NotifyFileInfo(t.info.path, ToInt(o.size)), t.seen + [o.size]) in r.pending)
  {
    var t, o := q.pending[i], obs[i];
    InvAlways(EMPTY, ops, q);
    assert t in q.pending;
    SubmittedIff(q, t, o);
    OnlyPending(q, i);
    PickedHolds(q, obs, Stay, i);
    PickedHolds(q, obs, Vanish, i);
    PickedHolds(q, obs, Submit, i);
    HoldsConcat(q.vanished, Pick(q.pending, obs, Vanish), t.id);
    HoldsConcat(q.submitted, Pick(q.pending, obs, Submit), t.id);
    if FateOf(t.info, o) == Stay { PickedIs(q.pending, obs, Stay, i); }
  }

  lemma PickedHolds(q: Queue, obs: seq<Obs>, fate: Fate, i: nat)
    requires Inv(q) && |obs| == |q.pending| && i < |q.pending|
    ensures Holds(Pick(q.pending, obs, fate), q.pending[i].id) <==> FateOf(q.pending[i].info, obs[i]) == fate
  {
    PickedOnce(q, obs, fate, i);
  }

  lemma HoldsConcat(a: seq<Tracked>, b: seq<Tracked>, id: nat)
    ensures Holds(a + b, id) <==> Holds(a, id) || Holds(b, id)
  {
    if t :| t in a && t.id == id { assert t in a + b; }
    if t :| t in b && t.id == id { assert t in a + b; }
  }

  /** In any reachable queue an entry that no pass has seen stays, with its size noted, when it is first looked at. */
  lemma FirstLook(q: Queue, ops: seq<Op>, i: nat, obs: seq<Obs>, size: nat) returns (j: nat)
    requires Run(EMPTY, ops, q) && i < |q.pending| && q.pending[i].seen == []
    requires |obs| == |q.pending| && obs[i].Stat? && obs[i].size == size
    ensures var next := Apply(q, Pass(obs));
      && Inv(next) && j < |next.pending|
      && next.pending[j] == Tracked(q.pending[i].id, NotifyFileInfo(q.pending[i].info.path, ToInt(size)), [size])
  {
    InvAlways(EMPTY, ops, q);
    assert q.pending[i] in q.pending;
    var t := q.pending[i].See(obs[i]);
    assert [] + [size] == [size];
    PickedIs(q.pending, obs, Stay, i);
    ApplyKeepsInv(q, Pass(obs));
    j :| 0 <= j < |Pick(q.pending, obs, Stay)| && Pick(q.pending, obs, Stay)[j] == t;
  }

  /**
   A file of constant size, among any others in any reachable queue, with the service up: it is submitted at its
   second pass exactly when it is below 2^31 bytes.
   */
  lemma ConstantSizeSubmittedIff(q: Queue, ops: seq<Op>, i: nat, first: seq<Obs>, size: nat) returns (j: nat)
    requires Run(EMPTY, ops, q) && i < |q.pending| && q.pending[i].seen == []
    requires |first| == |q.pending| && first[i] == Stat(size, true)
    ensures var next := Apply(q, Pass(first));
      && j < |next.pending| && next.pending[j].id == q.pending[i].id
      && !SubmitsNow(q, first, q.pending[i].id)
      && forall second: seq<Obs> | |second| == |next.pending| && second[j] == Stat(size, true) ::
           SubmitsNow(next, second, q.pending[i].id) <==> size < TWO31
  {
    InvAlways(EMPTY, ops, q);
    assert q.pending[i] in q.pending;
    j := FirstLook(q, ops, i, first, size);
    PickedOnce(q, first, Submit, i);
    var next := Apply(q, Pass(first));
    forall second: seq<Obs> | |second| == |next.pending| && second[j] == Stat(size, true)
      ensures SubmitsNow(next, second, q.pending[i].id) <==> size < TWO31
    {
      PickedOnce(next, second, Submit, j);
    }
  }

  lemma PickOne(t: Tracked, o: Obs)
    ensures forall f :: Pick([t], [o], f) == if FateOf(t.info, o) == f then [t.See(o)] else []
  {
    forall f ensures Pick([t], [o], f) == if FateOf(t.info, o) == f then [t.See(o)] else [] {
      assert [t][..0] == [] && [o][..0] == [];
      assert Pick([t][..0], [o][..0], f) == [];
    }
  }

  /** However often it is passed over, an entry is not submitted while its file has 2^31 bytes or more. */
  lemma BigFileNeverSubmitted(q: Queue, ops: seq<Op>, i: nat, o: Obs)
    requires Run(EMPTY, ops, q) && i < |q.pending| && o.Stat? && TWO31 <= o.size
    ensures FateOf(q.pending[i].info, o) == Stay
  {
    InvAlways(EMPTY, ops, q);
    assert q.pending[i] in q.pending;
    SubmittedIff(q, q.pending[i], o);
  }

  /** The other failure: a file that shrinks by 2^32 bytes between two passes is taken for stable. */
  lemma ShrunkFileSubmitted(path: Path)
    ensures
      var q := Apply(Apply(EMPTY, Append(path)), Pass([Stat(TWO32 + 5, true)]));
      |q.pending| == 1 && Apply(q, Pass([Stat(5, true)])).submitted != []
  {
    var q0 := Apply(EMPTY, Append(path));
    PickOne(q0.pending[0], Stat(TWO32 + 5, true));
    var q := Apply(q0, Pass([Stat(TWO32 + 5, true)]));
    PickOne(q.pending[0], Stat(5, true));
  }

  // ---- the list itself ----

  function Infos(ts: seq<Tracked>): (r: seq<NotifyFileInfo>)
    ensures |r| == |ts| && forall i | 0 <= i < |ts| :: r[i] == ts[i].info
  {
    seq(|ts|, i requires 0 <= i < |ts| => ts[i].info)
  }

  /** The list during a pass that has looked at `k` entries: those that stayed, updated, then the rest. */
  ghost predicate Passed(list: seq<NotifyFileInfo>, ts: seq<Tracked>, obs: seq<Obs>, k: nat, i: nat)
    requires |ts| == |obs|
  {
    && k <= |ts|
    && i == |Pick(ts[..k], obs[..k], Stay)|
    && list == Infos(Pick(ts[..k], obs[..k], Stay)) + Infos(ts[k..])
  }

  lemma PassStart(ts: seq<Tracked>, obs: seq<Obs>)
    requires |ts| == |obs|
    ensures Passed(Infos(ts), ts, obs, 0, 0)
  {
    assert ts[..0] == [] && ts[0..] == ts && obs[..0] == [];
  }

  lemma PassAt(list: seq<NotifyFileInfo>, ts: seq<Tracked>, obs: seq<Obs>, k: nat, i: nat)
    requires |ts| == |obs| && Passed(list, ts, obs, k, i)
    ensures i <= |list| && (i < |list| <==> k < |ts|)
    ensures k < |ts| ==> list[i] == ts[k].info
  {
  }

  /** The list and the iterator's position after the entry at `at` was looked at. */
  function Looked(list: seq<NotifyFileInfo>, at: nat, o: Obs): (r: (seq<NotifyFileInfo>, nat))
    requires at < |list|
  {
    var was := list[at];
    if FateOf(was, o) == Stay then (list[at := Update(was, o)], at + 1) else (list[..at] + list[at + 1..], at)
  }

  lemma InfosSnoc(kept: seq<Tracked>, t: Tracked)
    ensures Infos(kept + [t]) == Infos(kept) + [t.info]
  {
  }

  /** The list around the entry at the iterator. */
  lemma PassSplit(list: seq<NotifyFileInfo>, ts: seq<Tracked>, obs: seq<Obs>, k: nat, i: nat)
    requires |ts| == |obs| && Passed(list, ts, obs, k, i) && k < |ts|
    ensures i < |list| && list[i] == ts[k].info
    ensures list[..i] == Infos(Pick(ts[..k], obs[..k], Stay)) && list[i + 1..] == Infos(ts[k + 1..])
  {
    PassAt(list, ts, obs, k, i);
  }

  lemma PassPick(ts: seq<Tracked>, obs: seq<Obs>, k: nat)
    requires |ts| == |obs| && k < |ts|
    ensures Pick(ts[..k + 1], obs[..k + 1], Stay) ==
      Pick(ts[..k], obs[..k], Stay) + if FateOf(ts[k].info, obs[k]) == Stay then [ts[k].See(obs[k])] else []
  {
    assert ts[..k + 1] == ts[..k] + [ts[k]] && obs[..k + 1] == obs[..k] + [obs[k]];
    PickSnoc(ts[..k], obs[..k], ts[k], obs[k], Stay);
  }

  /** Replacing or dropping the entry between two parts of a list. */
  lemma Between(list: seq<NotifyFileInfo>, i: nat, x: NotifyFileInfo)
    requires i < |list|
    ensures list[i := x] == (list[..i] + [x]) + list[i + 1..]
  {
  }

  lemma PassStep(list: seq<NotifyFileInfo>, ts: seq<Tracked>, obs: seq<Obs>, k: nat, i: nat)
    requires |ts| == |obs| && Passed(list, ts, obs, k, i) && k < |ts| && i < |list|
    ensures var r := Looked(list, i, obs[k]); Passed(r.0, ts, obs, k + 1, r.1)
  {
    PassSplit(list, ts, obs, k, i);
    PassPick(ts, obs, k);
    var kept := Pick(ts[..k], obs[..k], Stay);
    var t := ts[k].See(obs[k]);
    if FateOf(ts[k].info, obs[k]) == Stay {
      InfosSnoc(kept, t);
      Between(list, i, t.info);
      assert Looked(list, i, obs[k]) == (Infos(kept + [t]) + Infos(ts[k + 1..]), i + 1);
    } else {
      assert kept + [] == kept;
      assert Looked(list, i, obs[k]) == (Infos(kept) + Infos(ts[k + 1..]), i);
    }
  }

  lemma PassEnd(list: seq<NotifyFileInfo>, ts: seq<Tracked>, obs: seq<Obs>, k: nat, i: nat)
    requires |ts| == |obs| && Passed(list, ts, obs, k, i) && i >= |list|
    ensures list == Infos(Pick(ts, obs, Stay))
  {
    assert ts[..k] == ts && obs[..k] == obs;
    assert list == Infos(Pick(ts, obs, Stay)) + Infos(ts[k..]);
  }

  /** `mFileList` of the service, and the two places that touch it. */
  class FileList {
    var mFileList: seq<NotifyFileInfo>
    ghost var queue: Queue

    ghost predicate Valid()
      reads this
    {
      mFileList == Infos(queue.pending)
    }

    constructor ()
      ensures Valid() && queue == EMPTY
    {
      mFileList, queue := [], EMPTY;
    }

    /** The append of addNotifyFileLocked, for a path that passed the home-prefix and mime tests. */
    method Append(path: Path)
      requires Valid()
      modifies this
      ensures Valid() && queue == Apply(old(queue), Op.Append(path))
      ensures queue.appended == old(queue).appended + [path]
    {
      mFileList := mFileList + [NotifyFileInfo(path, -1)];
      queue := Apply(queue, Op.Append(path));
    }

    /** One turn of loopList. */
    method LoopOnce(obs: seq<Obs>)
      requires Valid() && |obs| == |mFileList|
      modifies this
      ensures Valid() && queue == Apply(old(queue), Op.Pass(obs))
    {
      Iterate(obs, queue.pending);
      queue := Apply(queue, Op.Pass(obs));
    }

    /** The pass itself: the mutable iterator stands before entry `i`; `k` entries have been looked at. */
    method Iterate(obs: seq<Obs>, ghost ts: seq<Tracked>)
      requires mFileList == Infos(ts) && |obs| == |ts|
      modifies this`mFileList
      ensures mFileList == Infos(Pick(ts, obs, Stay))
    {
      var i: nat, k: nat := 0, 0;
      PassStart(ts, obs);
      while i < |mFileList|
        invariant Passed(mFileList, ts, obs, k, i)
        decreases |ts| - k
      {
        PassAt(mFileList, ts, obs, k, i);
        PassStep(mFileList, ts, obs, k, i);
        i := LookAt(obs[k], i);
        k := k + 1;
      }
      PassEnd(mFileList, ts, obs, k, i);
    }

    /** The body of the loop, on the entry at `at`; the result is the iterator's new position. */
    method LookAt(o: Obs, at: nat) returns (i: nat)
      requires at < |mFileList|
      modifies this`mFileList
      ensures (mFileList, i) == Looked(old(mFileList), at, o)
    {
      i := at + 1;
      var info := mFileList[i - 1];
      if o.Gone? {
        i := i - 1;
        mFileList := mFileList[..i] + mFileList[i + 1..];
        return;
      }
      if o.size != info.size {
        info := info.(size := ToInt(o.size));
        mFileList := mFileList[i - 1 := info];
        return;
      }
      assert mFileList[i - 1 := info] == mFileList;
      if o.up {
        i := i - 1;
        mFileList := mFileList[..i] + mFileList[i + 1..];
      }
    }
  }
}
