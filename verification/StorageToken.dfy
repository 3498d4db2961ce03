/**
 The storage check: one token per storage path goes round between the main thread and the path's worker.

 The main thread emits checkStorage, a worker polls the mount state until it differs from what it was told, and its
 statusChanged makes the main thread look again and emit the next checkStorage. The signal is connected to every
 worker, so each emission reaches all of them, and a worker ignores what is not for its own path.
 */
module StorageToken {
  import opened Base
  import opened Paths

  datatype Check = Check(path: Path, fuseMounted: bool)

  /** `polling` is the argument of the doCheck call that runs, if one does. */
  datatype Worker = Worker(inbox: seq<Check>, polling: Option<bool>)

  /** What QStorageInfo says: whether the storage is valid and ready, and whether it is the fuse mount. */
  datatype Sample = Sample(ready: bool, fuse: bool)

  datatype State = State(
    table: set<Path>,             // the keys of mHashStorage
    workers: map<Path, Worker>,   // the workers that run has made so far
    status: seq<Path>,            // statusChanged signals the main thread has not handled
    // history, read by no step
    seen: map<Path, Sample>       // what the main thread found at its last look
  )

  datatype Step =
    | RunOne(path: Path, sample: Sample)     // one turn of the storage loop in run
    | Take(path: Path)                       // a worker takes the next check from its inbox
    | Poll(path: Path, sample: Sample)       // one turn of its polling loop
    | StatusChanged(sample: Sample)          // the main thread handles the next statusChanged

  function Mounted(x: Sample): bool {
    x.ready && x.fuse
  }

  /** emit checkStorage: a copy for every worker that is connected. */
  function Emit(workers: map<Path, Worker>, c: Check): (r: map<Path, Worker>)
    ensures r.Keys == workers.Keys
  {
    map p | p in workers :: workers[p].(inbox := workers[p].inbox + [c])
  }

  predicate Enabled(s: State, l: Step) {
    match l
    case RunOne(p, _) => p in s.table && p !in s.workers
    case Take(p) => p in s.workers && s.workers[p].polling.None? && s.workers[p].inbox != []
    case Poll(p, _) => p in s.workers && s.workers[p].polling.Some?
    case StatusChanged(_) => s.workers.Keys == s.table && s.status != []
  }

  function Post(s: State, l: Step): State
    requires Enabled(s, l)
  {
    match l
    case RunOne(p, x) =>
      s.(workers := Emit(s.workers[p := Worker([], None)], Check(p, Mounted(x))), seen := s.seen[p := x])
    case Take(p) =>
      var w := s.workers[p];
      var c := w.inbox[0];
      s.(workers := s.workers[p := Worker(w.inbox[1..], if c.path == p then Some(c.fuseMounted) else None)])
    case Poll(p, x) =>
      var w := s.workers[p];
      if !x.ready || x.fuse != w.polling.value
      then s.(workers := s.workers[p := w.(polling := None)], status := s.status + [p])
      else s
    case StatusChanged(x) =>
      var p := s.status[0];
      if p in s.table
      then s.(status := s.status[1..], workers := Emit(s.workers, Check(p, Mounted(x))), seen := s.seen[p := x])
      else s.(status := s.status[1..])
  }

  function CountFor(inbox: seq<Check>, p: Path): nat {
    if inbox == [] then 0 else CountFor(inbox[..|inbox| - 1], p) + if inbox[|inbox| - 1].path == p then 1 else 0
  }

  function CountPath(status: seq<Path>, p: Path): nat {
    multiset(status)[p]
  }

  /** The places the token of a path can be in: checks on their way, a running poll, statusChanged on its way. */
  function Tokens(s: State, p: Path): nat
    requires p in s.workers
  {
    CountFor(s.workers[p].inbox, p) + (if s.workers[p].polling.Some? then 1 else 0) + CountPath(s.status, p)
  }

  /** Whatever a worker is told, or was told, about its own path is what the main thread found last. */
  ghost predicate Informed(s: State, p: Path)
    requires p in s.workers
  {
    && p in s.seen
    && (forall c | c in s.workers[p].inbox && c.path == p :: c.fuseMounted == Mounted(s.seen[p]))
    && (s.workers[p].polling.Some? ==> s.workers[p].polling.value == Mounted(s.seen[p]))
  }

  ghost predicate Inv(s: State) {
    && s.workers.Keys <= s.table
    && (forall p | p in s.workers :: Tokens(s, p) == 1)
    && (forall p | p in s.status :: p in s.workers)
    && (forall p | p in s.workers :: Informed(s, p))
  }

  ghost predicate Init(s: State) {
    s.workers == map[] && s.status == [] && s.seen == map[]
  }

  ghost predicate Run(s: State, ls: seq<Step>, end: State)
    decreases |ls|
  {
    if ls == [] then s == end else Enabled(s, ls[0]) && Run(Post(s, ls[0]), ls[1..], end)
  }

  lemma CountSnoc(inbox: seq<Check>, c: Check, p: Path)
    ensures CountFor(inbox + [c], p) == CountFor(inbox, p) + if c.path == p then 1 else 0
  {
    assert (inbox + [c])[..|inbox|] == inbox;
  }

  lemma {:induction false} CountHead(inbox: seq<Check>, p: Path)
    requires inbox != []
    ensures CountFor(inbox, p) == (if inbox[0].path == p then 1 else 0) + CountFor(inbox[1..], p)
  {
    var n := |inbox| - 1;
    if n == 0 {
      assert inbox[..0] == [] && inbox[1..] == [];
    } else {
      CountHead(inbox[..n], p);
      assert inbox[..n][1..] == inbox[1..][..n - 1];
      assert inbox[1..][n - 1] == inbox[n];
    }
  }

  lemma CountTail(status: seq<Path>, p: Path)
    requires status != []
    ensures CountPath(status, p) == (if status[0] == p then 1 else 0) + CountPath(status[1..], p)
  {
    assert status == [status[0]] + status[1..];
  }

  lemma StepKeepsTokens(s: State, l: Step)
    requires Inv(s) && Enabled(s, l)
    ensures var t := Post(s, l); forall p | p in t.workers :: Tokens(t, p) == 1
  {
    var t := Post(s, l);
    forall p | p in t.workers ensures Tokens(t, p) == 1 {
      match l
      case RunOne(q, x) =>
        CountSnoc(if p == q then [] else s.workers[p].inbox, Check(q, Mounted(x)), p);
      case Take(q) =>
        CountHead(s.workers[q].inbox, q);
      case Poll(q, x) =>
      case StatusChanged(x) =>
        CountTail(s.status, p);
        CountSnoc(s.workers[p].inbox, Check(s.status[0], Mounted(x)), p);
    }
  }

  lemma {:induction false} NoneCounted(inbox: seq<Check>, p: Path)
    requires CountFor(inbox, p) == 0
    ensures forall c | c in inbox :: c.path != p
  {
    if inbox != [] { NoneCounted(inbox[..|inbox| - 1], p); }
  }

  /** While the main thread handles a path's status, no check for that path is about and its worker does not poll. */
  lemma StatusHasToken(s: State)
    requires Inv(s) && s.status != []
    ensures var p := s.status[0];
      p in s.workers && s.workers[p].polling.None? && forall c | c in s.workers[p].inbox :: c.path != p
  {
    var p := s.status[0];
    assert Tokens(s, p) == 1;
    CountTail(s.status, p);
    NoneCounted(s.workers[p].inbox, p);
  }

  lemma StepKeepsInformed(s: State, l: Step)
    requires Inv(s) && Enabled(s, l)
    ensures var t := Post(s, l); forall p | p in t.workers :: Informed(t, p)
  {
    var t := Post(s, l);
    if l.StatusChanged? { StatusHasToken(s); }
    forall p | p in t.workers ensures Informed(t, p) {
      if p in s.workers { assert Informed(s, p); }
    }
  }

  lemma StepKeepsInv(s: State, l: Step)
    requires Inv(s) && Enabled(s, l)
    ensures Inv(Post(s, l))
  {
    StepKeepsTokens(s, l);
    StepKeepsInformed(s, l);
  }

  lemma {:induction false} InvAlways(s: State, ls: seq<Step>, end: State)
    requires Inv(s) && Run(s, ls, end)
    ensures Inv(end)
    decreases |ls|
  {
    if ls != [] {
      StepKeepsInv(s, ls[0]);
      InvAlways(Post(s, ls[0]), ls[1..], end);
    }
  }

  ghost predicate InFlight(s: State, p: Path) {
    p in s.workers && CountFor(s.workers[p].inbox, p) > 0
  }

  predicate Polling(s: State, p: Path) {
    p in s.workers && s.workers[p].polling.Some?
  }

  /**
   In every reachable state after run has started a path, exactly one of the three holds for it, and its signals are
   never doubled: a check is on its way to its worker, the worker polls, or statusChanged is on its way back.
   */
  lemma OneTokenPerPath(s: State, ls: seq<Step>, end: State, p: Path)
    requires Init(s) && Run(s, ls, end) && p in end.workers
    ensures InFlight(end, p) || Polling(end, p) || p in end.status
    ensures !(InFlight(end, p) && Polling(end, p)) && !(InFlight(end, p) && p in end.status)
    ensures !(Polling(end, p) && p in end.status)
    ensures CountFor(end.workers[p].inbox, p) <= 1 && CountPath(end.status, p) <= 1
  {
    InvAlways(s, ls, end);
    assert Tokens(end, p) == 1;
    assert p in end.status <==> CountPath(end.status, p) > 0;
  }

  /** The check never stops: once run is through, some step of the protocol can always be taken. */
  lemma TokenCanMove(s: State, ls: seq<Step>, end: State, p: Path) returns (l: Step)
    requires Init(s) && Run(s, ls, end) && p in end.workers && end.workers.Keys == end.table
    ensures Enabled(end, l) && (l.Take? || l.Poll? || l.StatusChanged?)
  {
    OneTokenPerPath(s, ls, end, p);
    if Polling(end, p) {
      l := Poll(p, Sample(false, false));
    } else if InFlight(end, p) {
      l := Take(p);
    } else {
      l := StatusChanged(Sample(false, false));
    }
  }

  /** The history is what it says: the sample of the main thread's last step on the path, and nothing else changes it. */
  lemma SeenIsLastLook(s: State, l: Step, p: Path)
    requires Enabled(s, l)
    ensures var t := Post(s, l);
      match l
      case RunOne(q, x) => if p == q then p in t.seen && t.seen[p] == x else (p in t.seen <==> p in s.seen) && (p in s.seen ==> t.seen[p] == s.seen[p])
      case StatusChanged(x) =>
        if p == s.status[0] && p in s.table then p in t.seen && t.seen[p] == x
        else (p in t.seen <==> p in s.seen) && (p in s.seen ==> t.seen[p] == s.seen[p])
      case Take(_) => t.seen == s.seen
      case Poll(_, _) => t.seen == s.seen
  {
  }

  /**
   In every reachable state, a look of a polling worker ends in statusChanged exactly when the storage is not ready or
   its mount state is not the one that the main thread found at its own last look.
   */
  lemma PollEndsOnChange(s: State, ls: seq<Step>, now: State, p: Path, x: Sample)
    requires Init(s) && Run(s, ls, now) && Enabled(now, Poll(p, x))
    ensures p in now.seen
    ensures var was := now.seen[p].ready && now.seen[p].fuse;
      && (p in Post(now, Poll(p, x)).status <==> !x.ready || x.fuse != was)
      && (Polling(Post(now, Poll(p, x)), p) <==> x.ready && x.fuse == was)
  {
    InvAlways(s, ls, now);
    assert Tokens(now, p) == 1 && Informed(now, p);
  }
}
