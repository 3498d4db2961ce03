/**
 The four recursive mutexes of the inotify service, and why its threads cannot deadlock.

 A guard is a scope, so a thread's locks form a stack. `Code` lists what each kind of thread may do next at each
 point; the state records the action a thread is committed to, so that a thread waiting for a lock is really stuck. The
 destructor also waits for the two threads of the service to end; it may not hold a lock then.
 */
module LockOrder {
  // mWatcherLock, mListLock, FileInotifyWatcher::mLock, and the static lock of getInstance
  datatype Lock = WatcherLock | ListLock | IndexLock | InstanceLock

  datatype Action = Internal | Acquire(lock: Lock) | Release | Join

  /** Any number of threads may ask for a recursive watch; one reads events; one passes over the list. */
  datatype Role = Caller | Reader | Lister

  datatype Pc = Idle | Scan | ScanIndex | ScanList | Lookup | Pass | Instance | Done

  datatype Thread = Thread(role: Role, pc: Pc, held: seq<Lock>, next: Action, to: Pc)

  type State = seq<Thread>

  /** The lock actions of the source, function by function. */
  predicate Code(role: Role, pc: Pc, a: Action, to: Pc) {
    match pc
    case Idle =>
      || (a == Internal && (to == Idle || to == Done))
      || (!role.Lister? && a == Acquire(WatcherLock) && to == Scan)     // addWatchRecursively, addNotifyFile
      || (!role.Lister? && a == Acquire(IndexLock) && to == Lookup)     // watchedPathFromWd, removeWatch; cleanup
      || (role.Lister? && a == Acquire(ListLock) && to == Pass)         // loopList
      || (role.Caller? && a == Acquire(InstanceLock) && to == Instance) // getInstance
      || (role.Caller? && a == Join && to == Idle)                      // wait, in the destructor
    case Scan =>
      || (a == Internal && to == Scan)
      || (a == Acquire(IndexLock) && to == ScanIndex)                   // addWatchLocked
      || (a == Acquire(ListLock) && to == ScanList)                     // addNotifyFileLocked
      || (a == Release && to == Idle)
    case ScanIndex => (a == Internal && to == pc) || (a == Release && to == Scan)
    case ScanList => (a == Internal && to == pc) || (a == Release && to == Scan)
    case Lookup => (a == Internal && to == pc) || (a == Release && to == Idle)
    case Pass => (a == Internal && to == pc) || (a == Release && to == Idle)
    case Instance => (a == Internal && to == pc) || (a == Release && to == Idle)
    case Done => false
  }

  /** A recursive mutex: free, or already held by the thread itself. */
  ghost predicate Free(s: State, i: int, l: Lock)
    requires 0 <= i < |s|
  {
    forall j | 0 <= j < |s| && j != i :: l !in s[j].held
  }

  ghost predicate CanStep(s: State, i: int) {
    && 0 <= i < |s|
    && s[i].pc != Done
    && (s[i].next.Acquire? ==> Free(s, i, s[i].next.lock))
    && (s[i].next.Join? ==> forall j | 0 <= j < |s| && !s[j].role.Caller? :: s[j].pc == Done)
  }

  function HeldAfter(held: seq<Lock>, a: Action): seq<Lock> {
    match a
    case Internal => held
    case Acquire(l) => held + [l]
    case Release => if held == [] then [] else held[..|held| - 1]
    case Join => held
  }

  /** Thread `i` does its action and commits to a next one. */
  ghost predicate Step(s: State, i: int, t: State) {
    && CanStep(s, i)
    && |t| == |s|
    && (forall j | 0 <= j < |s| && j != i :: t[j] == s[j])
    && t[i].role == s[i].role
    && t[i].pc == s[i].to
    && t[i].held == HeldAfter(s[i].held, s[i].next)
    && (t[i].pc != Done ==> Code(t[i].role, t[i].pc, t[i].next, t[i].to))
  }

  ghost predicate Init(s: State) {
    forall i | 0 <= i < |s| :: s[i].pc == Idle && s[i].held == [] && Code(s[i].role, Idle, s[i].next, s[i].to)
  }

  ghost predicate Run(s: State, who: seq<int>, states: seq<State>, end: State) {
    && |states| == |who| + 1 && states[0] == s && states[|who|] == end
    && forall k | 0 <= k < |who| :: Step(states[k], who[k], states[k + 1])
  }

  // ---- the general argument ----

  function Rank(l: Lock): nat {
    match l case WatcherLock => 0 case ListLock => 1 case IndexLock => 2 case InstanceLock => 3
  }

  /**
   Every lock that a thread waits for ranks above the ones it holds, unless it holds it already; and only a caller
   that holds none waits for threads to end.
   */
  ghost predicate Ordered(t: Thread) {
    && (t.pc != Done && t.next.Acquire? ==>
          t.next.lock in t.held || forall l | l in t.held :: Rank(l) < Rank(t.next.lock))
    && (t.pc != Done && t.next.Join? ==> t.role.Caller? && t.held == [])
  }

  /** Who holds a lock has not finished. */
  ghost predicate Running(t: Thread) {
    t.held != [] ==> t.pc != Done
  }

  ghost predicate Exclusive(s: State) {
    forall i, j, l | 0 <= i < |s| && 0 <= j < |s| && l in s[i].held && l in s[j].held :: i == j
  }

  /** Thread `i` is stuck on a lock that thread `j` holds. */
  ghost predicate WaitsForLock(s: State, i: int, j: int) {
    && 0 <= i < |s| && 0 <= j < |s| && i != j
    && s[i].pc != Done && s[i].next.Acquire? && s[i].next.lock in s[j].held
  }

  /** Thread `i` waits for thread `j`: for a lock, or for its end. */
  ghost predicate WaitsFor(s: State, i: int, j: int) {
    || WaitsForLock(s, i, j)
    || (0 <= i < |s| && 0 <= j < |s| && s[i].pc != Done && s[i].next.Join? && !s[j].role.Caller? && s[j].pc != Done)
  }

  /** Threads that wait for each other, from thread `i` on; the last one is not stuck. */
  ghost predicate ChainEnds(s: State, i: int, chain: seq<int>) {
    && chain != [] && chain[0] == i
    && (forall m | 0 <= m < |chain| - 1 :: WaitsFor(s, chain[m], chain[m + 1]))
    && CanStep(s, chain[|chain| - 1])
  }

  /** The lock waited for gets a higher rank along the chain of holders, so the chain ends. */
  lemma {:induction false} HoldersEnd(s: State, i: int) returns (chain: seq<int>)
    requires Exclusive(s) && forall j | 0 <= j < |s| :: Ordered(s[j]) && Running(s[j])
    requires 0 <= i < |s| && s[i].pc != Done
    ensures ChainEnds(s, i, chain)
    decreases if s[i].next.Join? then 5 else if s[i].next.Acquire? then 4 - Rank(s[i].next.lock) else 0
  {
    if CanStep(s, i) {
      chain := [i];
    } else if s[i].next.Join? {
      var j :| 0 <= j < |s| && !s[j].role.Caller? && s[j].pc != Done;
      assert WaitsFor(s, i, j) && Ordered(s[j]);
      var rest := HoldersEnd(s, j);
      chain := [i] + rest;
    } else {
      var j :| 0 <= j < |s| && j != i && s[i].next.lock in s[j].held;
      assert WaitsFor(s, i, j);
      if CanStep(s, j) {
        chain := [i, j];
      } else {
        assert Ordered(s[j]);
        assert s[j].next.lock !in s[j].held;
        var rest := HoldersEnd(s, j);
        chain := [i] + rest;
      }
    }
  }

  /** A lock has one holder, so the chain of a stuck thread is the only one: waiting in a circle is impossible. */
  lemma OneHolder(s: State, i: int, j: int, k: int)
    requires Exclusive(s) && WaitsForLock(s, i, j) && WaitsForLock(s, i, k)
    ensures j == k
  {
    assert s[i].next.lock in s[j].held && s[i].next.lock in s[k].held;
  }

  // ---- the code meets it ----

  /** The guards in scope at each point. */
  function HeldAt(pc: Pc): seq<Lock> {
    match pc
    case Idle => []
    case Scan => [WatcherLock]
    case ScanIndex => [WatcherLock, IndexLock]
    case ScanList => [WatcherLock, ListLock]
    case Lookup => [IndexLock]
    case Pass => [ListLock]
    case Instance => [InstanceLock]
    case Done => []
  }

  ghost predicate ThreadOk(t: Thread) {
    t.held == HeldAt(t.pc) && (t.pc != Done ==> Code(t.role, t.pc, t.next, t.to))
  }

  ghost predicate Inv(s: State) {
    (forall i | 0 <= i < |s| :: ThreadOk(s[i])) && Exclusive(s)
  }

  lemma CodeIsOrdered(t: Thread)
    requires ThreadOk(t)
    ensures Ordered(t) && Running(t)
    ensures t.pc != Done ==> HeldAfter(t.held, t.next) == HeldAt(t.to)
  {
  }

  lemma StepKeepsInv(s: State, i: int, t: State)
    requires Inv(s) && Step(s, i, t)
    ensures Inv(t)
  {
    CodeIsOrdered(s[i]);
    forall j | 0 <= j < |t| ensures ThreadOk(t[j]) {
      assert ThreadOk(s[j]);
    }
    forall l | l in t[i].held ensures forall j | 0 <= j < |t| && j != i :: l !in t[j].held {
      if l !in s[i].held {
        assert s[i].next == Acquire(l) && Free(s, i, l);
      }
    }
  }

  lemma {:induction false} InvAlways(s: State, who: seq<int>, states: seq<State>, k: nat)
    requires Init(s) && |states| == |who| + 1 && states[0] == s && k <= |who|
    requires forall j | 0 <= j < |who| :: Step(states[j], who[j], states[j + 1])
    ensures Inv(states[k])
  {
    if k > 0 {
      InvAlways(s, who, states, k - 1);
      StepKeepsInv(states[k - 1], who[k - 1], states[k]);
    }
  }

  /**
   In every reachable state each thread that has not finished can do the action it is committed to, or waits, over
   a chain of threads, for one that can. A lock has a unique holder, and nobody waits for the end of a caller, so no
   circle of waiting threads exists.
   */
  lemma NoDeadlock(s: State, who: seq<int>, states: seq<State>, end: State, i: int) returns (chain: seq<int>)
    requires Init(s) && Run(s, who, states, end) && 0 <= i < |end| && end[i].pc != Done
    ensures ChainEnds(end, i, chain)
    ensures forall a, j, k | WaitsForLock(end, a, j) && WaitsForLock(end, a, k) :: j == k
  {
    InvAlways(s, who, states, |who|);
    forall j | 0 <= j < |end| ensures Ordered(end[j]) && Running(end[j]) {
      CodeIsOrdered(end[j]);
    }
    chain := HoldersEnd(end, i);
    forall a, j, k | WaitsForLock(end, a, j) && WaitsForLock(end, a, k) ensures j == k {
      OneHolder(end, a, j, k);
    }
  }

  /** The locks do exclude: two threads never scan, look up or pass over the list together. */
  lemma MutualExclusion(s: State, who: seq<int>, states: seq<State>, end: State, i: int, j: int, l: Lock)
    requires Init(s) && Run(s, who, states, end) && 0 <= i < |end| && 0 <= j < |end|
    requires l in HeldAt(end[i].pc) && l in HeldAt(end[j].pc)
    ensures i == j
  {
    InvAlways(s, who, states, |who|);
    assert ThreadOk(end[i]) && ThreadOk(end[j]);
  }

  predicate Scanning(pc: Pc) {
    pc == Scan || pc == ScanIndex || pc == ScanList
  }

  /**
   What that means for the data: no two threads scan together; nobody appends to the list while another passes over it
   or appends; nobody reads or edits the index while another does.
   */
  lemma DataExclusion(s: State, who: seq<int>, states: seq<State>, end: State, i: int, j: int)
    requires Init(s) && Run(s, who, states, end) && 0 <= i < |end| && 0 <= j < |end| && i != j
    ensures !(Scanning(end[i].pc) && Scanning(end[j].pc))
    ensures !(end[i].pc in {ScanList, Pass} && end[j].pc in {ScanList, Pass})
    ensures !(end[i].pc in {ScanIndex, Lookup} && end[j].pc in {ScanIndex, Lookup})
    ensures !(end[i].pc == Instance && end[j].pc == Instance)
  {
    InvAlways(s, who, states, |who|);
    assert ThreadOk(end[i]) && ThreadOk(end[j]);
    if Scanning(end[i].pc) && Scanning(end[j].pc) { MutualExclusion(s, who, states, end, i, j, WatcherLock); }
    if end[i].pc in {ScanList, Pass} && end[j].pc in {ScanList, Pass} { MutualExclusion(s, who, states, end, i, j, ListLock); }
    if end[i].pc in {ScanIndex, Lookup} && end[j].pc in {ScanIndex, Lookup} {
      MutualExclusion(s, who, states, end, i, j, IndexLock);
    }
    if end[i].pc == Instance && end[j].pc == Instance { MutualExclusion(s, who, states, end, i, j, InstanceLock); }
  }
}
