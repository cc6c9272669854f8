/**
 The worker pool of `tcp/raft_tcp_server.cpp` as an interleaving transition system:
 any number of producers and workers over one job queue, one counting semaphore,
 one reader/writer lock, and nodes that carry a lock count and a deletion mark.

 A step is one action on shared state.  The reader/writer lock is ideal: who holds
 it is read off the threads.
 */
module JobPool {
  import opened RaftTypes

  /** The identity of one `RaftNode2` object; never reused. */
  type NodeId = nat

  datatype Node = Node(locks: int, marked: bool)

  datatype Kind = Connection | Incoming | Internal

  datatype Job = Job(kind: Kind, node: Option<NodeId>)

  /** What a thread holds while it produces a job.  A receiver that has checked a node may add
      other jobs before it counts its own reference: `Inside` remembers that node and the kind
      of its job, under the shared lock.  An exclusive holder also still refers
      to the node of the job it is working on, and `removed` are the nodes it has deleted
      since it took the lock. */
  datatype Hold =
    | Nothing
    | Shared
    | Inside(node: NodeId, kind: Kind)
    | Exclusive(ref: Option<NodeId>, removed: set<NodeId>)

  datatype Thread =
    // producers: listener, receivers, timer
    | Idle
    | Reading
    | Checked(node: NodeId, kind: Kind, hold: Hold)
    | Counted(job: Job, hold: Hold)
    | Queued(hold: Hold)
    // workers
    | Top
    | Woken
    | Got(job: Job)
    | WantShared(job: Job)
    | InShared(job: Job)
    | WantExclusive(job: Job)
    | InExclusive(job: Job)
    | Handling(ref: Option<NodeId>, removed: set<NodeId>)
    | Removing(node: NodeId, ref: Option<NodeId>, removed: set<NodeId>)
    | Exited

  datatype Pool = Pool(
    nodes: map<NodeId, Node>, freed: set<NodeId>, queue: seq<Job>, sem: nat, running: bool, threads: seq<Thread>)

  predicate HoldsExclusive(t: Thread) {
    match t
    case Checked(_, _, h) => h.Exclusive?
    case Counted(_, h) => h.Exclusive?
    case Queued(h) => h.Exclusive?
    case _ => t.InExclusive? || t.Handling? || t.Removing?
  }

  predicate HoldsShared(t: Thread) {
    match t
    case Checked(_, _, h) => h.Shared? || h.Inside?
    case Counted(_, h) => h.Shared? || h.Inside?
    case Queued(h) => h.Shared? || h.Inside?
    case _ => t.Reading? || t.InShared?
  }

  predicate NoWriter(p: Pool) { forall i :: 0 <= i < |p.threads| ==> !HoldsExclusive(p.threads[i]) }

  predicate NoReader(p: Pool) { forall i :: 0 <= i < |p.threads| ==> !HoldsShared(p.threads[i]) }

  /** The lock a thread holds at the point where it may call `AddJobForWorkerPrivate`. */
  function HoldOf(t: Thread): Hold {
    if t.Reading? then Shared
    else if t.Handling? then Exclusive(t.ref, t.removed)
    else if t.Checked? && t.hold.Shared? then Inside(t.node, t.kind)
    else Nothing
  }

  function Back(h: Hold): Thread {
    match h
    case Nothing => Idle
    case Shared => Reading
    case Inside(n, kind) => Checked(n, kind, Shared)
    case Exclusive(r, d) => Handling(r, d)
  }

  datatype Step =
    | LockForReading(i: nat) | UnlockReading(i: nat)
    | CheckMark(i: nat, n: NodeId, kind: Kind) | Abandon(i: nat) | IncrementLock(i: nat) | Compose(i: nat)
    | AddElement(i: nat) | Post(i: nat)
    | Wait(i: nat) | Extract(i: nat) | ExtractNothing(i: nat)
    | DropOnStop(i: nat) | SkipMarked(i: nat) | Dispatch(i: nat)
    | LockShared(i: nat) | GiveUp(i: nat) | Proceed(i: nat) | LockExclusive(i: nat) | DecrementLock(i: nat)
    | AddNode(i: nat, n: NodeId) | Mark(i: nat, n: NodeId) | Free(i: nat) | Unlock(i: nat)
    | Stop(posts: nat) | Leave(i: nat)

  function Moved(p: Pool, i: nat, t: Thread): Pool
    requires i < |p.threads|
  {
    p.(threads := p.threads[i := t])
  }

  function WithLocks(nodes: map<NodeId, Node>, n: NodeId, d: int): map<NodeId, Node>
    requires n in nodes
  {
    nodes[n := nodes[n].(locks := nodes[n].locks + d)]
  }

  /** The node of a job, if it has one, is released by one. */
  function Released(nodes: map<NodeId, Node>, job: Job): map<NodeId, Node> {
    if job.node.Some? && job.node.value in nodes then WithLocks(nodes, job.node.value, -1) else nodes
  }

  predicate IsMarked(p: Pool, job: Job) {
    job.node.Some? && job.node.value in p.nodes && p.nodes[job.node.value].marked
  }

  predicate Next(p: Pool, st: Step, q: Pool) {
    if st.Stop? then q == p.(running := false, sem := p.sem + st.posts)
    else st.i < |p.threads| && var t := p.threads[st.i];
      match st
      case LockForReading(i) => t.Idle? && NoWriter(p) && q == Moved(p, i, Reading)
      case UnlockReading(i) => t.Reading? && q == Moved(p, i, Idle)
      case CheckMark(i, n, kind) =>
        && (t.Reading? || t.Handling? || (t.Checked? && t.hold.Shared?)) && !kind.Connection?
        && n in p.nodes && !p.nodes[n].marked && q == Moved(p, i, Checked(n, kind, HoldOf(t)))
      case Abandon(i) => t.Checked? && q == Moved(p, i, Back(t.hold))
      case IncrementLock(i) =>
        && t.Checked? && t.node in p.nodes
        && q == Moved(p, i, Counted(Job(t.kind, Some(t.node)), t.hold)).(nodes := WithLocks(p.nodes, t.node, 1))
      case Compose(i) =>
        && (t.Idle? || t.Reading? || t.Handling? || (t.Checked? && t.hold.Shared?))
        && q == Moved(p, i, Counted(Job(if t.Idle? then Connection else Internal, None), HoldOf(t)))
      case AddElement(i) =>
        t.Counted? && q == Moved(p, i, Queued(t.hold)).(queue := p.queue + [t.job])
      case Post(i) => t.Queued? && q == Moved(p, i, Back(t.hold)).(sem := p.sem + 1)
      case Wait(i) => t.Top? && p.sem > 0 && q == Moved(p, i, Woken).(sem := p.sem - 1)
      case Extract(i) =>
        && t.Woken? && p.queue != []
        && q == Moved(p, i, Got(p.queue[0])).(queue := p.queue[1..])
      case ExtractNothing(i) => t.Woken? && p.queue == [] && q == Moved(p, i, Top)
      case DropOnStop(i) => t.Got? && !p.running && q == Moved(p, i, Top)
      case SkipMarked(i) => t.Got? && IsMarked(p, t.job) && q == Moved(p, i, Top).(nodes := Released(p.nodes, t.job))
      case Dispatch(i) =>
        && t.Got? && !IsMarked(p, t.job)
        && q == Moved(p, i, if t.job.kind.Incoming? then WantExclusive(t.job) else WantShared(t.job))
      case LockShared(i) => t.WantShared? && NoWriter(p) && q == Moved(p, i, InShared(t.job))
      case GiveUp(i) => t.InShared? && q == Moved(p, i, Woken).(nodes := Released(p.nodes, t.job))
      case Proceed(i) => t.InShared? && q == Moved(p, i, WantExclusive(t.job))
      case LockExclusive(i) => t.WantExclusive? && NoWriter(p) && NoReader(p) && q == Moved(p, i, InExclusive(t.job))
      case DecrementLock(i) =>
        t.InExclusive? && q == Moved(p, i, Handling(t.job.node, {})).(nodes := Released(p.nodes, t.job))
      case AddNode(i, n) =>
        t.Handling? && n !in p.nodes && n !in p.freed && q == p.(nodes := p.nodes[n := Node(0, false)])
      case Mark(i, n) =>
        && t.Handling? && n in p.nodes
        && q == Moved(p, i, Removing(n, t.ref, t.removed)).(nodes := p.nodes[n := p.nodes[n].(marked := true)])
      case Free(i) =>
        && t.Removing? && t.node in p.nodes && p.nodes[t.node].locks == 0
        && q == Moved(p, i, Handling(t.ref, t.removed + {t.node})).(
             nodes := p.nodes - {t.node}, freed := p.freed + {t.node})
      case Unlock(i) => t.Handling? && q == Moved(p, i, Woken)
      case Leave(i) => t.Top? && !p.running && q == Moved(p, i, Exited)
  }

  predicate Initial(p: Pool) {
    && p.freed == {} && p.queue == [] && p.sem == 0 && p.running
    && (forall n :: n in p.nodes ==> p.nodes[n] == Node(0, false))
    && (forall i :: 0 <= i < |p.threads| ==> p.threads[i].Idle? || p.threads[i].Top?)
  }

  predicate IsRun(pools: seq<Pool>, steps: seq<Step>) {
    && |pools| == |steps| + 1 && Initial(pools[0])
    && forall i :: 0 <= i < |steps| ==> Next(pools[i], steps[i], pools[i + 1])
  }

  // --- counting --------------------------------------------------------------------------

  function One(b: bool): nat { if b then 1 else 0 }

  /** The node a thread holds a counted reference to. */
  function Ref(t: Thread): Option<NodeId> {
    match t
    case Counted(j, _) => j.node
    case Got(j) => j.node
    case WantShared(j) => j.node
    case InShared(j) => j.node
    case WantExclusive(j) => j.node
    case InExclusive(j) => j.node
    case _ => None
  }

  function Holders(ts: seq<Thread>, n: NodeId): nat {
    if ts == [] then 0 else Holders(ts[1..], n) + if Ref(ts[0]) == Some(n) then 1 else 0
  }

  function Naming(q: seq<Job>, n: NodeId): nat {
    if q == [] then 0 else Naming(q[1..], n) + if q[0].node == Some(n) then 1 else 0
  }

  /** A wake-up on its way: a post still owed, or a worker about to extract. */
  predicate Owes(t: Thread) { t.Queued? || t.Woken? }

  function Owed(ts: seq<Thread>): nat {
    if ts == [] then 0 else Owed(ts[1..]) + if Owes(ts[0]) then 1 else 0
  }

  lemma {:induction false} HoldersUpdate(ts: seq<Thread>, i: nat, t: Thread, n: NodeId)
    requires i < |ts|
    ensures Holders(ts[i := t], n) ==
      Holders(ts, n) - One(Ref(ts[i]) == Some(n)) + One(Ref(t) == Some(n))
  {
    if i == 0 {
      assert ts[0 := t][1..] == ts[1..];
    } else {
      HoldersUpdate(ts[1..], i - 1, t, n);
      assert ts[i := t][1..] == ts[1..][i - 1 := t];
    }
  }

  lemma {:induction false} OwedUpdate(ts: seq<Thread>, i: nat, t: Thread)
    requires i < |ts|
    ensures Owed(ts[i := t]) == Owed(ts) - (if Owes(ts[i]) then 1 else 0) + (if Owes(t) then 1 else 0)
  {
    if i == 0 {
      assert ts[0 := t][1..] == ts[1..];
    } else {
      OwedUpdate(ts[1..], i - 1, t);
      assert ts[i := t][1..] == ts[1..][i - 1 := t];
    }
  }

  lemma {:induction false} NamingAppend(q: seq<Job>, j: Job, n: NodeId)
    ensures Naming(q + [j], n) == Naming(q, n) + if j.node == Some(n) then 1 else 0
  {
    if q == [] {
      assert q + [j] == [j];
    } else {
      assert (q + [j])[1..] == q[1..] + [j];
      NamingAppend(q[1..], j, n);
    }
  }

  lemma {:induction false} HolderIsCounted(ts: seq<Thread>, i: nat, n: NodeId)
    requires i < |ts| && Ref(ts[i]) == Some(n)
    ensures Holders(ts, n) > 0
  {
    if i > 0 { HolderIsCounted(ts[1..], i - 1, n); }
  }

  lemma {:induction false} NamedIsCounted(q: seq<Job>, i: nat, n: NodeId)
    requires i < |q| && q[i].node == Some(n)
    ensures Naming(q, n) > 0
  {
    if i > 0 { NamedIsCounted(q[1..], i - 1, n); }
  }

  // --- invariants ------------------------------------------------------------------------

  /** While the server runs, a live node's lock count is the queued jobs naming it plus
      the threads holding a counted reference; jobs dropped at shutdown only add to it. */
  predicate LocksCounted(p: Pool, n: NodeId)
    requires n in p.nodes
  {
    && p.nodes[n].locks >= Naming(p.queue, n) + Holders(p.threads, n)
    && (p.running ==> p.nodes[n].locks == Naming(p.queue, n) + Holders(p.threads, n))
  }

  predicate AllCounted(p: Pool) { forall n :: n in p.nodes ==> LocksCounted(p, n) }

  /** The node of the job an exclusive holder works on, and what the holder has deleted. */
  function Section(t: Thread): Option<(Option<NodeId>, set<NodeId>)> {
    match t
    case Checked(_, _, h) => if h.Exclusive? then Some((h.ref, h.removed)) else None
    case Counted(_, h) => if h.Exclusive? then Some((h.ref, h.removed)) else None
    case Queued(h) => if h.Exclusive? then Some((h.ref, h.removed)) else None
    case Handling(r, d) => Some((r, d))
    case Removing(_, r, d) => Some((r, d))
    case _ => None
  }

  /** The node a receiver has checked and comes back to. */
  function Outer(t: Thread): Option<NodeId> {
    match t
    case Checked(_, _, h) => if h.Inside? then Some(h.node) else None
    case Counted(_, h) => if h.Inside? then Some(h.node) else None
    case Queued(h) => if h.Inside? then Some(h.node) else None
    case _ => None
  }

  /** Every node a thread may still touch is live, except that the node of its own job is
      gone if the thread itself has deleted it. */
  predicate ThreadSafe(p: Pool, t: Thread) {
    && (Ref(t).Some? ==> Ref(t).value in p.nodes)
    && (t.Checked? ==> t.node in p.nodes && !p.nodes[t.node].marked && !t.hold.Nothing?)
    && (Outer(t).Some? ==> Outer(t).value in p.nodes && !p.nodes[Outer(t).value].marked)
    && (t.Removing? ==> t.node in p.nodes && p.nodes[t.node].marked)
    && (Section(t).Some? ==>
          var (ref, removed) := Section(t).value;
          removed <= p.freed && (ref.Some? ==> ref.value in p.nodes || ref.value in removed))
  }

  predicate NothingDangles(p: Pool) {
    && (forall i :: 0 <= i < |p.queue| && p.queue[i].node.Some? ==> p.queue[i].node.value in p.nodes)
    && (forall i :: 0 <= i < |p.threads| ==> ThreadSafe(p, p.threads[i]))
    && (forall n :: n in p.freed ==> n !in p.nodes)
  }

  /** No lost wake-up: semaphore value, owed posts and woken workers cover the queue. */
  predicate Awake(p: Pool) { p.sem + Owed(p.threads) >= |p.queue| }

  predicate Inv(p: Pool) {
    AllCounted(p) && NothingDangles(p) && LockExcludes(p) && Awake(p)
  }

  predicate Apart(t: Thread, u: Thread) { HoldsExclusive(t) ==> !HoldsExclusive(u) && !HoldsShared(u) }

  predicate LockExcludes(p: Pool) {
    forall i, j :: 0 <= i < |p.threads| && 0 <= j < |p.threads| && i != j ==> Apart(p.threads[i], p.threads[j])
  }

  predicate Produces(st: Step) {
    || st.LockForReading? || st.UnlockReading? || st.CheckMark? || st.Abandon? || st.IncrementLock?
    || st.Compose? || st.AddElement? || st.Post?
  }

  /** Whoever takes a lock finds it free; whoever has one keeps its kind or drops it. */
  predicate LocksFairly(p: Pool, t: Thread, u: Thread) {
    && (HoldsExclusive(u) ==> HoldsExclusive(t) || (NoWriter(p) && NoReader(p)))
    && (HoldsShared(u) ==> HoldsShared(t) || NoWriter(p))
  }

  lemma ProducerLocksFairly(p: Pool, st: Step, q: Pool)
    requires Next(p, st, q) && Produces(st) && st.i < |p.threads| == |q.threads|
    ensures LocksFairly(p, p.threads[st.i], q.threads[st.i])
  {
    hide NoWriter, NoReader, WithLocks;
  }

  lemma WorkerLocksFairly(p: Pool, st: Step, q: Pool)
    requires Next(p, st, q) && !Produces(st) && !st.Stop? && st.i < |p.threads| == |q.threads|
    ensures LocksFairly(p, p.threads[st.i], q.threads[st.i])
  {
    hide NoWriter, NoReader, IsMarked, Released, WithLocks;
  }

  lemma LockDiscipline(p: Pool, st: Step, q: Pool, j: nat)
    requires Next(p, st, q) && !st.Stop? && st.i < |p.threads| == |q.threads| && j < |p.threads| && j != st.i
    requires Apart(p.threads[st.i], p.threads[j]) && Apart(p.threads[j], p.threads[st.i])
    ensures Apart(q.threads[st.i], p.threads[j]) && Apart(p.threads[j], q.threads[st.i])
  {
    hide Next, Produces, HoldsExclusive, HoldsShared;
    if Produces(st) { ProducerLocksFairly(p, st, q); } else { WorkerLocksFairly(p, st, q); }
  }

  lemma StepExcludes(p: Pool, st: Step, q: Pool)
    requires LockExcludes(p) && Next(p, st, q)
    ensures LockExcludes(q)
  {
    hide Next, Apart;
    if st.Stop? {
      StopKeepsNodes(p, st, q);
    } else {
      ThreadsChange(p, st, q);
      forall j | 0 <= j < |p.threads| && j != st.i
        ensures Apart(q.threads[st.i], p.threads[j]) && Apart(p.threads[j], q.threads[st.i])
      {
        LockDiscipline(p, st, q, j);
      }
    }
  }

  /** A step moves one thread. */
  lemma ThreadsChange(p: Pool, st: Step, q: Pool)
    requires Next(p, st, q) && !st.Stop?
    ensures st.i < |p.threads| == |q.threads| && q.threads == p.threads[st.i := q.threads[st.i]]
  {
    hide NoWriter, NoReader, IsMarked, Released, WithLocks;
  }

  lemma StepStaysAwake(p: Pool, st: Step, q: Pool)
    requires Awake(p) && Next(p, st, q)
    ensures Awake(q)
  {
    if !st.Stop? {
      ThreadsChange(p, st, q);
      OwedUpdate(p.threads, st.i, q.threads[st.i]);
    }
  }

  lemma {:induction false} UnknownIsUncounted(p: Pool, q: seq<Job>, ts: seq<Thread>, n: NodeId)
    requires n !in p.nodes
    requires forall i :: 0 <= i < |q| && q[i].node.Some? ==> q[i].node.value in p.nodes
    requires forall i :: 0 <= i < |ts| ==> ThreadSafe(p, ts[i])
    ensures Naming(q, n) == 0 && Holders(ts, n) == 0
    decreases |q| + |ts|
  {
    if q != [] { UnknownIsUncounted(p, q[1..], ts, n); }
    if ts != [] { UnknownIsUncounted(p, q, ts[1..], n); }
  }

  /** The count of a node that stays moves with the one reference a step moves. */
  predicate LocksMove(p: Pool, st: Step, q: Pool, n: NodeId)
    requires st.Stop? || st.i < |p.threads| == |q.threads|
    requires n in p.nodes && n in q.nodes
  {
    !st.Stop? ==>
      var t, u := p.threads[st.i], q.threads[st.i];
      q.nodes[n].locks - One(Ref(u) == Some(n)) == p.nodes[n].locks - One(Ref(t) == Some(n))
      + (if st.AddElement? && t.Counted? then One(t.job.node == Some(n)) else 0)
      - (if st.Extract? && p.queue != [] then One(p.queue[0].node == Some(n)) else 0)
      + (if st.DropOnStop? && t.Got? then One(t.job.node == Some(n)) else 0)
  }

  lemma ProducerLocks(p: Pool, st: Step, q: Pool, n: NodeId)
    requires Next(p, st, q) && Produces(st) && st.i < |p.threads| == |q.threads| && n in p.nodes && n in q.nodes
    ensures LocksMove(p, st, q, n)
  {
    hide NoWriter, NoReader;
  }

  lemma WorkerLocks(p: Pool, st: Step, q: Pool, n: NodeId)
    requires Next(p, st, q) && !Produces(st) && !st.Stop? && st.i < |p.threads| == |q.threads|
    requires n in p.nodes && n in q.nodes
    requires ThreadSafe(p, p.threads[st.i])
    ensures LocksMove(p, st, q, n)
  {
    hide NoWriter, NoReader, IsMarked;
  }

  lemma QueueChange(p: Pool, st: Step, q: Pool, n: NodeId)
    requires Next(p, st, q) && !st.Stop?
    ensures q.running == p.running
    ensures Naming(q.queue, n) == Naming(p.queue, n)
      + (if st.AddElement? && p.threads[st.i].Counted? then One(p.threads[st.i].job.node == Some(n)) else 0)
      - (if st.Extract? && p.queue != [] then One(p.queue[0].node == Some(n)) else 0)
  {
    hide NoWriter, NoReader, IsMarked, Released, WithLocks, Holders;
    if st.AddElement? { NamingAppend(p.queue, p.threads[st.i].job, n); }
  }

  /** A job is dropped only after the stop, when counts may exceed the references. */
  lemma Dropping(p: Pool, st: Step, q: Pool)
    requires Next(p, st, q)
    ensures st.DropOnStop? ==> !p.running && !q.running
  {
    hide NoWriter, NoReader, IsMarked, Released, WithLocks;
  }

  lemma NewNode(p: Pool, st: Step, q: Pool, n: NodeId)
    requires Next(p, st, q) && n !in p.nodes && n in q.nodes
    ensures q.nodes[n].locks == 0 && q.threads == p.threads && q.queue == p.queue
  {
    hide NoWriter, NoReader, IsMarked;
  }

  lemma StepCounts(p: Pool, st: Step, q: Pool, n: NodeId)
    requires Inv(p) && Next(p, st, q) && n in q.nodes
    ensures LocksCounted(q, n)
  {
    hide Next, LockExcludes, Awake, NothingDangles, Naming, Holders, ThreadSafe, Ref, Produces, One;
    if n !in p.nodes {
      NewNode(p, st, q, n);
      Unknown(p, n);
    } else if st.Stop? {
      StopKeepsNodes(p, st, q);
      assert LocksCounted(p, n);
    } else {
      ThreadsChange(p, st, q);
      HoldersUpdate(p.threads, st.i, q.threads[st.i], n);
      QueueChange(p, st, q, n);
      SafeThread(p, st.i);
      assert LocksCounted(p, n);
      if Produces(st) { ProducerLocks(p, st, q, n); } else { WorkerLocks(p, st, q, n); }
      Dropping(p, st, q);
    }
  }

  lemma Unknown(p: Pool, n: NodeId)
    requires NothingDangles(p) && n !in p.nodes
    ensures Naming(p.queue, n) == 0 && Holders(p.threads, n) == 0
  {
    UnknownIsUncounted(p, p.queue, p.threads, n);
  }

  lemma SafeThread(p: Pool, i: nat)
    requires NothingDangles(p) && i < |p.threads|
    ensures ThreadSafe(p, p.threads[i])
  {
  }

  /** Nodes only go by being freed, and only get their mark by being marked. */
  lemma NodesSurvive(p: Pool, st: Step, q: Pool, n: NodeId)
    requires Next(p, st, q) && !st.Stop? && n in p.nodes && (st.Free? ==> p.threads[st.i].node != n)
    ensures n in q.nodes && q.nodes[n].marked == (p.nodes[n].marked || (st.Mark? && st.n == n))
  {
    hide NoWriter, NoReader, IsMarked;
  }

  /** Marking and freeing happen under the exclusive lock, freeing at count zero. */
  lemma RemovalIsExclusive(p: Pool, st: Step, q: Pool)
    requires Next(p, st, q) && (st.Mark? || st.Free?)
    ensures HoldsExclusive(p.threads[st.i])
    ensures st.Free? ==> var t := p.threads[st.i]; t.Removing? && t.node in p.nodes && p.nodes[t.node].locks == 0
  {
  }

  /** Freeing or marking a node under another thread's feet is impossible: a counted
      reference keeps the count up, and any other reference is under the lock. */
  lemma OthersStaySafe(p: Pool, st: Step, q: Pool, j: nat)
    requires Inv(p) && Next(p, st, q) && !st.Stop? && j < |p.threads| && j != st.i
    ensures ThreadSafe(q, p.threads[j])
  {
    hide Next, Awake, LockExcludes, NothingDangles, Naming, Holders;
    assert st.i < |p.threads| by { ThreadsChange(p, st, q); }
    var t, u := p.threads[st.i], p.threads[j];
    SafeThread(p, j);
    Excluded(p, st.i, j);
    FreedStayFreed(p, st, q);
    if st.Mark? || st.Free? { RemovalIsExclusive(p, st, q); }
    if st.Free? {
      assert LocksCounted(p, t.node);
      if Ref(u) == Some(t.node) { HolderIsCounted(p.threads, j, t.node); }
    }
    forall n | n in p.nodes && (st.Free? ==> t.node != n)
      ensures n in q.nodes && q.nodes[n].marked == (p.nodes[n].marked || (st.Mark? && st.n == n))
    {
      NodesSurvive(p, st, q, n);
    }
  }

  lemma Excluded(p: Pool, i: nat, j: nat)
    requires LockExcludes(p) && i < |p.threads| && j < |p.threads| && i != j
    ensures Apart(p.threads[i], p.threads[j])
  {
  }

  lemma ProducerStaysSafe(p: Pool, st: Step, q: Pool)
    requires Next(p, st, q) && Produces(st) && ThreadSafe(p, p.threads[st.i])
    ensures ThreadSafe(q, q.threads[st.i])
  {
    hide NoWriter, NoReader;
  }

  lemma ReleasedKeepsNodes(nodes: map<NodeId, Node>, t: Thread)
    ensures (t.Got? || t.InShared? || t.InExclusive?) ==> Released(nodes, t.job).Keys == nodes.Keys
  {
  }

  predicate ChangesMembers(st: Step) { st.AddNode? || st.Mark? || st.Free? || st.Unlock? || st.Leave? }

  lemma RemoverStaysSafe(p: Pool, st: Step, q: Pool)
    requires Next(p, st, q) && ChangesMembers(st) && ThreadSafe(p, p.threads[st.i])
    ensures ThreadSafe(q, q.threads[st.i])
  {
    hide NoWriter, NoReader, IsMarked, Released, WithLocks;
  }

  lemma WorkerStaysSafe(p: Pool, st: Step, q: Pool)
    requires Next(p, st, q) && !Produces(st) && !ChangesMembers(st) && !st.Stop? && ThreadSafe(p, p.threads[st.i])
    requires p.queue != [] && p.queue[0].node.Some? ==> p.queue[0].node.value in p.nodes
    ensures ThreadSafe(q, q.threads[st.i])
  {
    hide NoWriter, NoReader, IsMarked, Released;
    ReleasedKeepsNodes(p.nodes, p.threads[st.i]);
  }

  lemma ActorStaysSafe(p: Pool, st: Step, q: Pool)
    requires Inv(p) && Next(p, st, q) && !st.Stop? && st.i < |p.threads| == |q.threads|
    ensures ThreadSafe(q, q.threads[st.i])
  {
    hide Next, AllCounted, Awake, LockExcludes, NothingDangles, ThreadSafe;
    SafeThread(p, st.i);
    if p.queue != [] { SafeJob(p, 0); }
    if Produces(st) {
      ProducerStaysSafe(p, st, q);
    } else if ChangesMembers(st) {
      RemoverStaysSafe(p, st, q);
    } else {
      WorkerStaysSafe(p, st, q);
    }
  }

  lemma SafeJob(p: Pool, k: nat)
    requires NothingDangles(p) && k < |p.queue|
    ensures p.queue[k].node.Some? ==> p.queue[k].node.value in p.nodes
  {
  }

  /** A queued job was queued before the step, or is the one the step adds. */
  lemma QueueOrigin(p: Pool, st: Step, q: Pool, k: nat) returns (i: nat)
    requires Next(p, st, q) && k < |q.queue|
    ensures if i < |p.queue| then q.queue[k] == p.queue[i]
      else st.AddElement? && Ref(p.threads[st.i]) == q.queue[k].node
  {
    hide NoWriter, NoReader, IsMarked, Released;
    i := if st.Extract? then k + 1 else k;
  }

  lemma QueueStaysLive(p: Pool, st: Step, q: Pool, k: nat)
    requires Inv(p) && Next(p, st, q) && k < |q.queue| && q.queue[k].node.Some?
    ensures q.queue[k].node.value in q.nodes
  {
    hide Next, Awake, LockExcludes, NothingDangles, Naming, Holders;
    var n := q.queue[k].node.value;
    var i := QueueOrigin(p, st, q, k);
    if st.Stop? {
      StopKeepsNodes(p, st, q);
      SafeJob(p, i);
    } else {
      ThreadsChange(p, st, q);
      if i < |p.queue| { SafeJob(p, i); } else { SafeThread(p, st.i); }
      if st.Free? {
        RemovalIsExclusive(p, st, q);
        assert LocksCounted(p, p.threads[st.i].node);
        if n == p.threads[st.i].node { NamedIsCounted(p.queue, i, n); }
      }
      NodesSurvive(p, st, q, n);
    }
  }

  lemma StopKeepsNodes(p: Pool, st: Step, q: Pool)
    requires Next(p, st, q) && st.Stop?
    ensures q.nodes == p.nodes && q.freed == p.freed && q.threads == p.threads && q.queue == p.queue && !q.running
  {
  }

  lemma FreedStayFreed(p: Pool, st: Step, q: Pool)
    requires NothingDangles(p) && Next(p, st, q)
    ensures p.freed <= q.freed && forall n :: n in q.freed ==> n !in q.nodes
  {
    hide ThreadSafe, NoWriter, NoReader;
    if st.IncrementLock? || st.SkipMarked? || st.GiveUp? || st.DecrementLock? {
      assert q.nodes.Keys == p.nodes.Keys;
    }
  }

  lemma StepDanglesNothing(p: Pool, st: Step, q: Pool)
    requires Inv(p) && Next(p, st, q)
    ensures NothingDangles(q)
  {
    hide AllCounted, Awake, LockExcludes, ThreadSafe;
    FreedStayFreed(p, st, q);
    forall k | 0 <= k < |q.queue| && q.queue[k].node.Some? ensures q.queue[k].node.value in q.nodes {
      QueueStaysLive(p, st, q, k);
    }
    if st.Stop? {
      StopKeepsNodes(p, st, q);
      forall j | 0 <= j < |q.threads| ensures ThreadSafe(q, q.threads[j]) { StoppingIsSafe(p, q, p.threads[j]); }
    } else {
      ThreadsChange(p, st, q);
      forall j | 0 <= j < |q.threads| ensures ThreadSafe(q, q.threads[j]) {
        if j == st.i { ActorStaysSafe(p, st, q); } else { OthersStaySafe(p, st, q, j); }
      }
    }
  }

  lemma StoppingIsSafe(p: Pool, q: Pool, t: Thread)
    requires ThreadSafe(p, t) && q.nodes == p.nodes && q.freed == p.freed
    ensures ThreadSafe(q, t)
  {
  }

  /** Every step of every thread keeps all of it. */
  lemma StepKeepsInv(p: Pool, st: Step, q: Pool)
    requires Inv(p) && Next(p, st, q)
    ensures Inv(q)
  {
    hide Next, LocksCounted, NothingDangles, LockExcludes, Awake;
    forall n | n in q.nodes ensures LocksCounted(q, n) { StepCounts(p, st, q, n); }
    StepDanglesNothing(p, st, q);
    StepExcludes(p, st, q);
    StepStaysAwake(p, st, q);
  }

  lemma InitialInv(p: Pool)
    requires Initial(p)
    ensures Inv(p)
  {
    forall n | n in p.nodes ensures LocksCounted(p, n) { IdleHoldNothing(p.threads, n); }
  }

  lemma {:induction false} IdleHoldNothing(ts: seq<Thread>, n: NodeId)
    requires forall i :: 0 <= i < |ts| ==> ts[i].Idle? || ts[i].Top?
    ensures Holders(ts, n) == 0
  {
    if ts != [] { IdleHoldNothing(ts[1..], n); }
  }

  lemma {:induction false} RunKeepsInv(pools: seq<Pool>, steps: seq<Step>, k: nat)
    requires IsRun(pools, steps) && k < |pools|
    ensures Inv(pools[k])
  {
    hide Next, Inv, Initial;
    if k == 0 {
      InitialInv(pools[0]);
    } else {
      RunKeepsInv(pools, steps, k - 1);
      StepKeepsInv(pools[k - 1], steps[k - 1], pools[k]);
    }
  }

  // --- the theorems ----------------------------------------------------------------------

  /** Everything a thread may still touch. */
  function References(t: Thread): set<NodeId> {
    (if Ref(t).Some? then {Ref(t).value} else {})
    + (if t.Checked? || t.Removing? then {t.node} else {})
    + (if Outer(t).Some? then {Outer(t).value} else {})
    + (if Section(t).Some? && Section(t).value.0.Some? then {Section(t).value.0.value} else {})
  }

  /** What thread `i` has deleted in the first `k` steps, in its present exclusive section. */
  function OwnFrees(pools: seq<Pool>, steps: seq<Step>, k: nat, i: nat): set<NodeId>
    requires k <= |steps| <= |pools|
  {
    if k == 0 then {}
    else
      var st, p := steps[k - 1], pools[k - 1];
      if st.DecrementLock? && st.i == i then {} else
        OwnFrees(pools, steps, k - 1, i) +
        if st.Free? && st.i == i && i < |p.threads| && p.threads[i].Removing? then {p.threads[i].node} else {}
  }

  /** What the acting thread has deleted: nothing when its section begins, one more node
      when it frees one. */
  predicate SectionGoesOn(p: Pool, st: Step, t: Thread, u: Thread) {
    && (Section(u).Some? && st.DecrementLock? ==> Section(u).value.1 == {})
    && (Section(u).Some? && !st.DecrementLock? ==>
          && Section(t).Some?
          && Section(u).value.1 == Section(t).value.1 + if st.Free? && t.Removing? then {t.node} else {})
  }

  lemma ProducerSection(p: Pool, st: Step, q: Pool)
    requires Next(p, st, q) && Produces(st) && st.i < |p.threads| == |q.threads|
    ensures SectionGoesOn(p, st, p.threads[st.i], q.threads[st.i])
  {
    hide NoWriter, NoReader, WithLocks;
  }

  lemma WorkerSection(p: Pool, st: Step, q: Pool)
    requires Next(p, st, q) && !Produces(st) && !st.Stop? && st.i < |p.threads| == |q.threads|
    ensures SectionGoesOn(p, st, p.threads[st.i], q.threads[st.i])
  {
    hide NoWriter, NoReader, IsMarked, Released, WithLocks;
  }

  lemma SectionStep(p: Pool, st: Step, q: Pool, i: nat)
    requires Next(p, st, q) && i < |p.threads| == |q.threads| && Section(q.threads[i]).Some?
    ensures !st.Stop? && st.i == i ==> SectionGoesOn(p, st, p.threads[i], q.threads[i])
    ensures st.Stop? || st.i != i ==> q.threads[i] == p.threads[i]
  {
    hide Next;
    if st.Stop? {
      StopKeepsNodes(p, st, q);
    } else {
      ThreadsChange(p, st, q);
      if st.i == i {
        if Produces(st) { ProducerSection(p, st, q); } else { WorkerSection(p, st, q); }
      }
    }
  }

  lemma {:induction false} RemovedAreOwnFrees(pools: seq<Pool>, steps: seq<Step>, k: nat, i: nat)
    requires IsRun(pools, steps) && k < |pools| && i < |pools[k].threads| && Section(pools[k].threads[i]).Some?
    ensures Section(pools[k].threads[i]).value.1 == OwnFrees(pools, steps, k, i)
  {
    hide Next, Section;
    if k == 0 {
      NoSectionYet(pools[0], i);
    } else {
      SameThreads(pools[k - 1], steps[k - 1], pools[k]);
      SectionStep(pools[k - 1], steps[k - 1], pools[k], i);
      if !(steps[k - 1].DecrementLock? && steps[k - 1].i == i) { RemovedAreOwnFrees(pools, steps, k - 1, i); }
    }
  }

  lemma NoSectionYet(p: Pool, i: nat)
    requires Initial(p) && i < |p.threads|
    ensures Section(p.threads[i]).None?
  {
  }

  lemma SameThreads(p: Pool, st: Step, q: Pool)
    requires Next(p, st, q)
    ensures |q.threads| == |p.threads|
  {
    if !st.Stop? { ThreadsChange(p, st, q); }
  }

  /** Over every interleaving: the lock count of a live node is exact while the server
      runs, and nothing a queued job names or a thread may still touch, up to the end of
      its exclusive section, has been deleted, save by that very thread in that section. */
  lemma NodeLifetime(pools: seq<Pool>, steps: seq<Step>, k: nat)
    requires IsRun(pools, steps) && k < |pools|
    ensures var p := pools[k];
      && (p.running ==> forall n :: n in p.nodes ==>
            p.nodes[n].locks == Naming(p.queue, n) + Holders(p.threads, n))
      && (forall i :: 0 <= i < |p.queue| && p.queue[i].node.Some? ==> p.queue[i].node.value !in p.freed)
      && (forall i, n :: 0 <= i < |p.threads| && n in References(p.threads[i]) && n in p.freed ==>
            HoldsExclusive(p.threads[i]) && n in OwnFrees(pools, steps, k, i))
  {
    hide Next, References, OwnFrees;
    RunKeepsInv(pools, steps, k);
    var p := pools[k];
    forall n | n in p.nodes ensures LocksCounted(p, n) {}
    forall i, n | 0 <= i < |p.threads| && n in References(p.threads[i]) && n in p.freed
      ensures HoldsExclusive(p.threads[i]) && n in OwnFrees(pools, steps, k, i)
    {
      assert ThreadSafe(p, p.threads[i]);
      OnlyOwnSection(p, p.threads[i], n);
      RemovedAreOwnFrees(pools, steps, k, i);
    }
  }

  lemma OnlyOwnSection(p: Pool, t: Thread, n: NodeId)
    requires ThreadSafe(p, t) && n in References(t) && n !in p.nodes
    ensures HoldsExclusive(t) && Section(t).Some? && n in Section(t).value.1
  {
  }

  /** The node of the job a worker handles in its exclusive section is gone if and only if
      that worker itself has deleted it there. */
  lemma OwnJobNode(pools: seq<Pool>, steps: seq<Step>, k: nat, i: nat)
    requires IsRun(pools, steps) && k < |pools| && i < |pools[k].threads|
    requires Section(pools[k].threads[i]).Some? && Section(pools[k].threads[i]).value.0.Some?
    ensures var n := Section(pools[k].threads[i]).value.0.value;
      n in pools[k].freed <==> n in OwnFrees(pools, steps, k, i)
  {
    hide Next, OwnFrees;
    RunKeepsInv(pools, steps, k);
    SafeThread(pools[k], i);
    RemovedAreOwnFrees(pools, steps, k, i);
  }

  /** The step that deletes a node finds no queued job, no counted reference, and no other
      thread that may touch it. */
  lemma FreeFindsNoClaim(pools: seq<Pool>, steps: seq<Step>, k: nat, n: NodeId)
    requires IsRun(pools, steps) && k < |steps| && n in pools[k].nodes && n !in pools[k + 1].nodes
    ensures Naming(pools[k].queue, n) == 0 && Holders(pools[k].threads, n) == 0
    ensures steps[k].Free? && forall j :: 0 <= j < |pools[k].threads| && j != steps[k].i ==>
      n !in References(pools[k].threads[j])
  {
    RunSteps(pools, steps, k);
    RunKeepsInv(pools, steps, k);
    hide IsRun;
    var p, st := pools[k], steps[k];
    FreesAre(p, st, pools[k + 1], n);
    assert LocksCounted(p, n);
    forall j | 0 <= j < |p.threads| && j != st.i ensures n !in References(p.threads[j]) {
      hide Next;
      SafeThread(p, j);
      Excluded(p, st.i, j);
      if Ref(p.threads[j]) == Some(n) { HolderIsCounted(p.threads, j, n); }
    }
  }

  lemma RunSteps(pools: seq<Pool>, steps: seq<Step>, k: nat)
    requires IsRun(pools, steps) && k < |steps|
    ensures k + 1 < |pools| && Next(pools[k], steps[k], pools[k + 1])
  {
  }

  lemma FreesAre(p: Pool, st: Step, q: Pool, n: NodeId)
    requires Next(p, st, q) && n in p.nodes && n !in q.nodes
    ensures st.Free? && st.i < |p.threads|
    ensures p.threads[st.i].Removing? && p.threads[st.i].node == n && p.nodes[n].locks == 0
  {
  }

  /** From its marking to its freeing, a node's lock count never grows: no new job can
      name it, so the deleting thread waits for a number that only falls. */
  lemma MarkedNodeDrains(pools: seq<Pool>, steps: seq<Step>, k: nat, n: NodeId)
    requires IsRun(pools, steps) && k < |steps| && n in pools[k].nodes && n in pools[k + 1].nodes
    requires pools[k].nodes[n].marked
    ensures pools[k + 1].nodes[n].marked && pools[k + 1].nodes[n].locks <= pools[k].nodes[n].locks
  {
    RunKeepsInv(pools, steps, k);
    MarkedStep(pools[k], steps[k], pools[k + 1], n);
  }

  lemma MarkedStep(p: Pool, st: Step, q: Pool, n: NodeId)
    requires Inv(p) && Next(p, st, q) && n in p.nodes && n in q.nodes && p.nodes[n].marked
    ensures q.nodes[n].marked && q.nodes[n].locks <= p.nodes[n].locks
  {
    hide AllCounted, Awake, NoWriter, NoReader, LockExcludes, NothingDangles;
    if !st.Stop? { SafeThread(p, st.i); }
  }

  /** No lost wake-up: when no thread owes a wake-up and the semaphore is zero, so that
      every worker at the top of its loop is blocked, the queue is empty. */
  lemma NoLostWakeUp(pools: seq<Pool>, steps: seq<Step>, k: nat)
    requires IsRun(pools, steps) && k < |pools|
    requires pools[k].sem == 0 && forall i :: 0 <= i < |pools[k].threads| ==> !Owes(pools[k].threads[i])
    ensures pools[k].queue == []
  {
    RunKeepsInv(pools, steps, k);
    NothingOwed(pools[k].threads);
  }

  lemma {:induction false} NothingOwed(ts: seq<Thread>)
    requires forall i :: 0 <= i < |ts| ==> !Owes(ts[i])
    ensures Owed(ts) == 0
  {
    if ts != [] { NothingOwed(ts[1..]); }
  }

  /** The jobs producers added in the first `k` steps. */
  function Added(pools: seq<Pool>, steps: seq<Step>, k: nat): seq<Job>
    requires k <= |steps| <= |pools|
  {
    if k == 0 then [] else
      var st, p := steps[k - 1], pools[k - 1];
      Added(pools, steps, k - 1) +
        if st.AddElement? && st.i < |p.threads| && p.threads[st.i].Counted? then [p.threads[st.i].job] else []
  }

  /** The jobs workers found themselves with after extracting. */
  function Taken(pools: seq<Pool>, steps: seq<Step>, k: nat): seq<Job>
    requires k <= |steps| < |pools|
  {
    if k == 0 then [] else
      var st, q := steps[k - 1], pools[k];
      Taken(pools, steps, k - 1) +
        if st.Extract? && st.i < |q.threads| && q.threads[st.i].Got? then [q.threads[st.i].job] else []
  }

  lemma QueueStep(p: Pool, st: Step, q: Pool)
    requires Next(p, st, q)
    ensures
      && (st.AddElement? ==>
            st.i < |p.threads| && p.threads[st.i].Counted? && q.queue == p.queue + [p.threads[st.i].job])
      && (st.Extract? ==>
            st.i < |q.threads| && q.threads[st.i].Got? && p.queue == [q.threads[st.i].job] + q.queue)
      && (!st.AddElement? && !st.Extract? ==> q.queue == p.queue)
  {
    hide NoWriter, NoReader, IsMarked, Released, WithLocks;
  }

  /** Over every interleaving the jobs that workers got are those that producers added, in
      that order, none lost and none twice; the rest is in the queue. */
  lemma {:induction false} JobsInOrder(pools: seq<Pool>, steps: seq<Step>, k: nat)
    requires IsRun(pools, steps) && k < |pools|
    ensures Added(pools, steps, k) == Taken(pools, steps, k) + pools[k].queue
  {
    hide Next;
    if k > 0 {
      JobsInOrder(pools, steps, k - 1);
      QueueStep(pools[k - 1], steps[k - 1], pools[k]);
    }
  }
}
