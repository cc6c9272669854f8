/**
 Whole runs of the worker pool, read off the steps: what marks a node, what the semaphore
 holds, who exits, and in which order each thread acts.
 */
module PoolRuns {
  import opened RaftTypes
  import opened JobPool

  // --- marks --------------------------------------------------------------------------------

  /** One of the first `k` steps marked the node. */
  predicate MarkedBefore(steps: seq<Step>, k: nat, n: NodeId)
    requires k <= |steps|
  {
    exists j :: 0 <= j < k && steps[j].Mark? && steps[j].n == n
  }

  lemma MarkStep(p: Pool, st: Step, q: Pool, n: NodeId)
    requires Next(p, st, q)
    ensures n in q.nodes ==>
      q.nodes[n].marked == ((n in p.nodes && p.nodes[n].marked) || (st.Mark? && st.n == n))
    ensures n in q.nodes && n !in p.nodes ==> n !in p.freed
    ensures st.Mark? && st.n == n ==> n in q.nodes
    ensures n in p.nodes || n in p.freed ==> n in q.nodes || n in q.freed
  {
    hide NoWriter, NoReader, IsMarked;
  }

  lemma {:induction false} MarkedWasThere(pools: seq<Pool>, steps: seq<Step>, k: nat, n: NodeId)
    requires IsRun(pools, steps) && k < |pools| && MarkedBefore(steps, k, n)
    ensures n in pools[k].nodes || n in pools[k].freed
  {
    hide Next;
    if k > 0 {
      MarkStep(pools[k - 1], steps[k - 1], pools[k], n);
      if !(steps[k - 1].Mark? && steps[k - 1].n == n) { MarkedWasThere(pools, steps, k - 1, n); }
    }
  }

  /** Over every interleaving a live node is marked for deletion if and only if some earlier
      step marked it; a node starts unmarked, and its identity is never used again. */
  lemma {:induction false} MarkedByAMark(pools: seq<Pool>, steps: seq<Step>, k: nat, n: NodeId)
    requires IsRun(pools, steps) && k < |pools| && n in pools[k].nodes
    ensures pools[k].nodes[n].marked <==> MarkedBefore(steps, k, n)
  {
    hide Next;
    if k > 0 {
      var p, st := pools[k - 1], steps[k - 1];
      MarkStep(p, st, pools[k], n);
      assert MarkedBefore(steps, k, n) <==> MarkedBefore(steps, k - 1, n) || (st.Mark? && st.n == n);
      if n in p.nodes {
        MarkedByAMark(pools, steps, k - 1, n);
      } else if MarkedBefore(steps, k - 1, n) {
        MarkedWasThere(pools, steps, k - 1, n);
      }
    }
  }

  lemma JobStep(p: Pool, st: Step, q: Pool)
    requires Next(p, st, q) && (st.SkipMarked? || st.Dispatch?)
    ensures st.i < |p.threads| && p.threads[st.i].Got?
    ensures st.SkipMarked? <==> IsMarked(p, p.threads[st.i].job)
  {
  }

  /** Of the jobs a worker has extracted, it skips those whose node was marked by an earlier
      step, and goes on with the others. */
  lemma MarkedJobsAreSkipped(pools: seq<Pool>, steps: seq<Step>, k: nat)
    requires IsRun(pools, steps) && k < |steps| && (steps[k].SkipMarked? || steps[k].Dispatch?)
    ensures steps[k].i < |pools[k].threads| && pools[k].threads[steps[k].i].Got?
    ensures var job := pools[k].threads[steps[k].i].job;
      steps[k].SkipMarked? <==> job.node.Some? && MarkedBefore(steps, k, job.node.value)
  {
    hide Next;
    RunSteps(pools, steps, k);
    JobStep(pools[k], steps[k], pools[k + 1]);
    var job := pools[k].threads[steps[k].i].job;
    RunKeepsInv(pools, steps, k);
    SafeThread(pools[k], steps[k].i);
    if job.node.Some? { MarkedByAMark(pools, steps, k, job.node.value); }
  }

  // --- semaphore and exit --------------------------------------------------------------------

  /** Posts of the first `k` steps, those of the stop included, less the waits. */
  function Balance(steps: seq<Step>, k: nat): int
    requires k <= |steps|
  {
    if k == 0 then 0 else
      Balance(steps, k - 1) +
      match steps[k - 1]
      case Post(_) => 1
      case Wait(_) => -1
      case Stop(n) => n
      case _ => 0
  }

  lemma SemaphoreStep(p: Pool, st: Step, q: Pool)
    requires Next(p, st, q)
    ensures q.sem == p.sem + match st case Post(_) => 1 case Wait(_) => -1 case Stop(n) => n case _ => 0
    ensures q.running <==> p.running && !st.Stop?
  {
    hide NoWriter, NoReader, IsMarked, Released, WithLocks;
  }

  /** Over every interleaving the semaphore holds the posts less the waits. */
  lemma {:induction false} SemaphoreCounts(pools: seq<Pool>, steps: seq<Step>, k: nat)
    requires IsRun(pools, steps) && k < |pools|
    ensures pools[k].sem == Balance(steps, k)
  {
    hide Next;
    if k > 0 {
      SemaphoreCounts(pools, steps, k - 1);
      SemaphoreStep(pools[k - 1], steps[k - 1], pools[k]);
    }
  }

  /** The server runs until a stop. */
  lemma {:induction false} RunsUntilStopped(pools: seq<Pool>, steps: seq<Step>, k: nat)
    requires IsRun(pools, steps) && k < |pools|
    ensures pools[k].running <==> forall j :: 0 <= j < k ==> !steps[j].Stop?
  {
    hide Next;
    if k > 0 {
      RunsUntilStopped(pools, steps, k - 1);
      SemaphoreStep(pools[k - 1], steps[k - 1], pools[k]);
    }
  }

  // --- the order of each thread ----------------------------------------------------------------

  /** What a thread may do next after a step of its own. */
  predicate Follows(a: Step, b: Step) {
    match a
    case LockForReading(_) => b.UnlockReading? || b.CheckMark? || b.Compose?
    case UnlockReading(_) => b.LockForReading? || b.Compose?
    case CheckMark(_, _, _) => b.Abandon? || b.IncrementLock? || b.CheckMark? || b.Compose?
    case Abandon(_) => Resumes(b)
    case IncrementLock(_) => b.AddElement?
    case Compose(_) => b.AddElement?
    case AddElement(_) => b.Post?
    case Post(_) => Resumes(b)
    case Wait(_) => b.Extract? || b.ExtractNothing?
    case Extract(_) => b.DropOnStop? || b.SkipMarked? || b.Dispatch?
    case ExtractNothing(_) => b.Wait? || b.Leave?
    case DropOnStop(_) => b.Wait? || b.Leave?
    case SkipMarked(_) => b.Wait? || b.Leave?
    case Dispatch(_) => b.LockShared? || b.LockExclusive?
    case LockShared(_) => b.GiveUp? || b.Proceed?
    case GiveUp(_) => b.Extract? || b.ExtractNothing?
    case Proceed(_) => b.LockExclusive?
    case LockExclusive(_) => b.DecrementLock?
    case DecrementLock(_) => InSection(b)
    case AddNode(_, _) => InSection(b)
    case Mark(_, _) => b.Free?
    case Free(_) => InSection(b)
    case Unlock(_) => b.Extract? || b.ExtractNothing?
    case Leave(_) => false
    case Stop(_) => true
  }

  predicate InSection(b: Step) { b.AddNode? || b.Mark? || b.Unlock? || b.CheckMark? || b.Compose? }

  /** A producer goes back to where it was: idle, reading, at a checked node, or in its section. */
  predicate Resumes(b: Step) {
    b.LockForReading? || b.UnlockReading? || b.Abandon? || b.IncrementLock? || InSection(b)
  }

  /** Where a step leaves the thread that took it. */
  predicate Lands(st: Step, u: Thread) {
    match st
    case LockForReading(_) => u.Reading?
    case UnlockReading(_) => u.Idle?
    case CheckMark(_, n, kind) => u.Checked? && u.node == n && u.kind == kind
    case Abandon(_) => u.Idle? || u.Reading? || u.Handling? || u.Checked?
    case IncrementLock(_) => u.Counted?
    case Compose(_) => u.Counted?
    case AddElement(_) => u.Queued?
    case Post(_) => u.Idle? || u.Reading? || u.Handling? || u.Checked?
    case Wait(_) => u.Woken?
    case Extract(_) => u.Got?
    case ExtractNothing(_) => u.Top?
    case DropOnStop(_) => u.Top?
    case SkipMarked(_) => u.Top?
    case Dispatch(_) => u.WantShared? || u.WantExclusive?
    case LockShared(_) => u.InShared?
    case GiveUp(_) => u.Woken?
    case Proceed(_) => u.WantExclusive?
    case LockExclusive(_) => u.InExclusive?
    case DecrementLock(_) => u.Handling?
    case AddNode(_, _) => u.Handling?
    case Mark(_, n) => u.Removing? && u.node == n
    case Free(_) => u.Handling?
    case Unlock(_) => u.Woken?
    case Leave(_) => u.Exited?
    case Stop(_) => true
  }

  /** Where a thread must be to take a step. */
  predicate Starts(st: Step, t: Thread) {
    match st
    case LockForReading(_) => t.Idle?
    case UnlockReading(_) => t.Reading?
    case CheckMark(_, _, _) => t.Reading? || t.Handling? || t.Checked?
    case Abandon(_) => t.Checked?
    case IncrementLock(_) => t.Checked?
    case Compose(_) => t.Idle? || t.Reading? || t.Handling? || t.Checked?
    case AddElement(_) => t.Counted?
    case Post(_) => t.Queued?
    case Wait(_) => t.Top?
    case Extract(_) => t.Woken?
    case ExtractNothing(_) => t.Woken?
    case DropOnStop(_) => t.Got?
    case SkipMarked(_) => t.Got?
    case Dispatch(_) => t.Got?
    case LockShared(_) => t.WantShared?
    case GiveUp(_) => t.InShared?
    case Proceed(_) => t.InShared?
    case LockExclusive(_) => t.WantExclusive?
    case DecrementLock(_) => t.InExclusive?
    case AddNode(_, _) => t.Handling?
    case Mark(_, _) => t.Handling?
    case Free(_) => t.Removing?
    case Unlock(_) => t.Handling?
    case Leave(_) => t.Top?
    case Stop(_) => true
  }

  lemma StepShape(p: Pool, st: Step, q: Pool)
    requires Next(p, st, q) && !st.Stop? && st.i < |p.threads| == |q.threads|
    ensures Starts(st, p.threads[st.i]) && Lands(st, q.threads[st.i])
  {
    hide NoWriter, NoReader, IsMarked, Released, WithLocks;
  }

  lemma ShapesFollow(a: Step, b: Step, t: Thread)
    requires Lands(a, t) && Starts(b, t) && !a.Stop? && !b.Stop?
    ensures Follows(a, b)
  {
  }

  lemma {:induction false} OwnStepsOnly(pools: seq<Pool>, steps: seq<Step>, j: nat, k: nat, i: nat)
    requires IsRun(pools, steps) && j < k <= |steps| && i < |pools[j + 1].threads|
    requires forall l :: j < l < k ==> steps[l].Stop? || steps[l].i != i
    ensures i < |pools[k].threads| && pools[k].threads[i] == pools[j + 1].threads[i]
    decreases k
  {
    hide Next;
    if j + 1 < k {
      OwnStepsOnly(pools, steps, j, k - 1, i);
      RunSteps(pools, steps, k - 1);
      if steps[k - 1].Stop? {
        StopKeepsNodes(pools[k - 1], steps[k - 1], pools[k]);
      } else {
        ThreadsChange(pools[k - 1], steps[k - 1], pools[k]);
      }
    }
  }

  predicate HoldsNothing(t: Thread) { !HoldsShared(t) && !HoldsExclusive(t) }

  lemma JobsKeepTheirKind(p: Pool, st: Step, q: Pool)
    requires Next(p, st, q) && !st.Stop? && st.i < |p.threads| == |q.threads|
    ensures st.Dispatch? ==>
      p.threads[st.i].Got? && (q.threads[st.i].WantExclusive? <==> p.threads[st.i].job.kind.Incoming?)
    ensures var t, u := p.threads[st.i], q.threads[st.i];
      st.Compose? ==> u.Counted? && u.job == Job(if HoldsNothing(t) then Connection else Internal, None)
    ensures st.IncrementLock? ==> p.threads[st.i].Checked?
    ensures st.IncrementLock? ==>
      q.threads[st.i] == Counted(Job(p.threads[st.i].kind, Some(p.threads[st.i].node)), p.threads[st.i].hold)
  {
    hide NoWriter, NoReader, Released;
  }

  /** Over every interleaving each thread acts in the order of the source: two consecutive
      steps of one thread follow each other.  A worker takes the exclusive lock at once exactly
      for a message; a producer counts and names the node it checked; and a job without a node
      is about a new connection exactly if its producer holds no lock. */
  lemma ThreadOrder(pools: seq<Pool>, steps: seq<Step>, j: nat, k: nat)
    requires IsRun(pools, steps) && j < k < |steps| && !steps[j].Stop? && !steps[k].Stop? && steps[j].i == steps[k].i
    requires forall l :: j < l < k ==> steps[l].Stop? || steps[l].i != steps[j].i
    ensures Follows(steps[j], steps[k])
    ensures var i := steps[j].i;
      && i < |pools[j].threads| && i < |pools[k + 1].threads|
      && (steps[j].Dispatch? ==>
            && pools[j].threads[i].Got?
            && (steps[k].LockExclusive? <==> pools[j].threads[i].job.kind.Incoming?))
      && (steps[j].Compose? && steps[k].AddElement? ==>
            && pools[k].threads[i].Counted?
            && pools[k].threads[i].job == Job(if HoldsNothing(pools[j].threads[i]) then Connection else Internal, None))
      && (steps[j].CheckMark? && steps[k].IncrementLock? ==>
            && pools[k + 1].threads[i].Counted?
            && pools[k + 1].threads[i].job == Job(steps[j].kind, Some(steps[j].n)))
  {
    hide Next, Lands, Starts, Follows, HoldsNothing;
    var i := steps[j].i;
    RunSteps(pools, steps, j);
    RunSteps(pools, steps, k);
    ThreadsChange(pools[j], steps[j], pools[j + 1]);
    ThreadsChange(pools[k], steps[k], pools[k + 1]);
    StepShape(pools[j], steps[j], pools[j + 1]);
    StepShape(pools[k], steps[k], pools[k + 1]);
    OwnStepsOnly(pools, steps, j, k, i);
    ShapesFollow(steps[j], steps[k], pools[k].threads[i]);
    JobsKeepTheirKind(pools[j], steps[j], pools[j + 1]);
    JobsKeepTheirKind(pools[k], steps[k], pools[k + 1]);
    DispatchFollows(steps[j], steps[k], pools[k].threads[i]);
    CheckedShape(steps[j], pools[k].threads[i]);
  }

  lemma DispatchFollows(a: Step, b: Step, t: Thread)
    requires Lands(a, t) && Starts(b, t)
    requires !b.Stop?
    ensures a.Dispatch? ==> (b.LockExclusive? <==> t.WantExclusive?)
  {
  }

  lemma CheckedShape(a: Step, t: Thread)
    requires Lands(a, t)
    ensures a.CheckMark? ==> t.Checked? && t.node == a.n && t.kind == a.kind
  {
  }

  /** Jobs are dropped, and workers leave, only after a stop. */
  lemma OnlyAStopEnds(pools: seq<Pool>, steps: seq<Step>, k: nat)
    requires IsRun(pools, steps) && k < |steps| && (steps[k].DropOnStop? || steps[k].Leave?)
    ensures exists j :: 0 <= j < k && steps[j].Stop?
  {
    hide Next;
    RunSteps(pools, steps, k);
    RunsUntilStopped(pools, steps, k);
    EndStep(pools[k], steps[k], pools[k + 1]);
  }

  lemma EndStep(p: Pool, st: Step, q: Pool)
    requires Next(p, st, q) && (st.DropOnStop? || st.Leave?)
    ensures !p.running
  {
  }

  /** No step of thread `i` strictly between two steps. */
  predicate Idles(steps: seq<Step>, i: nat, j: nat, k: nat)
    requires k <= |steps|
  {
    j < k && forall l :: j < l < k ==> steps[l].Stop? || steps[l].i != i
  }

  lemma BackWhereItWas(t: Thread)
    requires t.Idle? || t.Reading? || t.Handling? || (t.Checked? && t.hold.Shared?)
    ensures Back(HoldOf(t)) == t
  {
  }

  lemma ProducerShape(p: Pool, st: Step, q: Pool)
    requires Next(p, st, q) && !st.Stop? && st.i < |p.threads| == |q.threads|
    ensures var t, u := p.threads[st.i], q.threads[st.i];
      && (st.Compose? ==> u.Counted? && Back(u.hold) == t)
      && (st.CheckMark? ==> u.Checked? && Back(u.hold) == t)
      && (st.Abandon? ==> t.Checked? && u == Back(t.hold))
      && (st.IncrementLock? ==> t.Checked? && u.Counted? && u.hold == t.hold)
      && (st.AddElement? ==> t.Counted? && u.Queued? && u.hold == t.hold)
      && (st.Post? ==> t.Queued? && u == Back(t.hold))
  {
    hide NoWriter, NoReader, IsMarked, Released, WithLocks, Back, HoldOf;
    var t := p.threads[st.i];
    if t.Idle? || t.Reading? || t.Handling? || (t.Checked? && t.hold.Shared?) { BackWhereItWas(t); }
  }

  /** A thread that composes a job, adds it and posts is afterwards exactly where it was, with
      the same lock and the same node at hand. */
  lemma ComposerReturns(pools: seq<Pool>, steps: seq<Step>, a: nat, b: nat, c: nat, i: nat)
    requires IsRun(pools, steps) && b < c < |steps| && Idles(steps, i, a, b) && Idles(steps, i, b, c)
    requires steps[a] == Compose(i) && steps[b] == AddElement(i) && steps[c] == Post(i)
    ensures i < |pools[a].threads| && i < |pools[c + 1].threads| && pools[c + 1].threads[i] == pools[a].threads[i]
  {
    hide Next, Back;
    Shape(pools, steps, a);
    OwnStepsOnly(pools, steps, a, b, i);
    Shape(pools, steps, b);
    OwnStepsOnly(pools, steps, b, c, i);
    Shape(pools, steps, c);
  }

  /** The same for a thread that checks a node, counts it, adds the job and posts. */
  lemma CheckerReturns(pools: seq<Pool>, steps: seq<Step>, a: nat, b: nat, c: nat, d: nat, i: nat)
    requires IsRun(pools, steps) && b < c < d < |steps|
    requires Idles(steps, i, a, b) && Idles(steps, i, b, c) && Idles(steps, i, c, d)
    requires steps[a].CheckMark? && steps[a].i == i
    requires steps[b] == IncrementLock(i) && steps[c] == AddElement(i) && steps[d] == Post(i)
    ensures i < |pools[a].threads| && i < |pools[d + 1].threads| && pools[d + 1].threads[i] == pools[a].threads[i]
  {
    hide Next, Back;
    Shape(pools, steps, a);
    OwnStepsOnly(pools, steps, a, b, i);
    Shape(pools, steps, b);
    OwnStepsOnly(pools, steps, b, c, i);
    Shape(pools, steps, c);
    OwnStepsOnly(pools, steps, c, d, i);
    Shape(pools, steps, d);
  }

  lemma Shape(pools: seq<Pool>, steps: seq<Step>, k: nat)
    requires IsRun(pools, steps) && k < |steps| && !steps[k].Stop?
    ensures k + 1 < |pools| && steps[k].i < |pools[k].threads| == |pools[k + 1].threads|
    ensures var st := steps[k]; var t, u := pools[k].threads[st.i], pools[k + 1].threads[st.i];
      && (st.Compose? ==> u.Counted? && Back(u.hold) == t)
      && (st.CheckMark? ==> u.Checked? && Back(u.hold) == t)
      && (st.IncrementLock? ==> t.Checked? && u.Counted? && u.hold == t.hold)
      && (st.AddElement? ==> t.Counted? && u.Queued? && u.hold == t.hold)
      && (st.Post? ==> t.Queued? && u == Back(t.hold))
  {
    hide Next, Back;
    RunSteps(pools, steps, k);
    ThreadsChange(pools[k], steps[k], pools[k + 1]);
    ProducerShape(pools[k], steps[k], pools[k + 1]);
  }
}
