/**
 Success responses of any shape: which entries they acknowledge, how far they move the
 commit index, when they throw; and the acknowledgement counters over every run.
 */
module Responses {
  import opened RaftTypes
  import opened RaftLog
  import opened ServerSteps
  import opened ServerTheorems

  // --- one response ----------------------------------------------------------------

  /** Marking throws exactly when the range leaves the log, and, whether it throws or not,
      it adds one acknowledgement to each entry of the range that the log has. */
  lemma {:induction false} MarkRangeExact(log: seq<Entry>, i: int, last: int)
    requires i <= last ==> Addressable(log, i)
    ensures var (r, ok) := MarkRange(log, i, last);
      && (ok <==> i > last || (1 <= i && last <= |log|))
      && |r| == |log|
      && forall k :: 0 <= k < |log| ==> r[k] == log[k].(acks := log[k].acks + if 1 <= i <= k + 1 <= last then 1 else 0)
    decreases last - i
  {
    if i <= last && 1 <= i <= |log| {
      MarkRangeExact(Acked(log, i), i + 1, last);
    }
  }

  /** `to` is where the commit loop may stop, counting from `from`: every entry
      passed over is acknowledged by half the members, none before the last carries
      the target id, and nothing lets it go further. */
  predicate Advance(s: Server, from: nat, target: int, to: nat) {
    && from <= to <= Max(from, target) && to <= Max(from, |s.log|)
    && (forall k :: from <= k < to && k < |s.log| ==> |s.peers| / 2 <= s.log[k].acks)
    && (forall k :: from <= k < to - 1 && k < |s.log| ==> s.log[k].id != target)
    && (to < target && to < |s.log| ==>
          || s.log[to].acks < |s.peers| / 2
          || (from < to && s.log[to - 1].id == target))
  }

  lemma AdvanceStep(s: Server, s1: Server, target: int, to: nat)
    requires s.commit < target && s.commit < |s.log|
    requires |s.peers| / 2 <= s.log[s.commit].acks && s.log[s.commit].id != target
    requires s1.log == s.log && s1.peers == s.peers && Advance(s1, s.commit + 1, target, to)
    ensures Advance(s, s.commit, target, to)
    ensures StoppedByLength(s1, s.commit + 1, target, to) <==> StoppedByLength(s, s.commit, target, to)
  {
  }

  /** Nothing but the end of the log stopped the loop. */
  predicate StoppedByLength(s: Server, from: nat, target: int, to: nat) {
    to < target && |s.log| <= to && !(from < to <= |s.log| && s.log[to - 1].id == target)
  }

  /** The commit loop for any target: where it stops, what it hands over, when it throws. */
  lemma {:induction false} CommitLoopExact(s: Server, target: int)
    requires s.commit == s.applied
    ensures var (t, p, threw) := CommitLoop(s, target);
      && t == s.(commit := t.commit, applied := t.commit)
      && Advance(s, s.commit, target, t.commit)
      && (threw <==> StoppedByLength(s, s.commit, target, t.commit))
      && p == if t.commit <= |s.log| then Payloads(s.log[s.commit..t.commit]) else []
    decreases |s.log| - s.applied
  {
    hide Payloads;
    assert Payloads([]) == [];
    if s.commit < target && s.applied < |s.log| && |s.peers| / 2 <= s.log[s.applied].acks {
      var s1 := ApplyEntry(s).0;
      assert s1 == s.(commit := s.commit + 1, applied := s.commit + 1);
      if s.log[s.applied].id == target {
        PayloadsSplit(s.log, s.commit, s.commit + 1);
      } else {
        CommitLoopExact(s1, target);
        var to := CommitLoop(s1, target).0.commit;
        AdvanceStep(s, s1, target, to);
        PayloadsSplit(s.log, s.commit, to);
      }
    }
  }

  /** With ids equal to positions the loop commits the maximal acknowledged run. */
  predicate IsMaximalRun(log: seq<Entry>, need: nat, from: nat, target: int, to: nat) {
    && from <= to <= Max(from, target) && to <= Max(from, |log|)
    && (forall k :: from <= k < to && k < |log| ==> need <= log[k].acks)
    && (to < target && to < |log| ==> log[to].acks < need)
  }

  lemma CommitLoopTakesMaximalRun(s: Server, target: int)
    requires s.commit == s.applied && IdsArePositions(s.log)
    ensures IsMaximalRun(s.log, |s.peers| / 2, s.commit, target, CommitLoop(s, target).0.commit)
  {
    CommitLoopExact(s, target);
    var to := CommitLoop(s, target).0.commit;
    assert s.commit < to < target && to <= |s.log| ==> s.log[to - 1].id == to;
  }

  // --- whole responses -----------------------------------------------------------------

  predicate Covers(m: Message, pos: int)
    requires m.AppendAccepted?
  {
    1 <= m.firstIdx <= pos <= m.currentIdx
  }

  /** The range to mark is not within the log. */
  predicate LeavesLog(s: Server, m: Message)
    requires m.AppendAccepted?
  {
    m.firstIdx <= m.currentIdx && (m.firstIdx < 1 || |s.log| < m.currentIdx)
  }

  /** Any response: one acknowledgement per covered entry, then, if the marking went
      through, the commit loop over the new counters. */
  lemma ResponseEffect(s: Server, from: Key, m: Message)
    requires s.commit == s.applied && m.AppendAccepted? && Markable(s, m)
    ensures var o := OnAppendAccepted(s, from, m); var t := o.server;
      && o.sent == [] && |t.log| == |s.log|
      && (forall k :: 0 <= k < |s.log| ==>
            t.log[k] == s.log[k].(acks := s.log[k].acks + if Covers(m, k + 1) then 1 else 0))
      && t == s.(log := t.log, peers := t.peers, commit := t.commit, applied := t.commit) && s.commit <= t.commit
      && |t.peers| == |s.peers|
      && (forall i :: 0 <= i < |s.peers| ==>
            t.peers[i] == if s.peers[i].key == from then s.peers[i].(nextIdx := m.currentIdx) else s.peers[i])
      && o.delivered == (if t.commit <= |t.log| then Payloads(t.log[s.commit..t.commit]) else [])
      && t.commit <= Max(s.commit, |s.log|)
      && (LeavesLog(s, m) ==> o.threw && t.commit == s.commit)
      && (!LeavesLog(s, m) ==> Advance(t, s.commit, m.currentIdx, t.commit))
      && (!LeavesLog(s, m) ==> (o.threw <==> StoppedByLength(t, s.commit, m.currentIdx, t.commit)))
  {
    MarkRangeExact(s.log, m.firstIdx, m.currentIdx);
    var log := MarkRange(s.log, m.firstIdx, m.currentIdx).0;
    CommitLoopExact(s.(peers := WithNextIdx(s.peers, from, m.currentIdx), log := log), m.currentIdx);
  }

  /** A response that covers nothing and points beyond a log whose entries are all
      acknowledged, none of them with that id. */
  predicate RunsOut(s: Server, target: int) {
    && s.commit < target && |s.log| < target
    && forall k :: s.commit <= k < |s.log| ==> |s.peers| / 2 <= s.log[k].acks && s.log[k].id != target
  }

  /** A success response throws out of the handler exactly when it covers an index the log
      does not have, or covers nothing and runs out of log. */
  lemma ResponseThrows(s: Server, from: Key, m: Message)
    requires s.commit == s.applied && m.AppendAccepted? && Markable(s, m)
    ensures OnAppendAccepted(s, from, m).threw <==>
      LeavesLog(s, m) || (m.firstIdx > m.currentIdx && RunsOut(s, m.currentIdx))
  {
    ResponseEffect(s, from, m);
    var t := OnAppendAccepted(s, from, m).server;
    assert forall k :: 0 <= k < |s.log| && m.firstIdx > m.currentIdx ==> t.log[k] == s.log[k];
  }

  // --- counters over every run -----------------------------------------------------------

  /** How many leading positions an event leaves to the entries that were there. */
  function Retained(s: Server, e: Event): nat {
    if e.Receive? && e.msg.AppendEntries? && Accepts(s, e.msg) then |Kept(s.log, e.msg)| else |s.log|
  }

  predicate Acknowledges(e: Event, pos: int) { e.Receive? && e.msg.AppendAccepted? && Covers(e.msg, pos) }

  /** The responses among the first `n` events that covered a position since the entry
      there was appended. */
  function Covering(states: seq<Server>, events: seq<Event>, n: nat, pos: nat): nat
    requires n <= |events| <= |states|
  {
    if n == 0 || Retained(states[n - 1], events[n - 1]) < pos then 0
    else Covering(states, events, n - 1, pos) + if Acknowledges(events[n - 1], pos) then 1 else 0
  }

  /** Every event: counters move by acknowledgements alone, and a new entry has none. */
  lemma CounterStep(s: Server, e: Event)
    requires Sound(s) && Possible(s, e)
    ensures var t := Handle(s, e).server;
      && Retained(s, e) <= |s.log|
      && forall k :: 0 <= k < |t.log| ==>
           t.log[k].acks == if k < Retained(s, e) then s.log[k].acks + (if Acknowledges(e, k + 1) then 1 else 0) else 0
  {
    hide Payloads, Advance, StoppedByLength, OnAppendAccepted, Heartbeats, VoteRequests, TermsInOrder;
    hide WithVote, PromotedPeers;
    match e
    case Timer(ms, tj, ej) => TimerEffect(s, ms, tj, ej);
    case Submit(_, _) =>
    case Receive(k, restart, m) =>
      match m
      case AppendEntries(_, _, _, _, _) =>
        hide OnAppendEntries;
        if Accepts(s, m) { AppendEntriesAccepted(s, k, restart, m); } else { AppendEntriesRefused(s, k, restart, m); }
      case AppendAccepted(_, _, _) => ResponseEffect(s, k, m);
      case _ =>
  }

  /** In every run, whatever happens in it, an entry's counter is the number of responses
      that covered it since it was appended. */
  lemma {:induction false} CountersAreExact(states: seq<Server>, events: seq<Event>, n: nat, k: nat)
    requires IsRun(states, events) && n < |states| && k < |states[n].log|
    ensures states[n].log[k].acks == Covering(states, events, n, k + 1)
  {
    hide Handle, Possible, Sound, Retained;
    if n == 0 {
      NoLogYet(states, events);
    } else {
      RunIsSound(states, events, n - 1);
      CounterStep(states[n - 1], events[n - 1]);
      if k < Retained(states[n - 1], events[n - 1]) { CountersAreExact(states, events, n - 1, k); }
    }
  }

  lemma NoLogYet(states: seq<Server>, events: seq<Event>)
    requires IsRun(states, events)
    ensures states[0].log == []
  {
  }
}
