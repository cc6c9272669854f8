/**
 What the handlers of one server do and keep, for every state, message and run.
 */
module ServerTheorems {
  import opened RaftTypes
  import opened RaftLog
  import opened ServerSteps

  // --- AppendEntries -----------------------------------------------------------

  /** How many leading entries have a non-zero id, so can be appended. */
  function Usable(es: seq<ClientEntry>): (n: nat)
    ensures n <= |es|
    ensures forall i :: 0 <= i < n ==> es[i].id != 0
    ensures n < |es| ==> es[n].id == 0
  {
    if es == [] || es[0].id == 0 then 0 else 1 + Usable(es[1..])
  }

  function Stamped(es: seq<ClientEntry>, term: int): (r: seq<Entry>)
    ensures |r| == |es|
    ensures forall i :: 0 <= i < |es| ==> r[i] == Entry(term, es[i].id, es[i].data, 0)
  {
    seq(|es|, i requires 0 <= i < |es| => Entry(term, es[i].id, es[i].data, 0))
  }

  lemma StampedStep(log: seq<Entry>, es: seq<ClientEntry>, n: nat, term: int)
    requires n < |es|
    ensures log + [Entry(term, es[0].id, es[0].data, 0)] + Stamped(es[1..][..n], term) ==
            log + Stamped(es[..n + 1], term)
  {
    assert Stamped(es[..n + 1], term) == [Entry(term, es[0].id, es[0].data, 0)] + Stamped(es[1..][..n], term);
  }

  lemma {:induction false} AppendManyEffect(s: Server, es: seq<ClientEntry>)
    ensures AppendMany(s, es).1 <==> Usable(es) == |es|
    ensures AppendMany(s, es).0 ==
      s.(log := s.log + Stamped(es[..Usable(es)], s.term), currentIdx := s.currentIdx + Usable(es))
    decreases |es|
  {
    if es == [] || es[0].id == 0 {
      assert s.log + Stamped(es[..0], s.term) == s.log;
    } else {
      AppendManyEffect(AppendOne(s, s.term, es[0]).0, es[1..]);
      StampedStep(s.log, es, Usable(es[1..]), s.term);
    }
  }

  function Payloads(log: seq<Entry>): (r: seq<Payload>)
    ensures |r| == |log|
    ensures forall i :: 0 <= i < |log| ==> r[i] == log[i].data
  {
    seq(|log|, i requires 0 <= i < |log| => log[i].data)
  }

  lemma PayloadsSplit(log: seq<Entry>, a: nat, b: nat)
    requires a < b <= |log|
    ensures Payloads(log[a..b]) == [log[a].data] + Payloads(log[a + 1..b])
  {
  }

  /** Applying to exhaustion delivers what lies behind `applied`, once and in order. */
  lemma {:induction false} ApplyAllEffect(s: Server)
    requires s.commit == s.applied
    ensures ApplyAll(s).0 == s.(commit := Max(s.applied, |s.log|), applied := Max(s.applied, |s.log|))
    ensures ApplyAll(s).1 == Payloads(s.log[Min(s.applied, |s.log|)..])
    decreases |s.log| - s.applied
  {
    hide Payloads;
    if s.applied < |s.log| {
      ApplyAllEffect(ApplyEntry(s).0);
      PayloadsSplit(s.log, s.applied, |s.log|);
      assert s.log[s.applied..] == s.log[s.applied..|s.log|];
    } else {
      assert s.log[|s.log|..] == [] && Payloads([]) == [];
    }
  }

  /** A refused AppendEntries touches neither the log nor the indices and says no. */
  lemma AppendEntriesRefused(s: Server, from: Key, restart: bool, m: Message)
    requires m.AppendEntries? && !Accepts(s, m)
    ensures var o := OnAppendEntries(s, from, restart, m);
      && o.server == s.(
           elapsed := if restart then 0 else s.elapsed,
           role := if s.role.Leader? && s.term <= m.term then Follower else s.role,
           votedFor := if s.role.Leader? && s.term <= m.term then None else s.votedFor)
      && o.sent == [Packet(from, AppendRefused(s.term))] && o.delivered == [] && !o.threw
  {
  }

  /** Where both indices go when the commit block runs over the `kept` entries. */
  function CommitPoint(kept: seq<Entry>, leaderCommit: int): int
    requires kept != []
  {
    Max(Min(kept[|kept| - 1].id, leaderCommit), |kept|)
  }

  /** The commit block on the `kept` log: both indices jump to the commit point, and the
      entries from the minimum of tail id and leader commit on are handed over; those between
      the old index and that minimum are not. */
  lemma CommitFromLeaderEffect(s: Server, leaderCommit: int)
    requires s.commit == s.applied
    ensures var (t, p) := CommitFromLeader(s, leaderCommit);
      if s.commit < leaderCommit && s.log != [] then
        && t == s.(commit := CommitPoint(s.log, leaderCommit), applied := CommitPoint(s.log, leaderCommit))
        && p == Payloads(s.log[Min(Min(s.log[|s.log| - 1].id, leaderCommit), |s.log|)..])
      else t == s && p == []
  {
    if s.commit < leaderCommit && s.log != [] {
      var idx := Min(s.log[|s.log| - 1].id, leaderCommit);
      ApplyAllEffect(s.(commit := idx, applied := idx));
    }
  }

  predicate CommitFires(s: Server, m: Message)
    requires m.AppendEntries? && Accepts(s, m)
  {
    s.commit < m.leaderCommit && Kept(s.log, m) != []
  }

  /** An accepted AppendEntries: the log is the kept prefix followed by the usable
      message entries under the message's term, both indices move to the commit
      point of the prefix when the commit block fires, and any leader or candidate
      follows. */
  function Accepted(s: Server, restart: bool, m: Message): Server
    requires m.AppendEntries? && Accepts(s, m)
  {
    var kept := Kept(s.log, m);
    var idx := if CommitFires(s, m) then CommitPoint(kept, m.leaderCommit) else s.commit;
    var stepsDown := s.role.Leader? || s.role.Candidate?;
    s.(log := kept + Stamped(m.entries[..Usable(m.entries)], m.term),
       currentIdx := s.currentIdx + Usable(m.entries),
       commit := idx, applied := idx, term := m.term,
       role := if stepsDown then Follower else s.role,
       votedFor := if stepsDown then None else s.votedFor,
       elapsed := if restart then 0 else s.elapsed)
  }

  lemma AcceptedComposes(s: Server, restart: bool, m: Message, s2: Server, s3: Server)
    requires m.AppendEntries? && Accepts(s, m) && s.commit == s.applied
    requires var idx := if CommitFires(s, m) then CommitPoint(Kept(s.log, m), m.leaderCommit) else s.commit;
      s2 == Recognise(s, restart, m.term).(log := Kept(s.log, m), commit := idx, applied := idx)
    requires s3 == Adopt(s2, m.term).(
      log := s2.log + Stamped(m.entries[..Usable(m.entries)], m.term), currentIdx := s2.currentIdx + Usable(m.entries))
    ensures s3 == Accepted(s, restart, m)
  {
  }

  lemma AppendEntriesAccepted(s: Server, from: Key, restart: bool, m: Message)
    requires m.AppendEntries? && Accepts(s, m) && s.commit == s.applied
    ensures OnAppendEntries(s, from, restart, m) == Outcome(
      Accepted(s, restart, m),
      [Packet(from,
        if Usable(m.entries) == |m.entries| then
          AppendAccepted(s.term, s.currentIdx + |m.entries|, m.prevLogIdx + 1)
        else AppendRefused(s.term))],
      if CommitFires(s, m) then
        var kept := Kept(s.log, m);
        Payloads(kept[Min(Min(kept[|kept| - 1].id, m.leaderCommit), |kept|)..])
      else [],
      false)
  {
    hide Payloads, CommitPoint, Stamped, Usable, Accepted, AppendMany, CommitFromLeader, Kept, PrevMatches;
    var s1 := Recognise(s, restart, m.term);
    assert s1.log == s.log && s1.term == s.term && s1.commit == s1.applied == s.commit;
    var k := s1.(log := Kept(s1.log, m));
    var (s2, p) := CommitFromLeader(k, m.leaderCommit);
    var (s3, ok) := AppendMany(Adopt(s2, m.term), m.entries);
    CommitFromLeaderEffect(k, m.leaderCommit);
    AppendManyEffect(Adopt(s2, m.term), m.entries);
    AcceptedComposes(s, restart, m, s2, s3);
  }

  predicate IdsArePositions(log: seq<Entry>) {
    forall i :: 0 <= i < |log| ==> log[i].id == i + 1
  }

  /** Section 5.3's rule commit := min(leaderCommit, last index) of the kept log is what an
      accepted AppendEntries follows, when its commit block fires, exactly if the leader has
      committed the kept prefix and the tail's id, capped by the leader commit, does not point
      beyond it. */
  lemma CommitRuleOfThePaper(s: Server, from: Key, restart: bool, m: Message)
    requires m.AppendEntries? && Accepts(s, m) && s.commit == s.applied && CommitFires(s, m)
    ensures var kept := Kept(s.log, m);
      OnAppendEntries(s, from, restart, m).server.commit == Min(m.leaderCommit, |kept|) <==>
      |kept| <= m.leaderCommit && Min(kept[|kept| - 1].id, m.leaderCommit) <= |kept|
  {
    hide OnAppendEntries;
    AppendEntriesAccepted(s, from, restart, m);
  }

  // --- votes ---------------------------------------------------------------------

  /** A vote is granted exactly when none of the three refusals applies, and the
      only field a request can change is the vote. */
  lemma RequestVoteDecides(s: Server, from: Key, m: Message)
    requires m.RequestVote?
    ensures var o := OnRequestVote(s, from, m);
      && o.sent == [Packet(from, VoteReply(s.term, !Refuses(s, m)))]
      && o.server == s.(votedFor :=
           if !Refuses(s, m) then Some(from) else if s.term < m.term then None else s.votedFor)
      && o.delivered == [] && !o.threw
  {
  }

  ghost function PeerSupporters(s: Server, n: nat): set<Key>
    requires n <= |s.peers|
  {
    set i | 0 <= i < n && s.peers[i].voted && s.self != Some(s.peers[i].key) :: s.peers[i].key
  }

  /** The members whose support a server has on record, itself included when it
      voted for itself. */
  ghost function Supporters(s: Server): set<Key> {
    PeerSupporters(s, |s.peers|) + if s.self.Some? && s.votedFor == s.self then {s.self.value} else {}
  }

  lemma {:induction false} PeerVotesCount(s: Server, n: nat)
    requires n <= |s.peers| && DistinctKeys(s.peers)
    ensures PeerVotes(s, n) == |PeerSupporters(s, n)|
  {
    if n > 0 {
      PeerVotesCount(s, n - 1);
      var p := s.peers[n - 1];
      var g := PeerSupporters(s, n - 1);
      assert p.key !in g;
      assert PeerSupporters(s, n) == if p.voted && !IsSelf(s, p) then g + {p.key} else g;
    }
  }

  /** A server without a node of its own that has not voted counts that as a vote. */
  function NobodysVote(s: Server): nat { if s.self.None? && s.votedFor.None? then 1 else 0 }

  lemma VotesAreSupporters(s: Server)
    requires DistinctKeys(s.peers)
    ensures Votes(s) == |Supporters(s)| + NobodysVote(s)
  {
    PeerVotesCount(s, |s.peers|);
    assert s.self.Some? ==> s.self.value !in PeerSupporters(s, |s.peers|);
  }

  /** A vote reply elects exactly when it grants and the votes, those of the recorded
      supporters and nobody's, are a majority of the members less one, but not all of them. */
  lemma VoteReplyElects(s: Server, from: Key, m: Message)
    requires m.VoteReply? && s.peers != [] && DistinctKeys(s.peers) && !s.role.Leader?
    ensures var s1 := s.(peers := WithVote(s.peers, from, m.granted)); var o := OnVoteReply(s, from, m);
      var won := m.granted && (|s.peers| - 1) / 2 + 1 <= |Supporters(s1)| + NobodysVote(s) < |s.peers|;
      && (o.server.role.Leader? <==> won)
      && (!won ==> o.server == s1 && o.sent == [])
      && (won ==> o.server.votedFor == None && o.server.term == s.term && o.server.log == s.log)
  {
    VotesAreSupporters(s.(peers := WithVote(s.peers, from, m.granted)));
  }

  /** In a cluster of two, the reply of a member other than itself elects a server that does
      not lead exactly when it grants, the server has no vote of its own, and the second
      member, unless it is the server, is not on record.  The server's own vote is the one
      for itself, or none when it has no node. */
  lemma TwoMembersElect(s: Server, m: Message, i: nat)
    requires m.VoteReply? && |s.peers| == 2 && DistinctKeys(s.peers) && !s.role.Leader?
    requires i < 2 && !IsSelf(s, s.peers[i])
    ensures OnVoteReply(s, s.peers[i].key, m).server.role.Leader? <==>
      m.granted && s.votedFor != s.self && (IsSelf(s, s.peers[1 - i]) || !s.peers[1 - i].voted)
  {
    hide OnVoteReply, WithVote, PeerSupporters;
    var from, other := s.peers[i].key, s.peers[1 - i];
    var s1 := s.(peers := WithVote(s.peers, from, m.granted));
    VoteReplyElects(s, from, m);
    if m.granted {
      PairSupporters(s, s1, i);
      var counted := !IsSelf(s, other) && other.voted;
      assert other.key != from;
      assert |{from}| == 1 && |{from, other.key}| == 2;
      if s.self.Some? && s.votedFor == s.self && counted { assert |{from, other.key, s.self.value}| == 3; }
      if s.self.Some? && s.votedFor == s.self && !counted { assert |{from, s.self.value}| == 2; }
    }
  }

  lemma PairSupporters(s: Server, s1: Server, i: nat)
    requires |s.peers| == 2 && i < 2 && DistinctKeys(s.peers) && !IsSelf(s, s.peers[i])
    requires s1 == s.(peers := WithVote(s.peers, s.peers[i].key, true))
    ensures var from, other := s.peers[i].key, s.peers[1 - i];
      PeerSupporters(s1, 2) == if !IsSelf(s, other) && other.voted then {from, other.key} else {from}
  {
    var from, other := s.peers[i].key, s.peers[1 - i];
    assert s1.peers[i] == s.peers[i].(voted := true) && s1.peers[1 - i] == other;
    forall k
      ensures k in PeerSupporters(s1, 2) <==> k == from || (!IsSelf(s, other) && other.voted && k == other.key)
    {
    }
  }

  // --- timer -----------------------------------------------------------------------

  /** Every member but the server itself is sent a heartbeat of the current term. */
  predicate ReachesAll(s: Server, sent: seq<Packet>) {
    forall i :: 0 <= i < |s.peers| && !IsSelf(s, s.peers[i]) ==>
      Packet(s.peers[i].key, AppendEntries(s.term, 0, s.peers[i].nextIdx, s.leaderCommit + 1, [])) in sent
  }

  /** What a tick does: an up-to-date server counts the time; a leader past its
      request timeout heartbeats and restarts the count, any other server past its
      election timeout campaigns in a strictly larger term. */
  lemma TimerEffect(s: Server, ms: nat, tj: nat, ej: nat)
    requires s.commit == s.applied
    ensures var o := OnTimer(s, ms, tj, ej); var late := s.elapsed + ms;
      && o.server.log == s.log && o.server.commit == s.commit && o.server.applied == s.applied && o.delivered == []
      && (s.role.Leader? && s.requestTimeout <= late ==>
            o.server == s.(elapsed := 0, leaderCommit := s.leaderCommit + 1) && ReachesAll(s, o.sent))
      && (!s.role.Leader? && s.electionTimeout <= late ==>
            && o.server.role.Candidate? && s.term < o.server.term && o.server.votedFor == s.self
            && forall i :: 0 <= i < |s.peers| && Visited(s, s.peers[i], true) ==>
                 Packet(s.peers[i].key, RequestVote(o.server.term, 0, s.currentIdx, 0)) in o.sent)
      && (late < (if s.role.Leader? then s.requestTimeout else s.electionTimeout) ==>
            o.server == s.(elapsed := late) && o.sent == [])
  {
    if !s.role.Leader? && s.electionTimeout <= s.elapsed + ms {
      var c := Campaign(s.(elapsed := s.elapsed + ms), tj, ej);
      forall i | 0 <= i < |s.peers| && Visited(s, s.peers[i], true)
        ensures VoteRequest(c, s.peers[i]) in VoteRequests(c, |s.peers|)
      {
        VoteRequestSent(c, i, |s.peers|);
      }
    }
    if s.role.Leader? && s.requestTimeout <= s.elapsed + ms {
      var t := s.(elapsed := 0, leaderCommit := s.leaderCommit + 1);
      forall i | 0 <= i < |s.peers| && !IsSelf(s, s.peers[i])
        ensures Heartbeat(t, s.peers[i]) in Heartbeats(t, false, |s.peers|)
      {
        HeartbeatSent(t, i, |s.peers|);
      }
    }
  }

  lemma {:induction false} HeartbeatSent(s: Server, i: nat, n: nat)
    requires i < n <= |s.peers| && !IsSelf(s, s.peers[i])
    ensures Heartbeat(s, s.peers[i]) in Heartbeats(s, false, n)
  {
    if i < n - 1 { HeartbeatSent(s, i, n - 1); }
  }

  lemma {:induction false} VoteRequestSent(s: Server, i: nat, n: nat)
    requires i < n <= |s.peers| && Visited(s, s.peers[i], true)
    ensures VoteRequest(s, s.peers[i]) in VoteRequests(s, n)
  {
    if i < n - 1 { VoteRequestSent(s, i, n - 1); }
  }

  // --- invariants of every run -------------------------------------------------------

  predicate TermsInOrder(log: seq<Entry>, bound: int) {
    && (forall i, j :: 0 <= i < j < |log| ==> log[i].term <= log[j].term)
    && (forall i :: 0 <= i < |log| ==> log[i].term <= bound)
  }

  predicate Sound(s: Server) {
    && s.commit == s.applied
    && TermsInOrder(s.log, s.term)
    && |s.log| + 1 <= s.currentIdx
    && (forall i :: 0 <= i < |s.log| ==> s.log[i].id != 0)
    && DistinctKeys(s.peers)
  }

  /** How many entries an event appends, read off the event and the state alone. */
  function Appends(s: Server, e: Event): nat {
    match e
    case Timer(_, _, _) => 0
    case Submit(_, c) => if c.id != 0 then 1 else 0
    case Receive(_, _, m) => if m.AppendEntries? && Accepts(s, m) then Usable(m.entries) else 0
  }

  /** Two states of one server, the second after the first. */
  predicate Later(s: Server, t: Server) {
    && s.term <= t.term && s.currentIdx <= t.currentIdx && s.self == t.self
    && |s.peers| == |t.peers|
    && (forall i :: 0 <= i < |s.peers| ==>
          s.peers[i].key == t.peers[i].key && s.peers[i].isLeader == t.peers[i].isLeader)
  }

  lemma {:induction false} MarkRangeKeeps(log: seq<Entry>, i: int, last: int)
    requires i <= last ==> Addressable(log, i)
    ensures var r := MarkRange(log, i, last).0;
      |r| == |log| && forall k :: 0 <= k < |log| ==> r[k].(acks := 0) == log[k].(acks := 0)
    decreases last - i
  {
    if i <= last && 1 <= i <= |log| {
      MarkRangeKeeps(Acked(log, i), i + 1, last);
      var r := MarkRange(log, i, last).0;
      forall k | 0 <= k < |log| ensures r[k].(acks := 0) == log[k].(acks := 0) {
        assert r[k].(acks := 0) == Acked(log, i)[k].(acks := 0);
      }
    }
  }

  lemma {:induction false} CommitLoopKeeps(s: Server, target: int)
    requires s.commit == s.applied
    ensures var t := CommitLoop(s, target).0;
      t.commit == t.applied && t == s.(commit := t.commit, applied := t.applied)
    decreases |s.log| - s.applied
  {
    if s.commit < target && s.applied < |s.log| && |s.peers| / 2 <= s.log[s.applied].acks {
      if s.log[s.applied].id != target {
        CommitLoopKeeps(ApplyEntry(s).0, target);
      }
    }
  }

  lemma AcceptedKeepsSound(s: Server, k: Key, m: Message)
    requires Sound(s) && m.AppendAccepted? && Markable(s, m)
    ensures var t := OnAppendAccepted(s, k, m).server;
      Sound(t) && Later(s, t) && t.currentIdx == s.currentIdx && t.log == MarkRange(s.log, m.firstIdx, m.currentIdx).0
  {
    MarkRangeKeeps(s.log, m.firstIdx, m.currentIdx);
    var log := MarkRange(s.log, m.firstIdx, m.currentIdx).0;
    forall i | 0 <= i < |log| ensures log[i].term == s.log[i].term && log[i].id == s.log[i].id {
      assert log[i].(acks := 0) == s.log[i].(acks := 0);
    }
    CommitLoopKeeps(s.(peers := WithNextIdx(s.peers, k, m.currentIdx), log := log), m.currentIdx);
  }

  lemma AppendEntriesKeepsSound(s: Server, k: Key, restart: bool, m: Message)
    requires Sound(s) && m.AppendEntries?
    ensures var t := OnAppendEntries(s, k, restart, m).server;
      Sound(t) && Later(s, t) && t.currentIdx == s.currentIdx + if Accepts(s, m) then Usable(m.entries) else 0
  {
    hide OnAppendEntries, Payloads, CommitPoint, Usable, Stamped;
    if Accepts(s, m) {
      AppendEntriesAccepted(s, k, restart, m);
      var kept := Kept(s.log, m);
      assert TermsInOrder(kept, s.term);
    } else {
      AppendEntriesRefused(s, k, restart, m);
    }
  }

  lemma VoteReplyKeepsSound(s: Server, k: Key, m: Message)
    requires Sound(s) && m.VoteReply? && s.peers != []
    ensures var t := OnVoteReply(s, k, m).server;
      Sound(t) && Later(s, t) && t.currentIdx == s.currentIdx
  {
    hide Heartbeats, Votes, WithVote, PromotedPeers, TermsInOrder;
  }

  /** Every event keeps a server sound, moves terms and `current_idx` only forward,
      and moves `current_idx` by exactly the entries it appends. */
  lemma StepKeepsSound(s: Server, e: Event)
    requires Sound(s) && Possible(s, e)
    ensures var t := Handle(s, e).server;
      Sound(t) && Later(s, t) && t.currentIdx == s.currentIdx + Appends(s, e)
  {
    match e
    case Timer(ms, tj, ej) => TimerEffect(s, ms, tj, ej);
    case Submit(_, _) =>
    case Receive(k, restart, m) =>
      match m
      case RequestVote(_, _, _, _) => RequestVoteDecides(s, k, m);
      case VoteReply(_, _) => VoteReplyKeepsSound(s, k, m);
      case AppendEntries(_, _, _, _, _) => AppendEntriesKeepsSound(s, k, restart, m);
      case AppendAccepted(_, _, _) => AcceptedKeepsSound(s, k, m);
      case AppendRefused(_) =>
      case EntryReply(_, _) =>
  }

  function TotalAppends(states: seq<Server>, events: seq<Event>, n: nat): nat
    requires n <= |events| <= |states|
  {
    if n == 0 then 0 else TotalAppends(states, events, n - 1) + Appends(states[n - 1], events[n - 1])
  }

  /** In every run: both indices agree (so the follower catch-up of `periodic` never
      runs), entry terms are ordered and bounded by the current term, and
      `current_idx` is one more than the number of entries ever appended. */
  lemma {:induction false} RunIsSound(states: seq<Server>, events: seq<Event>, n: nat)
    requires IsRun(states, events) && n < |states|
    ensures Sound(states[n])
    ensures states[n].currentIdx == 1 + TotalAppends(states, events, n)
  {
    if n > 0 {
      RunIsSound(states, events, n - 1);
      StepKeepsSound(states[n - 1], events[n - 1]);
    }
  }

  lemma {:induction false} RunMovesForward(states: seq<Server>, events: seq<Event>, i: nat, j: nat)
    requires IsRun(states, events) && i <= j < |states|
    ensures Later(states[i], states[j])
    decreases j - i
  {
    if i < j {
      RunMovesForward(states, events, i, j - 1);
      RunIsSound(states, events, j - 1);
      StepKeepsSound(states[j - 1], events[j - 1]);
    }
  }
}
