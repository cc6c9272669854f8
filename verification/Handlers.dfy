/**
 The whole outcome of every handler, said of keys, flags, terms and positions: who is sent
 what, in which order, and what every field is afterwards.
 */
module Handlers {
  import opened RaftTypes
  import opened RaftLog
  import opened ServerSteps
  import opened ServerTheorems
  import opened Responses

  // --- who is addressed ------------------------------------------------------------------

  /** `to` are, in list order and once each, the positions of the members other than `self`,
      and other than flagged leaders if those are spared. */
  predicate Addressees(to: seq<nat>, peers: seq<Peer>, self: Option<Key>, sparesLeader: bool) {
    && (forall j :: 0 <= j < |to| ==> to[j] < |peers|)
    && (forall j, k :: 0 <= j < k < |to| ==> to[j] < to[k])
    && (forall i :: 0 <= i < |peers| ==>
          (i in to <==> self != Some(peers[i].key) && !(sparesLeader && peers[i].isLeader)))
  }

  /** One AppendEntries without entries and with previous index 0 for each addressee. */
  predicate TellsEach(sent: seq<Packet>, to: seq<nat>, peers: seq<Peer>, term: int, leaderCommit: int) {
    |sent| == |to| && forall j :: 0 <= j < |to| ==>
      && to[j] < |peers|
      && sent[j] == Packet(peers[to[j]].key, AppendEntries(term, 0, peers[to[j]].nextIdx, leaderCommit, []))
  }

  /** One vote request for each addressee. */
  predicate AsksEach(sent: seq<Packet>, to: seq<nat>, peers: seq<Peer>, term: int, idx: int) {
    |sent| == |to| && forall j :: 0 <= j < |to| ==>
      && to[j] < |peers|
      && sent[j] == Packet(peers[to[j]].key, RequestVote(term, 0, idx, 0))
  }

  lemma AddresseesGrow(to: seq<nat>, peers: seq<Peer>, n: nat, self: Option<Key>, spares: bool)
    requires n < |peers| && Addressees(to, peers[..n], self, spares)
    ensures var p := peers[n]; var told := self != Some(p.key) && !(spares && p.isLeader);
      Addressees(if told then to + [n] else to, peers[..n + 1], self, spares)
  {
    var p := peers[n];
    var told := self != Some(p.key) && !(spares && p.isLeader);
    var more := if told then to + [n] else to;
    assert peers[..n + 1] == peers[..n] + [p];
    assert n !in to;
    forall i | 0 <= i <= n ensures i in more <==> self != Some(peers[i].key) && !(spares && peers[i].isLeader) {
      if i < n { assert peers[..n][i] == peers[i]; }
    }
  }

  lemma {:induction false} HeartbeatsGo(s: Server, spares: bool, n: nat) returns (to: seq<nat>)
    requires n <= |s.peers|
    ensures Addressees(to, s.peers[..n], s.self, spares)
    ensures TellsEach(Heartbeats(s, spares, n), to, s.peers, s.term, s.leaderCommit)
  {
    hide Addressees, TellsEach;
    if n == 0 {
      to := [];
      assert Addressees([], [], s.self, spares) by { Nobody(s.self, spares); }
      assert TellsEach([], [], s.peers, s.term, s.leaderCommit) by { Nothing(s.peers, s.term, s.leaderCommit); }
    } else {
      to := HeartbeatsGo(s, spares, n - 1);
      AddresseesGrow(to, s.peers, n - 1, s.self, spares);
      if Visited(s, s.peers[n - 1], spares) {
        TellsMore(Heartbeats(s, spares, n - 1), to, s.peers, n - 1, s.term, s.leaderCommit);
        to := to + [n - 1];
      } else {
        assert Heartbeats(s, spares, n) == Heartbeats(s, spares, n - 1);
      }
    }
  }

  lemma Nobody(self: Option<Key>, spares: bool)
    ensures Addressees([], [], self, spares)
  {
  }

  lemma Nothing(peers: seq<Peer>, term: int, x: int)
    ensures TellsEach([], [], peers, term, x) && AsksEach([], [], peers, term, x)
  {
  }

  lemma TellsMore(sent: seq<Packet>, to: seq<nat>, peers: seq<Peer>, n: nat, term: int, leaderCommit: int)
    requires n < |peers| && TellsEach(sent, to, peers, term, leaderCommit)
    ensures var p := Packet(peers[n].key, AppendEntries(term, 0, peers[n].nextIdx, leaderCommit, []));
      TellsEach(sent + [p], to + [n], peers, term, leaderCommit)
  {
  }

  lemma AsksMore(sent: seq<Packet>, to: seq<nat>, peers: seq<Peer>, n: nat, term: int, idx: int)
    requires n < |peers| && AsksEach(sent, to, peers, term, idx)
    ensures AsksEach(sent + [Packet(peers[n].key, RequestVote(term, 0, idx, 0))], to + [n], peers, term, idx)
  {
  }

  lemma {:induction false} RequestsGo(s: Server, n: nat) returns (to: seq<nat>)
    requires n <= |s.peers|
    ensures Addressees(to, s.peers[..n], s.self, true)
    ensures AsksEach(VoteRequests(s, n), to, s.peers, s.term, s.currentIdx)
  {
    hide Addressees, AsksEach;
    if n == 0 {
      to := [];
      assert Addressees([], [], s.self, true) by { Nobody(s.self, true); }
      assert AsksEach([], [], s.peers, s.term, s.currentIdx) by { Nothing(s.peers, s.term, s.currentIdx); }
    } else {
      to := RequestsGo(s, n - 1);
      AddresseesGrow(to, s.peers, n - 1, s.self, true);
      if Visited(s, s.peers[n - 1], true) {
        AsksMore(VoteRequests(s, n - 1), to, s.peers, n - 1, s.term, s.currentIdx);
        to := to + [n - 1];
      } else {
        assert VoteRequests(s, n) == VoteRequests(s, n - 1);
      }
    }
  }

  // --- the handlers ------------------------------------------------------------------------

  /** `periodic`: a follower that lags behind its commit index applies one entry, or stops
      there if the log has none; then a due leader tells everyone, counting its leader commit
      up, a due server of any other role asks everyone but the old leader, in a larger term,
      and anyone else only counts the time. */
  lemma TimerExact(s: Server, ms: nat, tj: nat, ej: nat) returns (to: seq<nat>)
    ensures var o := OnTimer(s, ms, tj, ej); var late := s.elapsed + ms;
      var lags := s.role.Follower? && s.applied < s.commit;
      if lags && |s.log| <= s.applied then o == Outcome(s, [], [], false) else
      var s1 := s.(applied := s.applied + if lags then 1 else 0);
      && o.delivered == (if lags then [s.log[s.applied].data] else []) && !o.threw
      && (s.role.Leader? && s.requestTimeout <= late ==>
            && o.server == s1.(elapsed := 0, leaderCommit := s.leaderCommit + 1)
            && Addressees(to, s.peers, s.self, false)
            && TellsEach(o.sent, to, s.peers, s.term, s.leaderCommit + 1))
      && (!s.role.Leader? && s.electionTimeout <= late ==>
            && o.server == s1.(term := s.term + 1 + tj, votedFor := s.self, role := Candidate, elapsed := ej)
            && Addressees(to, s.peers, s.self, true)
            && AsksEach(o.sent, to, s.peers, s.term + 1 + tj, s.currentIdx))
      && (late < (if s.role.Leader? then s.requestTimeout else s.electionTimeout) ==>
            o.server == s1.(elapsed := late) && o.sent == [])
  {
    hide Heartbeats, VoteRequests, Addressees, TellsEach, AsksEach;
    var o := OnTimer(s, ms, tj, ej);
    assert s.peers[..|s.peers|] == s.peers;
    to := [];
    if s.role.Leader? {
      to := HeartbeatsGo(s.(elapsed := 0, leaderCommit := s.leaderCommit + 1), false, |s.peers|);
    } else if o.server.role.Candidate? {
      to := RequestsGo(o.server, |s.peers|);
    }
  }

  /** `recv_requestvote_response`: a leader ignores it; anyone else records the flag of that
      member alone; a winner tells everyone but the old leader, whose next indices become its
      own index plus one. */
  lemma VoteReplyExact(s: Server, from: Key, m: Message) returns (to: seq<nat>)
    requires m.VoteReply? && s.peers != []
    ensures var o := OnVoteReply(s, from, m); var t := o.server; var wins := !s.role.Leader? && t.role.Leader?;
      && |t.peers| == |s.peers| && o.delivered == [] && !o.threw
      && (s.role.Leader? ==> o == Outcome(s, [], [], false))
      && (!s.role.Leader? ==> forall i :: 0 <= i < |s.peers| ==>
            t.peers[i] == s.peers[i].(
              voted := if s.peers[i].key == from then m.granted else s.peers[i].voted,
              nextIdx := if wins && i in to then s.currentIdx + 1 else s.peers[i].nextIdx))
      && (!s.role.Leader? && !wins ==> o.sent == [] && t == s.(peers := t.peers))
      && (wins ==>
            && t == s.(role := Leader, votedFor := None, peers := t.peers)
            && Addressees(to, s.peers, s.self, true)
            && TellsEach(o.sent, to, t.peers, s.term, s.leaderCommit))
  {
    hide Votes, Heartbeats;
    to := [];
    var t := OnVoteReply(s, from, m).server;
    if !s.role.Leader? && t.role.Leader? {
      to := HeartbeatsGo(t, true, |t.peers|);
      assert t.peers[..|t.peers|] == t.peers;
      SameAddressees(to, t.peers, s.peers, s.self, true);
    }
  }

  lemma SameAddressees(to: seq<nat>, a: seq<Peer>, b: seq<Peer>, self: Option<Key>, spares: bool)
    requires |a| == |b| && forall i :: 0 <= i < |a| ==> a[i].key == b[i].key && a[i].isLeader == b[i].isLeader
    requires Addressees(to, a, self, spares)
    ensures Addressees(to, b, self, spares)
  {
  }

  /** The entry at the previous index is there and has the previous term. */
  predicate Consistent(log: seq<Entry>, idx: int, term: int) {
    1 <= idx <= |log| && log[idx - 1].term == term
  }

  /** `recv_appendentries`.  Refused, for a stale term or for lack of a consistent previous
      entry, it leaves log, term and indices alone.  Otherwise the log is its old entries up to
      the previous index, all of them if that is 0, followed by the message's entries before
      the first with id 0, under the message's term. */
  lemma AppendEntriesExact(s: Server, from: Key, restart: bool, m: Message)
    requires m.AppendEntries? && s.commit == s.applied
    ensures var o := OnAppendEntries(s, from, restart, m); var t := o.server;
      var stale := m.term < s.term;
      var refused := stale || (m.prevLogIdx != 0 && !Consistent(s.log, m.prevLogIdx, m.prevLogTerm));
      var stepsDown := !stale && (s.role.Leader? || (s.role.Candidate? && !refused));
      && !o.threw
      && t == s.(term := t.term, log := t.log, commit := t.commit, applied := t.commit, currentIdx := t.currentIdx,
                 elapsed := if restart then 0 else s.elapsed,
                 role := if stepsDown then Follower else s.role,
                 votedFor := if stepsDown then None else s.votedFor)
      && (refused ==>
            && t.log == s.log && t.term == s.term && t.commit == s.commit && t.currentIdx == s.currentIdx
            && o.sent == [Packet(from, AppendRefused(s.term))] && o.delivered == [])
      && (!refused ==>
            var n := if m.prevLogIdx == 0 then |s.log| else m.prevLogIdx;
            var added := |t.log| - n;
            && 0 <= added <= |m.entries| && n <= |s.log| && t.log[..n] == s.log[..n]
            && (m.prevLogIdx != 0 ==> t.log[n - 1].term == m.prevLogTerm)
            && (forall k :: 0 <= k < added ==>
                  m.entries[k].id != 0 && t.log[n + k] == Entry(m.term, m.entries[k].id, m.entries[k].data, 0))
            && (added < |m.entries| ==> m.entries[added].id == 0)
            && t.term == m.term && t.currentIdx == s.currentIdx + added
            && (if s.commit < m.leaderCommit && n > 0 then
                  var least := Min(s.log[n - 1].id, m.leaderCommit);
                  t.commit == Max(least, n) && o.delivered == Payloads(s.log[Min(least, n)..n])
                else t.commit == s.commit && o.delivered == [])
            && o.sent == [Packet(from,
                 if added == |m.entries| then AppendAccepted(s.term, t.currentIdx, m.prevLogIdx + 1)
                 else AppendRefused(s.term))])
  {
    hide OnAppendEntries, Payloads;
    if Accepts(s, m) {
      AppendEntriesAccepted(s, from, restart, m);
      KeptIsPrefix(s, m);
      AddedEntries(s, m);
      hide Stamped, Usable, PrevMatches;
    } else {
      AppendEntriesRefused(s, from, restart, m);
    }
  }

  lemma KeptIsPrefix(s: Server, m: Message)
    requires m.AppendEntries? && Accepts(s, m)
    ensures var n := if m.prevLogIdx == 0 then |s.log| else m.prevLogIdx; var kept := Kept(s.log, m);
      && 0 <= n == |kept| <= |s.log| && kept == s.log[..n]
      && forall lo :: 0 <= lo <= n ==> kept[lo..] == s.log[lo..n]
  {
  }

  lemma AddedEntries(s: Server, m: Message)
    requires m.AppendEntries? && Accepts(s, m)
    ensures var kept := Kept(s.log, m); var added := Usable(m.entries);
      var log := kept + Stamped(m.entries[..added], m.term);
      && |log| == |kept| + added && log[..|kept|] == kept
      && (forall k :: 0 <= k < added ==>
            m.entries[k].id != 0 && log[|kept| + k] == Entry(m.term, m.entries[k].id, m.entries[k].data, 0))
  {
    var kept, added := Kept(s.log, m), Usable(m.entries);
    var log := kept + Stamped(m.entries[..added], m.term);
    forall k | 0 <= k < added ensures log[|kept| + k] == Entry(m.term, m.entries[k].id, m.entries[k].data, 0) {
      assert log[|kept| + k] == Stamped(m.entries[..added], m.term)[k];
    }
  }

  /** A refusal: the member that refused is sent its heartbeat again. */
  lemma RefusalExact(s: Server, i: nat)
    requires DistinctKeys(s.peers) && i < |s.peers|
    ensures HasPeer(s.peers, s.peers[i].key)
    ensures OnAppendRefused(s, s.peers[i].key) == Outcome(s,
      [Packet(s.peers[i].key, AppendEntries(s.term, 0, s.peers[i].nextIdx, s.leaderCommit, []))], [], false)
  {
    var p := PeerOf(s.peers, s.peers[i].key);
    var j :| 0 <= j < |s.peers| && s.peers[j] == p;
    assert i == j;
  }

  /** `recv_entry`: the submitter is told first, and told yes exactly if the log grew by that
      entry under the current term; then every other member is sent a heartbeat. */
  lemma ClientEntryExact(s: Server, from: Key, c: ClientEntry) returns (to: seq<nat>)
    ensures var o := OnClientEntry(s, from, c); var t := o.server;
      var grew := t.log == s.log + [Entry(s.term, c.id, c.data, 0)];
      && (grew <==> c.id != 0)
      && t == s.(log := if grew then t.log else s.log, currentIdx := s.currentIdx + if grew then 1 else 0)
      && o.delivered == [] && !o.threw
      && |o.sent| > 0 && o.sent[0] == Packet(from, EntryReply(c.id, grew))
      && Addressees(to, s.peers, s.self, false) && TellsEach(o.sent[1..], to, s.peers, s.term, s.leaderCommit)
  {
    hide Heartbeats;
    var t := OnClientEntry(s, from, c).server;
    to := HeartbeatsGo(t, false, |t.peers|);
    assert t.peers[..|t.peers|] == t.peers;
    assert |s.log + [Entry(s.term, c.id, c.data, 0)]| != |s.log|;
  }

  /** The answer to a client's entry is not acted upon by a server. */
  lemma EntryReplyExact(s: Server, from: Key, restart: bool, m: Message)
    requires m.EntryReply? && HasPeer(s.peers, from)
    ensures Handle(s, Receive(from, restart, m)) == Outcome(s, [], [], false)
  {
  }

  // --- next indices over every run ------------------------------------------------------------

  /** The event acknowledges an index for a member. */
  predicate Reports(e: Event, k: Key) { e.Receive? && e.from == k && e.msg.AppendAccepted? }

  /** Between the two states the server won an election, and told that member. */
  predicate ToldOfVictory(s: Server, t: Server, i: nat)
    requires i < |s.peers|
  {
    !s.role.Leader? && t.role.Leader? && s.self != Some(s.peers[i].key) && !s.peers[i].isLeader
  }

  lemma NextIdxStep(s: Server, e: Event, i: nat)
    requires Sound(s) && Possible(s, e) && i < |s.peers|
    ensures var t := Handle(s, e).server;
      && |t.peers| == |s.peers|
      && t.peers[i].key == s.peers[i].key
      && t.peers[i].nextIdx ==
           if Reports(e, s.peers[i].key) then e.msg.currentIdx
           else if ToldOfVictory(s, t, i) then s.currentIdx + 1
           else s.peers[i].nextIdx
  {
    hide Heartbeats, VoteRequests, TermsInOrder, Votes, Payloads, Advance, StoppedByLength, OnAppendAccepted;
    match e
    case Timer(ms, tj, ej) => var _ := TimerExact(s, ms, tj, ej);
    case Submit(k, c) =>
    case Receive(k, restart, m) =>
      match m
      case RequestVote(_, _, _, _) => RequestVoteDecides(s, k, m);
      case VoteReply(_, _) => hide OnVoteReply; var _ := VoteReplyExact(s, k, m);
      case AppendEntries(_, _, _, _, _) => hide OnAppendEntries; AppendEntriesExact(s, k, restart, m);
      case AppendAccepted(_, _, _) => ResponseEffect(s, k, m);
      case _ =>
  }

  /** The next index of a member as its last report or the last victory it was told of left
      it, whichever came later. */
  function LastReported(states: seq<Server>, events: seq<Event>, n: nat, i: nat): int
    requires n <= |events| < |states| && forall k :: 0 <= k <= n ==> i < |states[k].peers|
  {
    if n == 0 then states[0].peers[i].nextIdx
    else
      var s, t, e := states[n - 1], states[n], events[n - 1];
      if Reports(e, s.peers[i].key) then e.msg.currentIdx
      else if ToldOfVictory(s, t, i) then s.currentIdx + 1
      else LastReported(states, events, n - 1, i)
  }

  lemma SamePeers(states: seq<Server>, events: seq<Event>, n: nat)
    requires IsRun(states, events) && n < |states|
    ensures forall k :: 0 <= k <= n ==> |states[k].peers| == |states[n].peers|
  {
    forall k | 0 <= k <= n ensures |states[k].peers| == |states[n].peers| { RunMovesForward(states, events, k, n); }
  }

  /** Over every run. */
  lemma {:induction false} NextIndexLaw(states: seq<Server>, events: seq<Event>, n: nat, i: nat)
    requires IsRun(states, events) && n < |states| && i < |states[n].peers|
    ensures forall k :: 0 <= k <= n ==> i < |states[k].peers|
    ensures states[n].peers[i].nextIdx == LastReported(states, events, n, i)
  {
    hide Handle, Possible, Sound;
    SamePeers(states, events, n);
    if n > 0 {
      RunIsSound(states, events, n - 1);
      NextIdxStep(states[n - 1], events[n - 1], i);
      NextIndexLaw(states, events, n - 1, i);
    }
  }
}
