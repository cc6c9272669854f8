/**
 `raft_server.cpp` as an object whose handlers update its fields, each proved equal
 to its step function.  The `send` and `applylog` callbacks are the traces `sent`
 and `delivered`; `nodes` is the member list in registry order.
 */
module RaftServers {
  import opened RaftTypes
  import opened RaftLog
  import opened RaftNodes
  import opened ServerSteps

  class RaftServer {
    var term: int
    var votedFor: RaftNode?
    const log: RaftLogger
    var commit: nat
    var applied: nat
    var role: Role
    var currentIdx: nat
    var elapsed: int
    var electionTimeout: int
    var requestTimeout: int
    var leaderCommit: int
    var self: RaftNode?
    var nodes: seq<RaftNode>
    var sent: seq<Packet>
    var delivered: seq<Payload>

    ghost predicate Valid()
      reads this, nodes
    {
      && DistinctNodes(nodes)
      && (self == null || self in nodes)
      && (votedFor == null || votedFor in nodes)
    }

    ghost function View(): Server
      requires Valid()
      reads this, log, nodes
    {
      Server(term, KeyOf(votedFor), log.entries, commit, applied, role, currentIdx,
             elapsed, electionTimeout, requestTimeout, leaderCommit, KeyOf(self), PeersOf(nodes))
    }

    /** The object now shows exactly what the step function says, and no node, nor the
        member list, was exchanged for another. */
    twostate predicate Did(o: Outcome)
      reads this, log, nodes
    {
      && Valid() && nodes == old(nodes)
      && View() == o.server
      && sent == old(sent) + o.sent
      && delivered == old(delivered) + o.delivered
    }

    constructor ()
      ensures Valid() && fresh(log) && nodes == [] && sent == [] && delivered == []
      ensures Initial(View()) && electionTimeout == 1000 && requestTimeout == 200 && self == null
    {
      term, commit, applied, currentIdx, elapsed, leaderCommit := 0, 0, 0, 1, 0, 0;
      electionTimeout, requestTimeout := 1000, 200;
      votedFor, self := null, null;
      role := Follower;
      nodes, sent, delivered := [], [], [];
      var logger := new RaftLogger();
      log := logger;
    }

    lemma SameNode(n: RaftNode, i: nat)
      requires Valid() && n in nodes && i < |nodes|
      ensures nodes[i] == n <==> nodes[i].key == n.key
    {
    }

    // --- outgoing -----------------------------------------------------------------------

    method SendAppendEntries(node: RaftNode)
      modifies this`sent
      ensures sent == old(sent) + [Packet(node.key, AppendEntries(term, 0, node.nextIdx, leaderCommit, []))]
    {
      hide DistinctNodes, PeersOf;
      sent := sent + [Packet(node.key, AppendEntries(term, 0, node.nextIdx, leaderCommit, []))];
    }

    method SendAppendEntriesToOthers()
      requires Valid()
      modifies this`sent
      ensures Valid() && View() == old(View()) && sent == old(sent) + Heartbeats(View(), false, |nodes|)
    {
      hide DistinctNodes, PeersOf;
      PeersAt(nodes);
      for i := 0 to |nodes|
        invariant sent == old(sent) + Heartbeats(View(), false, i)
      {
        if self != null { SameNode(self, i); }
        if nodes[i] != self { SendAppendEntries(nodes[i]); }
      }
    }

    method SendRequestVoteToOthers()
      requires Valid()
      modifies this`sent
      ensures Valid() && View() == old(View()) && sent == old(sent) + VoteRequests(View(), |nodes|)
    {
      hide DistinctNodes, PeersOf;
      PeersAt(nodes);
      for i := 0 to |nodes|
        invariant sent == old(sent) + VoteRequests(View(), i)
      {
        if self != null { SameNode(self, i); }
        if nodes[i] != self && !nodes[i].isLeader {
          sent := sent + [Packet(nodes[i].key, RequestVote(term, 0, currentIdx, 0))];
        }
      }
    }

    method Send(dst: RaftNode, m: Message)
      requires Valid()
      modifies this`sent
      ensures Valid() && View() == old(View()) && sent == old(sent) + [Packet(dst.key, m)]
    {
      hide DistinctNodes, PeersOf;
      sent := sent + [Packet(dst.key, m)];
    }

    // --- nodes ------------------------------------------------------------------------------

    method SetVotesForMe(node: RaftNode, voted: bool)
      requires Valid() && node in nodes
      modifies node`votesForMe
      ensures Valid() && View() == old(View()).(peers := WithVote(old(View()).peers, node.key, voted))
    {
      hide DistinctNodes, PeersOf;
      PeersAt(nodes);
      ghost var was := PeersOf(nodes);
      node.votesForMe := voted;
      PeersAt(nodes);
      forall i | 0 <= i < |nodes| ensures nodes[i].AsPeer() == WithVote(was, node.key, voted)[i] {
        SameNode(node, i);
      }
      assert PeersOf(nodes) == WithVote(was, node.key, voted);
    }

    method SetNextIdx(node: RaftNode, idx: int)
      requires Valid() && node in nodes
      modifies node`nextIdx
      ensures Valid() && View() == old(View()).(peers := WithNextIdx(old(View()).peers, node.key, idx))
    {
      hide DistinctNodes, PeersOf;
      PeersAt(nodes);
      ghost var was := PeersOf(nodes);
      node.nextIdx := idx;
      PeersAt(nodes);
      forall i | 0 <= i < |nodes| ensures nodes[i].AsPeer() == WithNextIdx(was, node.key, idx)[i] {
        SameNode(node, i);
      }
      assert PeersOf(nodes) == WithNextIdx(was, node.key, idx);
    }

    /** One visit of `become_leader`. */
    method PromoteOne(i: nat)
      requires Valid() && i < |nodes|
      modifies this`sent, nodes`nextIdx
      ensures Valid()
      ensures var s := old(View());
        View() == if Visited(s, s.peers[i], true)
          then s.(peers := WithNextIdx(s.peers, s.peers[i].key, s.currentIdx + 1)) else s
      ensures sent == old(sent) +
        if Visited(old(View()), old(View()).peers[i], true) then [Heartbeat(View(), View().peers[i])] else []
    {
      hide DistinctNodes, PeersOf, WithNextIdx;
      PeersAt(nodes);
      if self != null { SameNode(self, i); }
      if nodes[i] != self && !nodes[i].isLeader {
        SetNextIdx(nodes[i], currentIdx + 1);
        PeersAt(nodes);
        SendAppendEntries(nodes[i]);
      }
    }

    /** The visiting loop of `become_leader`. */
    method PromoteOthers()
      requires Valid()
      modifies this`sent, nodes`nextIdx
      ensures Valid() && View() == old(View()).(peers := PromotedPeers(old(View())))
      ensures sent == old(sent) + Heartbeats(View(), true, |nodes|)
    {
      hide DistinctNodes, PeersOf, PromotedPeers, WithNextIdx, DistinctKeys, Halfway, Visited, Heartbeat;
      ghost var s := View();
      ghost var t := s.(peers := PromotedPeers(s));
      HalfwayEnds(s);
      for i := 0 to |nodes|
        invariant Valid() && View() == Halfway(s, i)
        invariant sent == old(sent) + Heartbeats(t, true, i)
      {
        hide Heartbeats;
        DistinctPeers();
        PromoteStep(s, i);
        PromoteOne(i);
      }
    }

    lemma DistinctPeers()
      requires Valid()
      ensures DistinctKeys(View().peers)
    {
      PeersAt(nodes);
    }

    /** `become_leader` after visiting the first `i` members. */
    static ghost function Halfway(s: Server, i: nat): (r: Server)
      requires i <= |s.peers|
      ensures |r.peers| == |s.peers|
    {
      s.(peers := PromotedPeers(s)[..i] + s.peers[i..])
    }

    static lemma HalfwayEnds(s: Server)
      ensures Halfway(s, 0) == s && Halfway(s, |s.peers|) == s.(peers := PromotedPeers(s))
    {
    }

    static lemma PromoteStep(s: Server, i: nat)
      requires i < |s.peers| && DistinctKeys(Halfway(s, i).peers)
      ensures var a, b, t := Halfway(s, i), Halfway(s, i + 1), s.(peers := PromotedPeers(s));
        var visit := Visited(a, a.peers[i], true);
        && b == (if visit then a.(peers := WithNextIdx(a.peers, a.peers[i].key, a.currentIdx + 1)) else a)
        && Heartbeats(t, true, i + 1) == Heartbeats(t, true, i) + if visit then [Heartbeat(b, b.peers[i])] else []
    {
      var a, b := Halfway(s, i), Halfway(s, i + 1);
      if Visited(a, a.peers[i], true) {
        assert b.peers == WithNextIdx(a.peers, a.peers[i].key, a.currentIdx + 1);
      } else {
        assert b.peers == a.peers;
      }
    }

    // --- roles ------------------------------------------------------------------------------

    method BecomeLeader()
      requires Valid()
      modifies this`role, this`votedFor, this`sent, nodes`nextIdx
      ensures Valid() && View() == Elected(old(View()))
      ensures sent == old(sent) + Heartbeats(View(), true, |nodes|)
    {
      hide DistinctNodes, PeersOf;
      ghost var s := View();
      role, votedFor := Leader, null;
      assert PromotedPeers(View()) == PromotedPeers(s);
      PromoteOthers();
    }

    method BecomeCandidate(termJitter: nat, elapsedJitter: nat)
      requires Valid()
      modifies this`term, this`votedFor, this`role, this`elapsed, this`sent
      ensures Valid() && View() == Campaign(old(View()), termJitter, elapsedJitter)
      ensures sent == old(sent) + VoteRequests(View(), |nodes|)
    {
      hide DistinctNodes, PeersOf;
      term, votedFor, role, elapsed := term + 1 + termJitter, self, Candidate, elapsedJitter;
      ghost var s := View();
      SendRequestVoteToOthers();
      assert View() == s;
    }

    method BecomeFollower()
      requires Valid()
      modifies this`role, this`votedFor
      ensures Valid() && View() == ServerSteps.BecomeFollower(old(View()))
    {
      hide DistinctNodes, PeersOf;
      role, votedFor := Follower, null;
    }

    method GetVotesForMe() returns (votes: int)
      requires Valid()
      ensures votes == Votes(View())
    {
      hide DistinctNodes, PeersOf;
      PeersAt(nodes);
      votes := 0;
      for i := 0 to |nodes|
        invariant votes == PeerVotes(View(), i)
      {
        if self != null { SameNode(self, i); }
        if nodes[i] != self && nodes[i].votesForMe { votes := votes + 1; }
      }
      if votedFor != null && self != null {
        ghost var k :| 0 <= k < |nodes| && nodes[k] == votedFor;
        SameNode(self, k);
      }
      if votedFor == self { votes := votes + 1; }
    }

    // --- handlers ---------------------------------------------------------------------------

    method ApplyEntry() returns (ok: bool)
      requires Valid()
      modifies this`applied, this`commit, this`delivered
      ensures Valid()
      ensures var (t, p) := ServerSteps.ApplyEntry(old(View()));
        View() == t && delivered == old(delivered) + p && (ok <==> p != [])
    {
      hide DistinctNodes, PeersOf;
      var e := log.GetFromIdx(applied + 1);
      if e.None? { return false; }
      applied := applied + 1;
      if commit < applied { commit := applied; }
      delivered := delivered + [e.value.data];
      return true;
    }

    /** `periodic`; `termJitter` and `elapsedJitter` are the two random draws. */
    method Periodic(msec: nat, termJitter: nat, elapsedJitter: nat)
      requires Valid() && termJitter < Max(|nodes|, MINIMUM_RAND_FACTOR) && elapsedJitter < ELAPSED_JITTER
      modifies this
      ensures Did(OnTimer(old(View()), msec, termJitter, elapsedJitter))
    {
      hide DistinctNodes, PeersOf;
      hide Heartbeats, VoteRequests;
      if role == Follower && applied < commit {
        var ok := ApplyEntry();
        if !ok { return; }
      }
      ghost var s1 := View();
      elapsed := elapsed + msec;
      assert View() == s1.(elapsed := s1.elapsed + msec);
      if role == Leader {
        if requestTimeout <= elapsed { SendAppendEntriesAll(); }
      } else if electionTimeout <= elapsed {
        BecomeCandidate(termJitter, elapsedJitter);
      }
    }

    /** `send_appendentries_all`, with the timer restart that follows it. */
    method SendAppendEntriesAll()
      requires Valid()
      modifies this`leaderCommit, this`elapsed, this`sent
      ensures Valid() && View() == old(View()).(leaderCommit := old(View()).leaderCommit + 1, elapsed := 0)
      ensures sent == old(sent) + Heartbeats(View(), false, |nodes|)
    {
      hide DistinctNodes, PeersOf;
      leaderCommit := leaderCommit + 1;
      SendAppendEntriesToOthers();
      ghost var v := View();
      elapsed := 0;
      assert View() == v.(elapsed := 0);
      HeartbeatsIgnoreTimer(v, |nodes|);
    }

    static lemma {:induction false} HeartbeatsIgnoreTimer(s: Server, n: nat)
      requires n <= |s.peers|
      ensures Heartbeats(s, false, n) == Heartbeats(s.(elapsed := 0), false, n)
    {
      if n > 0 { HeartbeatsIgnoreTimer(s, n - 1); }
    }

    method RecvRequestVote(node: RaftNode, m: Message)
      requires Valid() && node in nodes && m.RequestVote?
      modifies this
      ensures Did(OnRequestVote(old(View()), node.key, m))
    {
      hide DistinctNodes, PeersOf;
      if term < m.term { votedFor := null; }
      var granted;
      if m.term < term || votedFor != null || m.lastLogIdx < currentIdx {
        granted := false;
      } else {
        votedFor := node;
        granted := true;
      }
      sent := sent + [Packet(node.key, VoteReply(term, granted))];
    }

    method RecvVoteReply(node: RaftNode, m: Message)
      requires Valid() && node in nodes && m.VoteReply?
      modifies this, nodes
      ensures Did(OnVoteReply(old(View()), node.key, m))
    {
      hide DistinctNodes, PeersOf;
      hide Heartbeats, Votes, PromotedPeers;
      if role == Leader { return; }
      SetVotesForMe(node, m.granted);
      if m.granted {
        var votes := GetVotesForMe();
        if votes <= |nodes| - 1 && (|nodes| - 1) / 2 + 1 <= votes { BecomeLeader(); }
      }
    }

    /** The loop after an AppendEntries that appends its entries. */
    method AppendMessageEntries(es: seq<ClientEntry>) returns (ok: bool)
      requires Valid()
      modifies log, this`currentIdx
      ensures Valid() && (View(), ok) == AppendMany(old(View()), es)
    {
      hide DistinctNodes, PeersOf;
      ghost var s := View();
      assert es[0..] == es;
      for i := 0 to |es|
        modifies log, this`currentIdx
        invariant Valid() && AppendMany(s, es) == AppendMany(View(), es[i..])
      {
        ghost var before := View();
        var added := AppendEntry(Entry(term, es[i].id, es[i].data, 0));
        assert es[i..][1..] == es[i + 1..];
        if !added {
          assert View() == before;
          return false;
        }
      }
      return true;
    }

    method AppendEntry(c: Entry) returns (ok: bool)
      requires Valid()
      modifies log, this`currentIdx
      ensures Valid() && (View(), ok) == AppendOne(old(View()), c.term, ClientEntry(c.id, c.data))
    {
      hide DistinctNodes, PeersOf;
      ok := log.Append(c);
      if ok { currentIdx := currentIdx + 1; }
    }

    method ApplyAllEntries()
      requires Valid()
      modifies this`commit, this`applied, this`delivered
      ensures Valid() && View() == ApplyAll(old(View())).0 && delivered == old(delivered) + ApplyAll(old(View())).1
    {
      hide DistinctNodes, PeersOf;
      ghost var s := View();
      var more := true;
      while more
        invariant Valid()
        invariant more ==> ApplyAll(s).0 == ApplyAll(View()).0
        invariant more ==> old(delivered) + ApplyAll(s).1 == delivered + ApplyAll(View()).1
        invariant !more ==> View() == ApplyAll(s).0 && delivered == old(delivered) + ApplyAll(s).1
        decreases more, |log.entries| - applied
      {
        more := ApplyEntry();
      }
    }

    /** The commit block of an AppendEntries. */
    method TakeLeaderCommit(target: int)
      requires Valid()
      modifies this`commit, this`applied, this`delivered
      ensures Valid()
      ensures var (t, p) := CommitFromLeader(old(View()), target);
        View() == t && delivered == old(delivered) + p
    {
      hide DistinctNodes, PeersOf, ApplyAll;
      if commit < target {
        var tail := log.PeekTail();
        if tail.Some? {
          ghost var s := View();
          commit := if tail.value.id < target then tail.value.id else target;
          applied := commit;
          assert View() == s.(commit := commit, applied := commit);
          ApplyAllEntries();
        }
      }
    }

    /** Timer restart and stepping down at the head of `recv_appendentries`. */
    method RecogniseLeader(asResponse: bool, leaderTerm: int)
      requires Valid()
      modifies this`elapsed, this`role, this`votedFor
      ensures Valid() && View() == Recognise(old(View()), asResponse, leaderTerm)
    {
      hide DistinctNodes, PeersOf;
      if asResponse { elapsed := 0; }
      if role == Leader && term <= leaderTerm { BecomeFollower(); }
    }

    method AdoptTerm(leaderTerm: int)
      requires Valid()
      modifies this`term, this`role, this`votedFor
      ensures Valid() && View() == Adopt(old(View()), leaderTerm)
    {
      hide DistinctNodes, PeersOf;
      if role == Candidate { BecomeFollower(); }
      term := leaderTerm;
    }

    /** The consistency check and the deletion of what follows the previous entry. */
    method CutToPrev(m: Message) returns (ok: bool)
      requires Valid() && m.AppendEntries?
      modifies log
      ensures Valid() && (ok <==> PrevMatches(old(View()).log, m))
      ensures View() == if ok then old(View()).(log := Kept(old(View()).log, m)) else old(View())
    {
      hide DistinctNodes, PeersOf;
      if m.prevLogIdx == 0 { return true; }
      var e := log.GetFromIdx(m.prevLogIdx);
      if e.None? || e.value.term != m.prevLogTerm { return false; }
      log.DeleteFrom(m.prevLogIdx + 1);
      return true;
    }

    method RecvAppendEntries(asResponse: bool, node: RaftNode, m: Message)
      requires Valid() && node in nodes && m.AppendEntries?
      modifies this, log
      ensures Did(OnAppendEntries(old(View()), node.key, asResponse, m))
    {
      hide DistinctNodes, PeersOf;
      hide AppendMany, CommitFromLeader, Recognise, Adopt, PrevMatches, Kept;
      var myTerm := term;
      RecogniseLeader(asResponse, m.term);
      var consistent := m.term >= term;
      if consistent { consistent := CutToPrev(m); }
      if !consistent {
        Send(node, AppendRefused(myTerm));
        return;
      }
      TakeLeaderCommit(m.leaderCommit);
      AdoptTerm(m.term);
      var ok := AppendMessageEntries(m.entries);
      Send(node, if ok then AppendAccepted(myTerm, currentIdx, m.prevLogIdx + 1) else AppendRefused(myTerm));
    }

    /** The marking loop of a success response; false when a lookup throws. */
    method MarkCommitted(first: int, last: int) returns (ok: bool)
      requires Valid() && (first <= last ==> Addressable(log.entries, first))
      modifies log
      ensures Valid()
      ensures View() == old(View()).(log := log.entries)
      ensures (log.entries, ok) == MarkRange(old(log.entries), first, last)
    {
      hide DistinctNodes, PeersOf;
      var i := first;
      while i <= last
        invariant i <= last ==> Addressable(log.entries, i)
        invariant MarkRange(old(log.entries), first, last) == MarkRange(log.entries, i, last)
        decreases last - i
      {
        var found := log.MarkNodeHasCommitted(i);
        if !found { return false; }
        i := i + 1;
      }
      return true;
    }

    /** Answers whether a `std::runtime_error` left the handler. */
    method RecvAppendAccepted(node: RaftNode, m: Message) returns (threw: bool)
      requires Valid() && node in nodes && m.AppendAccepted? && Markable(View(), m)
      modifies this, log, node
      ensures Did(OnAppendAccepted(old(View()), node.key, m))
      ensures threw == OnAppendAccepted(old(View()), node.key, m).threw
    {
      hide DistinctNodes, PeersOf;
      hide MarkRange, CommitLoop, WithNextIdx;
      SetNextIdx(node, m.currentIdx);
      var ok := MarkCommitted(m.firstIdx, m.currentIdx);
      if !ok { return true; }
      threw := AdvanceCommit(m.currentIdx);
    }

    /** One round of the commit loop, case by case. */
    static lemma CommitRound(s: Server, target: int)
      requires s.commit < target
      ensures s.applied >= |s.log| ==> CommitLoop(s, target) == (s, [], true)
      ensures s.applied < |s.log| && s.log[s.applied].acks < |s.peers| / 2 ==> CommitLoop(s, target) == (s, [], false)
      ensures s.applied < |s.log| && |s.peers| / 2 <= s.log[s.applied].acks ==>
        var (s1, p) := ServerSteps.ApplyEntry(s);
        if s.log[s.applied].id == target then CommitLoop(s, target) == (s1, p, false)
        else var r := CommitLoop(s1, target); CommitLoop(s, target) == (r.0, p + r.1, r.2)
    {
    }

    static lemma CommitDone(s: Server, target: int)
      requires s.commit >= target
      ensures CommitLoop(s, target) == (s, [], false)
    {
    }

    /** The commit loop of a success response. */
    method AdvanceCommit(target: int) returns (threw: bool)
      requires Valid()
      modifies this`commit, this`applied, this`delivered
      ensures Valid()
      ensures var (t, p, x) := CommitLoop(old(View()), target);
        View() == t && delivered == old(delivered) + p && threw == x
    {
      hide DistinctNodes, PeersOf, CommitLoop;
      ghost var s := View();
      while commit < target
        invariant Valid()
        invariant CommitLoop(s, target).0 == CommitLoop(View(), target).0
        invariant old(delivered) + CommitLoop(s, target).1 == delivered + CommitLoop(View(), target).1
        invariant CommitLoop(s, target).2 == CommitLoop(View(), target).2
        decreases |log.entries| - applied
      {
        CommitRound(View(), target);
        var e := log.GetFromIdx(applied + 1);
        if e.None? { return true; }
        if |nodes| / 2 <= e.value.acks {
          var ok := ApplyEntry();
          if e.value.id == target { return false; }
        } else {
          return false;
        }
      }
      CommitDone(View(), target);
      return false;
    }

    method RecvAppendRefused(node: RaftNode)
      requires Valid() && node in nodes
      modifies this
      ensures HasPeer(old(View()).peers, node.key) && Did(OnAppendRefused(old(View()), node.key))
    {
      hide DistinctNodes, PeersOf;
      PeersAt(nodes);
      ghost var k :| 0 <= k < |nodes| && nodes[k] == node;
      assert View().peers[k].key == node.key;
      SendAppendEntries(node);
      ghost var p := PeerOf(View().peers, node.key);
      ghost var i :| 0 <= i < |nodes| && nodes[i].AsPeer() == p;
      SameNode(node, i);
    }

    method RecvEntry(node: RaftNode, c: ClientEntry)
      requires Valid() && node in nodes
      modifies this, log
      ensures Did(OnClientEntry(old(View()), node.key, c))
    {
      hide DistinctNodes, PeersOf;
      hide Heartbeats;
      var ok := AppendEntry(Entry(term, c.id, c.data, 0));
      Send(node, EntryReply(c.id, ok));
      SendAppendEntriesToOthers();
    }
  }
}
