/**
 Who elected a leader: over every behaviour of the cluster.
 */
module Elections {
  import opened RaftTypes
  import opened ServerSteps
  import opened ServerTheorems
  import opened Quorum
  import opened Cluster

  /** At step `j` voter `v` was handed a vote request of `c` and granted it. */
  predicate GrantedAt(states: seq<System>, actions: seq<Action>, j: int, v: Key, c: Key) {
    && 0 <= j < |actions| && j < |states| && actions[j].Deliver?
    && actions[j].envelope.src == c && actions[j].envelope.dst == v && actions[j].envelope.msg.RequestVote?
    && v in states[j].servers && !Refuses(states[j].servers[v], actions[j].envelope.msg)
  }

  /** The grant of step `j` was given to a candidate whose log index and term, as they
      stand at step `n`, were at least the voter's own. */
  predicate Backs(states: seq<System>, actions: seq<Action>, n: nat, j: int, v: Key, c: Key) {
    && GrantedAt(states, actions, j, v, c) && j < n < |states| && c in states[n].servers
    && states[j].servers[v].currentIdx <= states[n].servers[c].currentIdx
    && states[j].servers[v].term <= states[n].servers[c].term
  }

  ghost predicate Backed(states: seq<System>, actions: seq<Action>, n: nat, v: Key, c: Key) {
    exists j :: Backs(states, actions, n, j, v, c)
  }

  ghost predicate FlagsBacked(states: seq<System>, actions: seq<Action>, n: nat, c: Key)
    requires n < |states| && c in states[n].servers
  {
    forall i :: 0 <= i < |states[n].servers[c].peers| && states[n].servers[c].peers[i].voted ==>
      Backed(states, actions, n, states[n].servers[c].peers[i].key, c)
  }

  /** Granted replies in flight and recorded votes, however stale, all go back to grants. */
  ghost predicate VotesBacked(ids: set<Key>, states: seq<System>, actions: seq<Action>, n: nat)
    requires n < |states| && states[n].servers.Keys == ids
  {
    && (forall x :: x in states[n].net && x.msg.VoteReply? && x.msg.granted ==>
          Backed(states, actions, n, x.src, x.dst))
    && (forall c :: c in ids ==> FlagsBacked(states, actions, n, c))
  }

  /** A vote flag is raised only by a granted reply of that member. */
  lemma FlagsComeFromReplies(s: Server, e: Event, i: nat)
    requires Sound(s) && Possible(s, e) && i < |s.peers|
    ensures var t := Handle(s, e).server;
      && |t.peers| == |s.peers| && t.peers[i].key == s.peers[i].key
      && (t.peers[i].voted && !s.peers[i].voted ==>
            e.Receive? && e.from == s.peers[i].key && e.msg.VoteReply? && e.msg.granted)
  {
    StepKeepsSound(s, e);
    match e
    case Timer(ms, tj, ej) => TimerEffect(s, ms, tj, ej);
    case Submit(_, _) =>
    case Receive(k, restart, m) =>
      match m
      case AppendEntries(_, _, _, _, _) =>
        hide OnAppendEntries;
        if Accepts(s, m) { AppendEntriesAccepted(s, k, restart, m); } else { AppendEntriesRefused(s, k, restart, m); }
      case AppendAccepted(_, _, _) =>
        var log := MarkRange(s.log, m.firstIdx, m.currentIdx).0;
        CommitLoopKeeps(s.(peers := WithNextIdx(s.peers, k, m.currentIdx), log := log), m.currentIdx);
      case _ =>
  }

  /** Only a granted reply makes a leader. */
  lemma OnlyRepliesElect(s: Server, e: Event)
    requires Sound(s) && Possible(s, e) && !s.role.Leader? && Handle(s, e).server.role.Leader?
    ensures e.Receive? && e.msg.VoteReply? && e.msg.granted
  {
    match e
    case Timer(ms, tj, ej) => TimerEffect(s, ms, tj, ej);
    case Submit(_, _) =>
    case Receive(k, restart, m) =>
      match m
      case AppendEntries(_, _, _, _, _) =>
        hide OnAppendEntries;
        if Accepts(s, m) { AppendEntriesAccepted(s, k, restart, m); } else { AppendEntriesRefused(s, k, restart, m); }
      case AppendAccepted(_, _, _) =>
        var log := MarkRange(s.log, m.firstIdx, m.currentIdx).0;
        CommitLoopKeeps(s.(peers := WithNextIdx(s.peers, k, m.currentIdx), log := log), m.currentIdx);
      case _ =>
  }

  lemma BackedStays(ids: set<Key>, states: seq<System>, actions: seq<Action>, n: nat, v: Key, c: Key)
    requires IsTrace(ids, states, actions) && n < |actions| && Backed(states, actions, n, v, c) && c in ids
    ensures Backed(states, actions, n + 1, v, c)
  {
    hide IsTrace, Healthy, Enabled, After, GrantedAt;
    TraceStep(ids, states, actions, n);
    TraceMovesForward(ids, states, actions, n, n + 1, c);
    var j :| Backs(states, actions, n, j, v, c);
    assert Backs(states, actions, n + 1, j, v, c);
  }

  /** A granted reply that a step puts on the wire answers a request it was handed. */
  lemma NewReply(ids: set<Key>, c: System, a: Action, x: Envelope)
    requires Healthy(ids, c) && Enabled(c, a)
    requires x in After(c, a).net && x !in c.net && x.msg.VoteReply? && x.msg.granted
    ensures a.Deliver? && a.envelope.src == x.dst && a.envelope.dst == x.src && a.envelope.msg.RequestVote?
    ensures x.src in c.servers && x.dst in c.servers && !Refuses(c.servers[x.src], a.envelope.msg)
    ensures c.servers[x.src].currentIdx <= c.servers[x.dst].currentIdx
    ensures c.servers[x.src].term <= c.servers[x.dst].term
  {
    hide Handle, Possible, Sound, Member;
    var i :| 0 <= i < |Effect(c, a).sent| &&
      x == Envelope(Actor(a), Effect(c, a).sent[i].dst, Effect(c, a).sent[i].msg);
    EverySendIsAccountable(c.servers[Actor(a)], EventOf(a), Effect(c, a).sent[i]);
    assert Credible(ids, c, a.envelope);
  }

  lemma NewReplyIsBacked(ids: set<Key>, states: seq<System>, actions: seq<Action>, n: nat, x: Envelope)
    requires IsTrace(ids, states, actions) && n < |actions| && n + 1 < |states|
    requires x in states[n + 1].net && x !in states[n].net && x.msg.VoteReply? && x.msg.granted
    ensures Backed(states, actions, n + 1, x.src, x.dst)
  {
    hide IsTrace, Enabled, After, Sound, Member, Credible;
    TraceStep(ids, states, actions, n);
    NewReply(ids, states[n], actions[n], x);
    TraceMovesForward(ids, states, actions, n, n + 1, x.dst);
    assert GrantedAt(states, actions, n, x.src, x.dst);
    assert Backs(states, actions, n + 1, n, x.src, x.dst);
  }

  /** A vote flag that a step raises comes from a granted reply in flight. */
  lemma NewFlag(ids: set<Key>, c: System, a: Action, k: Key, i: nat)
    requires Healthy(ids, c) && Enabled(c, a) && k in ids && i < |c.servers[k].peers|
    ensures var s, t := c.servers[k], After(c, a).servers[k];
      && |t.peers| == |s.peers| && t.peers[i].key == s.peers[i].key
      && (t.peers[i].voted && !s.peers[i].voted ==>
            && a.Deliver? && a.envelope in c.net && a.envelope.dst == k && a.envelope.src == s.peers[i].key
            && a.envelope.msg.VoteReply? && a.envelope.msg.granted)
  {
    hide Handle, Possible, Posted, Sound, Member, Credible;
    if Actor(a) == k { FlagsComeFromReplies(c.servers[k], EventOf(a), i); }
  }

  lemma FlagsStayBacked(ids: set<Key>, states: seq<System>, actions: seq<Action>, n: nat, c: Key)
    requires IsTrace(ids, states, actions) && n < |actions| && n + 1 < |states| && c in ids
    requires states[n].servers.Keys == states[n + 1].servers.Keys == ids && VotesBacked(ids, states, actions, n)
    ensures FlagsBacked(states, actions, n + 1, c)
  {
    hide IsTrace, Enabled, After, Healthy, Backed;
    TraceStep(ids, states, actions, n);
    var s, t := states[n].servers[c], states[n + 1].servers[c];
    StepMovesForward(ids, states[n], actions[n], c);
    forall i | 0 <= i < |t.peers| && t.peers[i].voted ensures Backed(states, actions, n + 1, t.peers[i].key, c) {
      assert FlagsBacked(states, actions, n, c);
      NewFlag(ids, states[n], actions[n], c, i);
      BackedStays(ids, states, actions, n, s.peers[i].key, c);
    }
  }

  lemma {:induction false} EveryVoteIsBacked(ids: set<Key>, states: seq<System>, actions: seq<Action>, n: nat)
    requires IsTrace(ids, states, actions) && n < |states|
    ensures states[n].servers.Keys == ids && VotesBacked(ids, states, actions, n)
  {
    hide IsTrace, Enabled, After, Backed, FlagsBacked, Sound, Member;
    TraceIsHealthy(ids, states, actions, n);
    if n == 0 {
      FreshVotes(ids, states, actions);
    } else {
      TraceStep(ids, states, actions, n - 1);
      EveryVoteIsBacked(ids, states, actions, n - 1);
      forall x | x in states[n].net && x.msg.VoteReply? && x.msg.granted
        ensures Backed(states, actions, n, x.src, x.dst)
      {
        if x in states[n - 1].net {
          assert Credible(ids, states[n - 1], x);
          BackedStays(ids, states, actions, n - 1, x.src, x.dst);
        } else {
          NewReplyIsBacked(ids, states, actions, n - 1, x);
        }
      }
      forall c | c in ids ensures FlagsBacked(states, actions, n, c) {
        FlagsStayBacked(ids, states, actions, n - 1, c);
      }
    }
  }

  lemma FreshVotes(ids: set<Key>, states: seq<System>, actions: seq<Action>)
    requires IsTrace(ids, states, actions)
    ensures |states| > 0 && states[0].servers.Keys == ids && VotesBacked(ids, states, actions, 0)
  {
    hide Handle, Possible;
    forall c | c in ids ensures FlagsBacked(states, actions, 0, c) {
      assert Initial(states[0].servers[c]);
    }
  }

  // --- the theorem -------------------------------------------------------------------------

  predicate ElectedAt(states: seq<System>, actions: seq<Action>, n: nat, c: Key) {
    && n < |actions| && n + 1 < |states| && c in states[n].servers && c in states[n + 1].servers
    && !states[n].servers[c].role.Leader? && states[n + 1].servers[c].role.Leader?
  }

  /** `v` stands behind `c` at step `n`: it is `c`, with its vote cast for itself, or it
      granted `c` a vote at an earlier step. */
  ghost predicate Supports(states: seq<System>, actions: seq<Action>, n: nat, v: Key, c: Key)
    requires n < |states| && c in states[n].servers
  {
    (v == c && states[n].servers[c].votedFor == Some(c)) || Backed(states, actions, n, v, c)
  }

  ghost predicate Electorate(ids: set<Key>, states: seq<System>, actions: seq<Action>, n: nat, c: Key, voters: set<Key>)
    requires n < |states| && c in states[n].servers && ids != {}
  {
    AcceptedVoters(ids, voters) && forall v :: v in voters ==> Supports(states, actions, n, v, c)
  }

  lemma PeersAreIds(ids: set<Key>, k: Key, s: Server)
    requires Member(ids, k, s)
    ensures |s.peers| == |ids|
  {
    PeerKeyCount(s.peers, |s.peers|);
    assert PeerKeys(s.peers, |s.peers|) == ids by {
      forall x ensures x in PeerKeys(s.peers, |s.peers|) <==> x in ids { assert HasPeer(s.peers, x) <==> x in ids; }
    }
  }

  ghost function PeerKeys(peers: seq<Peer>, n: nat): set<Key>
    requires n <= |peers|
  {
    set i | 0 <= i < n :: peers[i].key
  }

  lemma {:induction false} PeerKeyCount(peers: seq<Peer>, n: nat)
    requires n <= |peers| && DistinctKeys(peers)
    ensures |PeerKeys(peers, n)| == n
  {
    if n > 0 {
      PeerKeyCount(peers, n - 1);
      assert PeerKeys(peers, n) == PeerKeys(peers, n - 1) + {peers[n - 1].key};
      assert peers[n - 1].key !in PeerKeys(peers, n - 1);
    }
  }

  /** Where each recorded supporter comes from. */
  ghost predicate OnRecord(s: Server, from: Key, v: Key) {
    || (s.self == Some(v) && s.votedFor == s.self)
    || v == from
    || exists i :: 0 <= i < |s.peers| && s.peers[i].voted && s.peers[i].key == v
  }

  lemma SupportersAreMembers(ids: set<Key>, k: Key, s: Server, from: Key, granted: bool)
    requires Member(ids, k, s) && k in ids
    ensures var all := Supporters(s.(peers := WithVote(s.peers, from, granted)));
      all <= ids && forall v :: v in all ==> OnRecord(s, from, v)
  {
    var s1 := s.(peers := WithVote(s.peers, from, granted));
    forall i | 0 <= i < |s1.peers| ensures s1.peers[i].key in ids {
      assert s.peers[i].key == s1.peers[i].key && HasPeer(s.peers, s.peers[i].key);
    }
  }

  /** The step that makes a leader, and the members it counts. */
  lemma ElectionStep(ids: set<Key>, c: System, a: Action, k: Key) returns (voters: set<Key>)
    requires Healthy(ids, c) && Enabled(c, a) && k in ids
    requires !c.servers[k].role.Leader? && After(c, a).servers[k].role.Leader?
    ensures ids != {} && AcceptedVoters(ids, voters)
    ensures a.Deliver? && a.envelope in c.net && a.envelope.dst == k
    ensures a.envelope.msg.VoteReply? && a.envelope.msg.granted
    ensures c.servers[k].self == Some(k) && forall v :: v in voters ==> OnRecord(c.servers[k], a.envelope.src, v)
  {
    hide Handle, Possible, Posted, Sound, Credible, Healthy, Supporters, OnRecord;
    var s, e := c.servers[k], EventOf(a);
    HealthyServer(ids, c, k);
    assert Actor(a) == k;
    OnlyRepliesElect(s, e);
    PeersAreIds(ids, k, s);
    ReplyHandled(s, e);
    VoteReplyElects(s, e.from, e.msg);
    var s1 := s.(peers := WithVote(s.peers, e.from, true));
    voters := Supporters(s1);
    SupportersAreMembers(ids, k, s, e.from, true);
  }

  lemma HealthyServer(ids: set<Key>, c: System, k: Key)
    requires Healthy(ids, c) && k in ids
    ensures Sound(c.servers[k]) && Member(ids, k, c.servers[k]) && DistinctKeys(c.servers[k].peers)
  {
  }

  /** Whenever a server becomes leader, in any behaviour of the cluster, an accepted set
      of at least (N-1)/2+1 distinct members stands behind it: itself if it voted for
      itself, and members that each granted it a vote at an earlier step while their
      log index and term were at most the leader's present ones. */
  lemma LeaderHasElectorate(ids: set<Key>, states: seq<System>, actions: seq<Action>, n: nat, c: Key)
    requires IsTrace(ids, states, actions) && ElectedAt(states, actions, n, c)
    ensures ids != {} && exists voters :: Electorate(ids, states, actions, n, c, voters)
  {
    hide IsTrace, Enabled, After, Backed, Sound, Member, Credible, AcceptedVoters;
    TraceStep(ids, states, actions, n);
    EveryVoteIsBacked(ids, states, actions, n);
    var voters := ElectionStep(ids, states[n], actions[n], c);
    forall v | v in voters ensures Supports(states, actions, n, v, c) {
      assert FlagsBacked(states, actions, n, c);
    }
    assert Electorate(ids, states, actions, n, c, voters);
  }

  lemma ReplyHandled(s: Server, e: Event)
    requires Possible(s, e) && e.Receive? && e.msg.VoteReply?
    ensures s.peers != [] && Handle(s, e) == OnVoteReply(s, e.from, e.msg)
  {
  }

  /** With an odd number of members any two elections of one behaviour share a member
      that stood behind both leaders. */
  lemma ElectionsShareASupporter(
    ids: set<Key>, states: seq<System>, actions: seq<Action>, n: nat, c: Key, n': nat, c': Key)
    requires IsTrace(ids, states, actions) && |ids| % 2 == 1
    requires ElectedAt(states, actions, n, c) && ElectedAt(states, actions, n', c')
    ensures exists v :: v in ids && Supports(states, actions, n, v, c) && Supports(states, actions, n', v, c')
  {
    hide IsTrace, Backed, AcceptedVoters, Supports;
    LeaderHasElectorate(ids, states, actions, n, c);
    LeaderHasElectorate(ids, states, actions, n', c');
    var a :| Electorate(ids, states, actions, n, c, a);
    var b :| Electorate(ids, states, actions, n', c', b);
    OverlapWhenOdd(ids, a, b);
    assert a <= ids by { AcceptedAreMembers(ids, a); }
    var v :| v in a * b;
    assert v in ids && Supports(states, actions, n, v, c) && Supports(states, actions, n', v, c');
  }

  lemma AcceptedAreMembers(ids: set<Key>, voters: set<Key>)
    requires ids != {} && AcceptedVoters(ids, voters)
    ensures voters <= ids
  {
  }

  // --- no replication ------------------------------------------------------------------------

  function Contents(log: seq<Entry>): (r: seq<ClientEntry>)
    ensures |r| == |log|
    ensures forall i :: 0 <= i < |log| ==> r[i] == ClientEntry(log[i].id, log[i].data)
  {
    seq(|log|, i requires 0 <= i < |log| => ClientEntry(log[i].id, log[i].data))
  }

  /** The client entries with a usable id handed to server `k` itself in the first `n` actions. */
  function Submitted(actions: seq<Action>, n: nat, k: Key): seq<ClientEntry>
    requires n <= |actions|
  {
    if n == 0 then [] else
      Submitted(actions, n - 1, k) + OwnEntry(actions[n - 1], k)
  }

  function OwnEntry(a: Action, k: Key): seq<ClientEntry> {
    if a.Local? && a.at == k && a.event.Submit? && a.event.entry.id != 0 then [a.event.entry] else []
  }

  lemma LogStep(s: Server, e: Event)
    requires Sound(s) && Possible(s, e)
    requires e.Receive? && e.msg.AppendEntries? ==> e.msg.prevLogIdx == 0 && e.msg.entries == []
    ensures Contents(Handle(s, e).server.log) ==
      Contents(s.log) + if e.Submit? && e.entry.id != 0 then [e.entry] else []
  {
    match e
    case Timer(ms, tj, ej) => TimerEffect(s, ms, tj, ej);
    case Submit(_, _) =>
    case Receive(k, restart, m) =>
      match m
      case AppendEntries(_, _, _, _, _) =>
        hide OnAppendEntries;
        if Accepts(s, m) { AppendEntriesAccepted(s, k, restart, m); } else { AppendEntriesRefused(s, k, restart, m); }
        assert Handle(s, e).server.log == s.log;
      case AppendAccepted(_, _, _) =>
        AcceptedKeepsSound(s, k, m);
        MarkRangeKeeps(s.log, m.firstIdx, m.currentIdx);
        var log := MarkRange(s.log, m.firstIdx, m.currentIdx).0;
        forall i | 0 <= i < |log| ensures log[i].id == s.log[i].id && log[i].data == s.log[i].data {
          assert log[i].(acks := 0) == s.log[i].(acks := 0);
        }
      case _ =>
  }

  lemma LocalLogStep(ids: set<Key>, c: System, a: Action, k: Key)
    requires Healthy(ids, c) && Enabled(c, a) && k in ids
    ensures Contents(After(c, a).servers[k].log) == Contents(c.servers[k].log) + OwnEntry(a, k)
  {
    hide Handle, Possible, Posted, Contents, Sound, Member;
    if Actor(a) == k {
      assert a.Deliver? ==> Credible(ids, c, a.envelope);
      LogStep(c.servers[k], EventOf(a));
    }
  }

  /** The cluster never replicates: heartbeats carry no entries, so in every behaviour a
      server's log is exactly what clients handed to that server itself. */
  lemma {:induction false} LogsAreLocal(ids: set<Key>, states: seq<System>, actions: seq<Action>, n: nat, k: Key)
    requires IsTrace(ids, states, actions) && n < |states| && k in ids
    ensures k in states[n].servers && Contents(states[n].servers[k].log) == Submitted(actions, n, k)
  {
    hide IsTrace, Enabled, After, Contents, Sound, Member, Credible;
    TraceIsHealthy(ids, states, actions, n);
    if n == 0 {
      EmptyContents(ids, states, actions, k);
    } else {
      TraceStep(ids, states, actions, n - 1);
      LogsAreLocal(ids, states, actions, n - 1, k);
      LocalLogStep(ids, states[n - 1], actions[n - 1], k);
    }
  }

  lemma EmptyContents(ids: set<Key>, states: seq<System>, actions: seq<Action>, k: Key)
    requires IsTrace(ids, states, actions) && k in ids
    ensures k in states[0].servers && Contents(states[0].servers[k].log) == []
  {
    hide Handle, Possible;
    assert Initial(states[0].servers[k]);
  }
}
