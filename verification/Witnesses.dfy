/**
 Inputs at which the properties that the code lacks do fail: short behaviours of a fresh
 cluster, of one server, of the worker pool, and of the containers.
 */
module Witnesses {
  import opened RaftTypes
  import opened ServerSteps
  import opened ServerTheorems
  import opened Responses
  import opened Delivery
  import opened DoubleVotes
  import opened Timing
  import opened Cluster
  import opened Elections
  import opened Quorum
  import opened Membership
  import Handles
  import RaftNodes
  import Registries

  const A: Key := [1]
  const B: Key := [2]
  const C: Key := [3]

  function Stranger(k: Key): Peer { Peer(k, false, 0, false) }

  function Fresh(k: Key, peers: seq<Peer>): Server {
    Server(0, None, [], 0, 0, Follower, 1, 0, 1000, 200, 0, Some(k), peers)
  }

  const PAIR: seq<Peer> := [Stranger(A), Stranger(B)]
  const TRIO: seq<Peer> := [Stranger(A), Stranger(B), Stranger(C)]

  function TwoServers(): System { System(map[A := Fresh(A, PAIR), B := Fresh(B, PAIR)], {}) }

  function ThreeServers(): System { System(map[A := Fresh(A, TRIO), B := Fresh(B, TRIO), C := Fresh(C, TRIO)], {}) }

  lemma TwoStart()
    ensures Start({A, B}, TwoServers())
    ensures var m := TwoServers().servers; m.Keys == {A, B} && m[A] == Fresh(A, PAIR) && m[B] == Fresh(B, PAIR)
  {
    KeysDiffer();
    assert PAIR[0].key == A && PAIR[1].key == B;
    forall x ensures HasPeer(PAIR, x) <==> x in {A, B} {}
  }

  lemma ThreeStart()
    ensures Start({A, B, C}, ThreeServers())
    ensures var m := ThreeServers().servers;
      m.Keys == {A, B, C} && m[A] == Fresh(A, TRIO) && m[B] == Fresh(B, TRIO) && m[C] == Fresh(C, TRIO)
  {
    KeysDiffer();
    assert TRIO[0].key == A && TRIO[1].key == B && TRIO[2].key == C;
    forall x ensures HasPeer(TRIO, x) <==> x in {A, B, C} {}
  }

  lemma Extend(ids: set<Key>, states: seq<System>, actions: seq<Action>, a: Action)
    requires IsTrace(ids, states, actions) && Enabled(states[|states| - 1], a)
    ensures IsTrace(ids, states + [After(states[|states| - 1], a)], actions + [a])
  {
    hide Enabled, After, Start;
  }

  /** A tick past the election timeout sends a request to a member that is not the leader. */
  lemma CampaignStep(c: System, k: Key, tj: nat, i: nat)
    requires k in c.servers && tj < MINIMUM_RAND_FACTOR
    requires var s := c.servers[k];
      && s.commit == s.applied && !s.role.Leader? && s.electionTimeout <= s.elapsed + 1000
      && i < |s.peers| && Visited(s, s.peers[i], true)
    ensures var a := Local(k, Timer(1000, tj, 0)); var s := c.servers[k];
      && Enabled(c, a)
      && After(c, a).servers == c.servers[k := Campaign(s.(elapsed := s.elapsed + 1000), tj, 0)]
      && c.net <= After(c, a).net
      && Envelope(k, s.peers[i].key, RequestVote(s.term + 1 + tj, 0, s.currentIdx, 0)) in After(c, a).net
  {
    var s := c.servers[k];
    var a := Local(k, Timer(1000, tj, 0));
    TimerEffect(s, 1000, tj, 0);
    var p := Packet(s.peers[i].key, RequestVote(s.term + 1 + tj, 0, s.currentIdx, 0));
    assert p in Effect(c, a).sent;
  }

  /** Delivering something in flight to a member that knows the sender. */
  lemma DeliverStep(c: System, x: Envelope)
    requires x in c.net && x.dst in c.servers && HasPeer(c.servers[x.dst].peers, x.src)
    requires x.msg.AppendAccepted? ==> Markable(c.servers[x.dst], x.msg)
    ensures Enabled(c, Deliver(x, true))
    ensures Effect(c, Deliver(x, true)) == Handle(c.servers[x.dst], Receive(x.src, true, x.msg))
    ensures forall p :: p in Effect(c, Deliver(x, true)).sent ==>
      Envelope(x.dst, p.dst, p.msg) in After(c, Deliver(x, true)).net
  {
  }

  lemma KeysDiffer()
    ensures A != B && A != C && B != C
  {
    assert A[0] != B[0] && A[0] != C[0] && B[0] != C[0];
  }

  /** A fresh server of a trace campaigns. */
  lemma FreshCampaign(
    ids: set<Key>, states: seq<System>, actions: seq<Action>, k: Key, peers: seq<Peer>, i: nat, n: nat)
    requires IsTrace(ids, states, actions) && n == |actions| && n + 1 == |states|
    requires k in states[n].servers && states[n].servers[k] == Fresh(k, peers)
    requires i < |peers| && peers[i].key != k && !peers[i].isLeader
    ensures Enabled(states[n], Local(k, Timer(1000, 0, 0)))
    ensures var a := Local(k, Timer(1000, 0, 0)); var c := After(states[n], a);
      && IsTrace(ids, states + [c], actions + [a])
      && c.servers.Keys == states[n].servers.Keys
      && (forall j :: j in c.servers && j != k ==> c.servers[j] == states[n].servers[j])
      && states[n].net <= c.net && Envelope(k, peers[i].key, RequestVote(1, 0, 1, 0)) in c.net
  {
    hide Handle, IsTrace, After, Enabled;
    CampaignStep(states[n], k, 0, i);
    Extend(ids, states, actions, Local(k, Timer(1000, 0, 0)));
  }

  lemma TwoCampaigns() returns (states: seq<System>, actions: seq<Action>)
    ensures IsTrace({A, B, C}, states, actions) && |states| == 3 && |actions| == 2
    ensures var c := states[2]; var m := RequestVote(1, 0, 1, 0);
      && C in c.servers && c.servers[C] == Fresh(C, TRIO)
      && Envelope(A, C, m) in c.net && Envelope(B, C, m) in c.net
  {
    hide Handle, IsTrace, After, Enabled, Fresh, ThreeServers, Start;
    var ids, c0 := {A, B, C}, ThreeServers();
    KeysDiffer();
    assert TRIO[2].key == C && !TRIO[2].isLeader;
    ThreeStart();
    FreshTrace(ids, c0);
    states, actions := [c0], [];
    FreshCampaign(ids, states, actions, A, TRIO, 2, 0);
    var a1, a2 := Local(A, Timer(1000, 0, 0)), Local(B, Timer(1000, 0, 0));
    states, actions := states + [After(c0, a1)], actions + [a1];
    FreshCampaign(ids, states, actions, B, TRIO, 2, 1);
    states, actions := states + [After(states[1], a2)], actions + [a2];
  }

  function Voted(s: Server, from: Key, m: Message): Server
    requires m.RequestVote?
  {
    s.(votedFor := if !Refuses(s, m) then Some(from) else if s.term < m.term then None else s.votedFor)
  }

  lemma DeliverRequest(ids: set<Key>, states: seq<System>, actions: seq<Action>, x: Envelope, n: nat)
    requires IsTrace(ids, states, actions) && n == |actions| && n + 1 == |states|
    requires x in states[n].net && x.msg.RequestVote?
    requires x.dst in states[n].servers && HasPeer(states[n].servers[x.dst].peers, x.src)
    ensures Enabled(states[n], Deliver(x, true))
    ensures var a := Deliver(x, true); var c := After(states[n], a); var s := states[n].servers[x.dst];
      && IsTrace(ids, states + [c], actions + [a])
      && c.servers == states[n].servers[x.dst := Voted(s, x.src, x.msg)]
      && states[n].net <= c.net && Envelope(x.dst, x.src, VoteReply(s.term, !Refuses(s, x.msg))) in c.net
  {
    hide Handle, IsTrace, After;
    DeliverStep(states[n], x);
    VoteDelivered(states[n], x);
    Extend(ids, states, actions, Deliver(x, true));
  }

  /** Two votes in one term, in a fresh cluster of three: two members campaign at the same
      time, and the third, whose term is behind, grants both. */
  lemma DoubleVote() returns (states: seq<System>, actions: seq<Action>)
    ensures IsTrace({A, B, C}, states, actions)
    ensures GrantedAt(states, actions, 2, C, A) && GrantedAt(states, actions, 3, C, B)
    ensures actions[2].envelope.msg.term == actions[3].envelope.msg.term
  {
    hide Handle, IsTrace, After, Enabled;
    var m := RequestVote(1, 0, 1, 0);
    var x, y := Envelope(A, C, m), Envelope(B, C, m);
    KnownTo(TRIO, 0);
    KnownTo(TRIO, 1);
    states, actions := TwoCampaigns();
    DeliverRequest({A, B, C}, states, actions, x, 2);
    states, actions := states + [After(states[2], Deliver(x, true))], actions + [Deliver(x, true)];
    DeliverRequest({A, B, C}, states, actions, y, 3);
    states, actions := states + [After(states[3], Deliver(y, true))], actions + [Deliver(y, true)];
  }

  lemma FreshTrace(ids: set<Key>, c: System)
    requires Start(ids, c)
    ensures IsTrace(ids, [c], [])
  {
  }

  lemma KnownTo(peers: seq<Peer>, i: nat)
    requires i < |peers|
    ensures HasPeer(peers, peers[i].key)
  {
  }

  /** Delivering a vote request changes only the receiver's vote, and loses nothing in flight. */
  lemma VoteDelivered(c: System, x: Envelope)
    requires Enabled(c, Deliver(x, true)) && x.msg.RequestVote? && x.dst in c.servers
    ensures var s := c.servers[x.dst]; var c' := After(c, Deliver(x, true));
      && c'.servers == c.servers[x.dst := Voted(s, x.src, x.msg)]
      && c.net <= c'.net
      && Envelope(x.dst, x.src, VoteReply(s.term, !Refuses(s, x.msg))) in c'.net
  {
    var s := c.servers[x.dst];
    RequestVoteDecides(s, x.src, x.msg);
    var a := Deliver(x, true);
    assert Effect(c, a) == OnRequestVote(s, x.src, x.msg);
    assert Effect(c, a).sent[0] == Packet(x.src, VoteReply(s.term, !Refuses(s, x.msg)));
  }

  /** A client entry: appended if its id is usable, and a heartbeat to every other member. */
  lemma SubmitStep(c: System, k: Key, from: Key, e: ClientEntry, i: nat)
    requires k in c.servers && HasPeer(c.servers[k].peers, from) && i < |c.servers[k].peers|
    requires !IsSelf(c.servers[k], c.servers[k].peers[i])
    ensures var a := Local(k, Submit(from, e)); var s := c.servers[k];
      && Enabled(c, a) && After(c, a).servers == c.servers[k := AppendOne(s, s.term, e).0] && c.net <= After(c, a).net
      && var m := AppendEntries(s.term, 0, s.peers[i].nextIdx, s.leaderCommit, []);
      Envelope(k, s.peers[i].key, m) in After(c, a).net
  {
    var a, s := Local(k, Submit(from, e)), c.servers[k];
    var s1 := AppendOne(s, s.term, e).0;
    HeartbeatSent(s1, i, |s1.peers|);
    var sent := Effect(c, a).sent;
    assert sent == [Packet(from, EntryReply(e.id, AppendOne(s, s.term, e).1))] + Heartbeats(s1, false, |s1.peers|);
    assert Heartbeat(s1, s1.peers[i]) in sent;
  }

  // --- an election in a cluster of two --------------------------------------------------------

  function WithEntry(k: Key): Server { AppendOne(Fresh(k, PAIR), 0, ClientEntry(1, [])).0 }

  function CandidateA(): Server { Campaign(WithEntry(A).(elapsed := 1000), 0, 0) }

  lemma PairInfo()
    ensures A != B && PAIR[0].key == A && PAIR[1].key == B && HasPeer(PAIR, A) && HasPeer(PAIR, B)
    ensures |{A, B}| == 2
  {
    KeysDiffer();
    assert PAIR[0].key == A && PAIR[1].key == B;
  }

  /** A has an entry and campaigns. */
  lemma EntryAndCampaign() returns (states: seq<System>, actions: seq<Action>)
    ensures IsTrace({A, B}, states, actions) && |states| == 3 && |actions| == 2
    ensures var c := states[2];
      && c.servers.Keys == {A, B} && c.servers[A] == CandidateA() && c.servers[B] == Fresh(B, PAIR)
      && Envelope(A, B, RequestVote(1, 0, 2, 0)) in c.net
  {
    hide Handle, IsTrace, After, Enabled, TwoServers, Start, Campaign;
    var ids, c0 := {A, B}, TwoServers();
    PairInfo();
    TwoStart();
    FreshTrace(ids, c0);
    states, actions := [c0], [];
    SubmitStep(c0, A, B, ClientEntry(1, []), 1);
    var a1, a2 := Local(A, Submit(B, ClientEntry(1, []))), Local(A, Timer(1000, 0, 0));
    Extend(ids, states, actions, a1);
    states, actions := states + [After(c0, a1)], actions + [a1];
    CampaignStep(states[1], A, 0, 1);
    Extend(ids, states, actions, a2);
    states, actions := states + [After(states[1], a2)], actions + [a2];
  }

  /** B grants the vote and then campaigns itself. */
  lemma GrantAndCampaign() returns (states: seq<System>, actions: seq<Action>)
    ensures IsTrace({A, B}, states, actions) && |states| == 5 && |actions| == 4
    ensures var c := states[4];
      && c.servers.Keys == {A, B} && c.servers[A] == CandidateA()
      && Envelope(B, A, VoteReply(0, true)) in c.net && Envelope(B, A, RequestVote(2, 0, 1, 0)) in c.net
  {
    hide Handle, IsTrace, After, Enabled, CandidateA, Campaign;
    PairInfo();
    var x, a4 := Envelope(A, B, RequestVote(1, 0, 2, 0)), Local(B, Timer(1000, 1, 0));
    states, actions := EntryAndCampaign();
    DeliverRequest({A, B}, states, actions, x, 2);
    states, actions := states + [After(states[2], Deliver(x, true))], actions + [Deliver(x, true)];
    CampaignStep(states[3], B, 1, 0);
    Extend({A, B}, states, actions, a4);
    states, actions := states + [After(states[3], a4)], actions + [a4];
  }

  /** In a fresh cluster of two: A's vote for itself is taken back by B's later request, and
      B's earlier grant then elects A. */
  lemma PairElects() returns (states: seq<System>, actions: seq<Action>)
    ensures IsTrace({A, B}, states, actions) && |{A, B}| == 2
    ensures ElectedAt(states, actions, 5, A) && states[5].servers[A].role.Candidate?
  {
    hide Handle, IsTrace, After, Enabled;
    PairInfo();
    var x, y := Envelope(B, A, RequestVote(2, 0, 1, 0)), Envelope(B, A, VoteReply(0, true));
    states, actions := GrantAndCampaign();
    DeliverRequest({A, B}, states, actions, x, 4);
    states, actions := states + [After(states[4], Deliver(x, true))], actions + [Deliver(x, true)];
    var s := states[5].servers[A];
    assert s == CandidateA().(votedFor := None);
    DeliverStep(states[5], y);
    TwoMembersElect(s, y.msg, 1);
    HandlesReply(s, B, y.msg);
    AfterServers(states[5], Deliver(y, true));
    Extend({A, B}, states, actions, Deliver(y, true));
    states, actions := states + [After(states[5], Deliver(y, true))], actions + [Deliver(y, true)];
  }

  lemma HandlesReply(s: Server, from: Key, m: Message)
    requires m.VoteReply? && HasPeer(s.peers, from)
    ensures Handle(s, Receive(from, true, m)) == OnVoteReply(s, from, m)
  {
  }

  lemma AfterServers(c: System, a: Action)
    requires Enabled(c, a)
    ensures After(c, a).servers == c.servers[Actor(a) := Effect(c, a).server]
  {
  }

  // --- a response that throws, an entry that stays where it is ---------------------------------

  lemma HeartbeatDelivered(c: System, x: Envelope, peers: seq<Peer>)
    requires x in c.net && x.dst in c.servers && c.servers[x.dst] == Fresh(x.dst, peers) && HasPeer(peers, x.src)
    requires x.msg == AppendEntries(0, 0, 0, 0, [])
    ensures Enabled(c, Deliver(x, true))
    ensures var c' := After(c, Deliver(x, true));
      c'.servers == c.servers && c.net <= c'.net && Envelope(x.dst, x.src, AppendAccepted(0, 1, 1)) in c'.net
  {
    var s, a := c.servers[x.dst], Deliver(x, true);
    AppendEntriesAccepted(s, x.src, true, x.msg);
    assert Stamped([], 0) == [];
    assert Effect(c, a) == OnAppendEntries(s, x.src, true, x.msg);
    assert Effect(c, a).sent[0] == Packet(x.src, AppendAccepted(0, 1, 1));
  }

  /** In a fresh cluster of two: an entry with id 0 is refused, yet a heartbeat goes out, and
      the answer to it throws out of the handler. */
  lemma ThrowingResponse() returns (states: seq<System>, actions: seq<Action>)
    ensures IsTrace({A, B}, states, actions) && |states| == 3 && |actions| == 2
    ensures var a := Deliver(Envelope(B, A, AppendAccepted(0, 1, 1)), true);
      Enabled(states[2], a) && Effect(states[2], a).threw
  {
    hide Handle, IsTrace, After, Enabled, TwoServers, Start;
    var x, y := Envelope(A, B, AppendEntries(0, 0, 0, 0, [])), Envelope(B, A, AppendAccepted(0, 1, 1));
    var ids, c0, a1 := {A, B}, TwoServers(), Local(A, Submit(B, ClientEntry(0, [])));
    PairInfo();
    TwoStart();
    FreshTrace(ids, c0);
    states, actions := [c0], [];
    SubmitStep(c0, A, B, ClientEntry(0, []), 1);
    Extend(ids, states, actions, a1);
    states, actions := states + [After(c0, a1)], actions + [a1];
    HeartbeatDelivered(states[1], x, PAIR);
    Extend(ids, states, actions, Deliver(x, true));
    states, actions := states + [After(states[1], Deliver(x, true))], actions + [Deliver(x, true)];
    var s := states[2].servers[A];
    DeliverStep(states[2], y);
    ResponseThrows(s, B, y.msg);
    HandlesAccepted(s, B, y.msg);
  }

  lemma HandlesAccepted(s: Server, from: Key, m: Message)
    requires m.AppendAccepted? && HasPeer(s.peers, from) && Markable(s, m)
    ensures Handle(s, Receive(from, true, m)) == OnAppendAccepted(s, from, m)
  {
  }

  /** In a fresh cluster of two: an entry is appended, the heartbeat that follows it reaches
      the other member, and that member's log stays empty. */
  lemma EntryStaysLocal() returns (states: seq<System>, actions: seq<Action>)
    ensures IsTrace({A, B}, states, actions) && |states| == 3 && |actions| == 2
    ensures actions[1].Deliver? && actions[1].envelope.msg.AppendEntries? && actions[1].envelope.dst == B
    ensures A in states[2].servers && B in states[2].servers
    ensures |states[2].servers[A].log| == 1 && states[2].servers[B].log == []
  {
    hide Handle, IsTrace, After, Enabled, TwoServers, Start;
    var x := Envelope(A, B, AppendEntries(0, 0, 0, 0, []));
    var ids, c0, a1 := {A, B}, TwoServers(), Local(A, Submit(B, ClientEntry(1, [])));
    PairInfo();
    TwoStart();
    FreshTrace(ids, c0);
    states, actions := [c0], [];
    SubmitStep(c0, A, B, ClientEntry(1, []), 1);
    Extend(ids, states, actions, a1);
    states, actions := states + [After(c0, a1)], actions + [a1];
    HeartbeatDelivered(states[1], x, PAIR);
    Extend(ids, states, actions, Deliver(x, true));
    states, actions := states + [After(states[1], Deliver(x, true))], actions + [Deliver(x, true)];
  }

  // --- runs of one server ------------------------------------------------------------------------

  lemma ExtendRun(states: seq<Server>, events: seq<Event>, e: Event)
    requires IsRun(states, events) && Possible(states[|states| - 1], e)
    ensures IsRun(states + [Handle(states[|states| - 1], e).server], events + [e])
  {
    hide Handle, Possible, Initial;
  }

  function Numbered(i: nat): ClientEntry { ClientEntry(i, [1]) }

  function ThreeEntries(): Server {
    Fresh(A, PAIR).(log := [Entry(0, 1, [1], 0), Entry(0, 2, [1], 0), Entry(0, 3, [1], 0)], currentIdx := 4)
  }

  lemma ThreeSubmitted() returns (states: seq<Server>, events: seq<Event>)
    ensures IsRun(states, events) && |events| == 3 && states[3] == ThreeEntries()
    ensures Delivered(states, events, 3) == []
  {
    PairInfo();
    var s := Fresh(A, PAIR);
    states, events := [s], [];
    assert IsRun(states, events);
    hide IsRun;
    for i := 1 to 4
      invariant IsRun(states, events) && |events| == i - 1 && |states| == i && Delivered(states, events, i - 1) == []
      invariant states[i - 1] == s.(log := ThreeEntries().log[..i - 1], currentIdx := i)
    {
      var e := Submit(B, Numbered(i));
      ExtendRun(states, events, e);
      var t := Handle(states[i - 1], e).server;
      assert t.log == ThreeEntries().log[..i];
      DeliveredGrows(states, events, e);
      states, events := states + [t], events + [e];
    }
    assert ThreeEntries().log[..3] == ThreeEntries().log;
  }

  lemma {:induction false} SameDelivered(
    states: seq<Server>, events: seq<Event>, more: seq<Server>, rest: seq<Event>, n: nat)
    requires IsRun(states, events) && IsRun(states + more, events + rest) && n <= |events|
    ensures Delivered(states + more, events + rest, n) == Delivered(states, events, n)
  {
    if n > 0 { SameDelivered(states, events, more, rest, n - 1); }
  }

  lemma DeliveredGrows(states: seq<Server>, events: seq<Event>, e: Event)
    requires IsRun(states, events) && Possible(states[|states| - 1], e)
    ensures var o := Handle(states[|states| - 1], e);
      && IsRun(states + [o.server], events + [e])
      && Delivered(states + [o.server], events + [e], |events| + 1) == Delivered(states, events, |events|) + o.delivered
  {
    ExtendRun(states, events, e);
    SameDelivered(states, events, [Handle(states[|states| - 1], e).server], [e], |events|);
  }

  /** Three entries, none applied, and a heartbeat with leader commit 2: both indices become 3
      and the state machine is given one payload, so the order is lost, and the rule of
      section 5.3, which would commit 2, is not followed.  A message that keeps one entry then
      moves the commit index back to 1. */
  lemma LostEntries() returns (states: seq<Server>, events: seq<Event>)
    ensures IsRun(states, events) && |events| == 5
    ensures states[4].applied == states[4].commit == 3 && |Delivered(states, events, 4)| == 1
    ensures !InOrder(states[4], Delivered(states, events, 4))
    ensures states[5].commit == 1
  {
    hide Handle, IsRun;
    PairInfo();
    var m, m' := AppendEntries(0, 0, 0, 2, []), AppendEntries(0, 1, 0, 4, []);
    states, events := ThreeSubmitted();
    RunLength(states, events);
    var s := states[3];
    HeartbeatCommits(s, m);
    DeliveredGrows(states, events, Receive(B, true, m));
    states, events := states + [Handle(s, Receive(B, true, m)).server], events + [Receive(B, true, m)];
    var t := states[4];
    CutCommits(t, m');
    ghost var before := Delivered(states, events, 4);
    ExtendRun(states, events, Receive(B, true, m'));
    SameDelivered(states, events, [Handle(t, Receive(B, true, m')).server], [Receive(B, true, m')], 4);
    states, events := states + [Handle(t, Receive(B, true, m')).server], events + [Receive(B, true, m')];
    assert Delivered(states, events, 4) == before;
  }

  lemma RunLength(states: seq<Server>, events: seq<Event>)
    requires IsRun(states, events)
    ensures |states| == |events| + 1
  {
  }

  lemma HeartbeatCommits(s: Server, m: Message)
    requires s == ThreeEntries() && m == AppendEntries(0, 0, 0, 2, [])
    ensures Possible(s, Receive(B, true, m))
    ensures var o := Handle(s, Receive(B, true, m));
      o.server == s.(commit := 3, applied := 3) && |o.delivered| == 1
  {
    hide OnAppendEntries, Payloads;
    PairInfo();
    AppendEntriesAccepted(s, B, true, m);
    assert Stamped([], 0) == [];
  }

  lemma CutCommits(s: Server, m: Message)
    requires s == ThreeEntries().(commit := 3, applied := 3) && m == AppendEntries(0, 1, 0, 4, [])
    ensures Possible(s, Receive(B, true, m)) && Handle(s, Receive(B, true, m)).server.commit == 1
  {
    hide OnAppendEntries, Payloads;
    PairInfo();
    AppendEntriesAccepted(s, B, true, m);
  }

  /** Two votes for one term without lagging behind: the first is taken back by a request of a
      larger term that is refused. */
  lemma VoteTakenBack() returns (states: seq<Server>, events: seq<Event>)
    ensures IsRun(states, events) && |events| == 3
    ensures Grants(states[0], events[0]) && Grants(states[2], events[2]) && events[0].from != events[2].from
    ensures events[0].msg.term == events[2].msg.term == states[0].term == states[2].term
  {
    KeysDiffer();
    var s, v := Fresh(A, TRIO), Fresh(A, TRIO).(votedFor := Some(B));
    var m, m' := RequestVote(0, 0, 1, 0), RequestVote(1, 0, 0, 0);
    assert TRIO[1].key == B && TRIO[2].key == C;
    states, events := [s], [];
    ExtendRun(states, events, Receive(B, true, m));
    states, events := states + [v], events + [Receive(B, true, m)];
    ExtendRun(states, events, Receive(C, true, m'));
    states, events := states + [s], events + [Receive(C, true, m')];
    ExtendRun(states, events, Receive(C, true, m));
    states, events := states + [s.(votedFor := Some(C))], events + [Receive(C, true, m)];
  }

  // --- a leader that is kept silent ------------------------------------------------------------

  function Slow(): Server { Fresh(A, TRIO).(electionTimeout := 2200) }

  predicate TicksOf(events: seq<Event>, period: int) {
    forall i :: 0 <= i < |events| && events[i].Timer? ==> events[i].msec == period
  }

  lemma Waiting() returns (states: seq<Server>, events: seq<Event>)
    ensures IsRun(states, events) && |events| == 21 && TicksOf(events, 100)
    ensures states[0] == Slow() && states[21] == Slow().(elapsed := 2100)
  {
    var e := Timer(100, 0, 0);
    KeysDiffer();
    states, events := [Slow()], [];
    assert IsRun(states, events);
    hide IsRun, Handle;
    for i := 0 to 21
      invariant IsRun(states, events) && |events| == i && |states| == i + 1 && TicksOf(events, 100)
      invariant states[0] == Slow() && states[i] == Slow().(elapsed := 100 * i)
    {
      ExtendRun(states, events, e);
      OneTick(states[i], e);
      states, events := states + [Handle(states[i], e).server], events + [e];
    }
  }

  lemma OneTick(s: Server, e: Event)
    requires e == Timer(100, 0, 0) && s.commit == s.applied && !s.role.Leader?
    ensures Handle(s, e) == OnTimer(s, 100, 0, 0)
    ensures s.elapsed + 100 < s.electionTimeout ==> Handle(s, e).server == s.(elapsed := s.elapsed + 100)
    ensures s.electionTimeout <= s.elapsed + 100 ==>
      Handle(s, e).server == Campaign(s.(elapsed := s.elapsed + 100), 0, 0)
  {
    TimerEffect(s, 100, 0, 0);
  }

  function Candidate(): Server { Campaign(Slow().(elapsed := 2200), 0, 0) }

  function Elect(): Server { Elected(Candidate().(peers := WithVote(TRIO, B, true))) }

  lemma ElectedByB()
    ensures HasPeer(TRIO, B) && Handle(Candidate(), Receive(B, true, VoteReply(1, true))).server == Elect()
    ensures Elect().role.Leader? && Elect().elapsed == 0 && Elect().term == 1 && Elect().requestTimeout == 200
    ensures Elect().commit == Elect().applied && HasPeer(Elect().peers, B) && HasOther(Elect())
  {
    KeysDiffer();
    var s := Candidate().(peers := WithVote(TRIO, B, true));
    assert TRIO[1].key == B && s.peers[0].key == A && s.peers[1].key == B && s.peers[1].voted && s.peers[2].key == C;
    assert PeerVotes(s, 0) == 0 && PeerVotes(s, 1) == 0 && PeerVotes(s, 2) == 1 && PeerVotes(s, 3) == 1;
    assert Elect().peers[1].key == B && !IsSelf(Elect(), Elect().peers[1]);
  }

  lemma Leading() returns (states: seq<Server>, events: seq<Event>)
    ensures IsRun(states, events) && |events| == 23 && TicksOf(events, 100)
    ensures states[0] == Slow() && states[23] == Elect()
  {
    hide IsRun, Handle, Elect, Elected, Campaign;
    var e, r := Timer(100, 0, 0), Receive(B, true, VoteReply(1, true));
    states, events := Waiting();
    RunLength(states, events);
    ExtendRun(states, events, e);
    OneTick(states[21], e);
    states, events := states + [Handle(states[21], e).server], events + [e];
    assert states[22] == Candidate();
    ElectedByB();
    CandidateKnows();
    ExtendRun(states, events, r);
    states, events := states + [Handle(states[22], r).server], events + [r];
  }

  lemma CandidateKnows()
    ensures Candidate().peers == TRIO
  {
  }

  lemma LeaderCounts(s: Server)
    requires s.role.Leader? && s.commit == s.applied && s.elapsed == 0 && s.requestTimeout == 200
    ensures Possible(s, Timer(100, 0, 0)) && !Fires(s, 100)
    ensures Handle(s, Timer(100, 0, 0)).server == s.(elapsed := 100)
  {
    TimerEffect(s, 100, 0, 0);
  }

  lemma StaleRestarts(s: Server)
    requires s.role.Leader? && s.term == 1 && HasPeer(s.peers, B)
    ensures Possible(s, Receive(B, true, AppendEntries(0, 0, 0, 0, [])))
    ensures Handle(s, Receive(B, true, AppendEntries(0, 0, 0, 0, []))).server == s.(elapsed := 0)
  {
    AppendEntriesRefused(s, B, true, AppendEntries(0, 0, 0, 0, []));
  }

  /** A leader of term 1 among three, with a tick every 100 and a request timeout of 200: a
      stale AppendEntries between two ticks, which it refuses, keeps it from broadcasting. */
  lemma SilencedLeader() returns (states: seq<Server>, events: seq<Event>)
    ensures PeriodicRun(states, events, 100) && Leads(states, events, 23, 26) && HasOther(states[23])
    ensures Ticks(events, 23, 26) * 100 == states[23].requestTimeout
    ensures forall i :: 23 <= i < 26 ==> !Broadcast(states, events, i)
  {
    hide IsRun, Handle, Elect, Broadcast, Possible, Fires;
    var e, r := Timer(100, 0, 0), Receive(B, true, AppendEntries(0, 0, 0, 0, []));
    states, events := Leading();
    RunLength(states, events);
    ElectedByB();
    LeaderCounts(states[23]);
    ExtendRun(states, events, e);
    states, events := states + [Handle(states[23], e).server], events + [e];
    StaleRestarts(states[24]);
    ExtendRun(states, events, r);
    states, events := states + [Handle(states[24], r).server], events + [r];
    LeaderCounts(states[25]);
    ExtendRun(states, events, e);
    states, events := states + [Handle(states[25], e).server], events + [e];
    assert events[23] == e && events[24] == r && events[25] == e;
    LeaderTick(states, events, 23);
    LeaderTick(states, events, 25);
    NotATick(states, events, 24);
    assert Ticks(events, 23, 23) == 0 && Ticks(events, 23, 24) == 1 && Ticks(events, 23, 25) == 1;
  }

  lemma NotATick(states: seq<Server>, events: seq<Event>, i: nat)
    requires i < |events| && !events[i].Timer?
    ensures !Broadcast(states, events, i)
  {
  }

  // --- quorums, joins, handles -----------------------------------------------------------------

  /** Four members, two accepted halves. */
  lemma DisjointQuorums()
    ensures AcceptedVoters({1, 2, 3, 4}, {1, 2}) && AcceptedVoters({1, 2, 3, 4}, {3, 4})
  {
    assert |{1, 2, 3, 4}| == 4 && |{1, 2}| == 2 && |{3, 4}| == 2;
  }

  /** A join from a table with two flagged members keeps only the later flag. */
  lemma TwoFlagJoin()
    ensures var ms := [Member.Member(A, true), Member.Member(B, true)];
      && DistinctMembers(ms)
      && Rebuilt([], Keys(ms), LeaderIndex(ms), 2) == [Member.Member(A, false), Member.Member(B, true)] != ms
  {
    KeysDiffer();
    var ms := [Member.Member(A, true), Member.Member(B, true)];
    assert LeaderIndex(ms) == 1;
    RebuiltPrefix(ms, 1, 2);
  }

  /** Assigning over the only handle of descriptor 5 loses the descriptor. */
  method AssignOverOpen() returns (p: Handles.Process)
    ensures !(p.Linked() && p.Accounted())
  {
    hide Handles.Process.Linked, Handles.Process.Ranked, Handles.Process.Heads;
    hide Handles.Process.Accounted, Handles.Process.Cloned;
    p := new Handles.Process();
    var h := p.NewSocket();
    var g := p.NewSocket();
    p.SetNewSocketDescriptor(h, 5);
    p.Assign(h, g);
  }

  /** Taking descriptor 5 out of one of its two handles leaves the other linked to it. */
  method ResetShared() returns (p: Handles.Process)
    ensures !p.Linked()
  {
    hide Handles.Process.Linked, Handles.Process.Ranked, Handles.Process.Heads, Handles.Process.Accounted;
    p := new Handles.Process();
    var h := p.NewSocket();
    p.SetNewSocketDescriptor(h, 5);
    var g := p.NewSocket();
    p.Assign(g, h);
    assert g.prev == h;
    var _ := p.GetAndResetSocket(g);
  }

  // --- registries --------------------------------------------------------------------------------

  method WithMember(k: Key) returns (r: Registries.Registry, n: RaftNodes.RaftNode)
    ensures r.Valid() && r.Items() == [n] && n.key == k
    ensures fresh(r) && fresh(r.list) && fresh(r.hash) && fresh(r.hash.table) && fresh(r.hash.repr) && fresh(n)
  {
    hide Registries.Registry.Valid, Registries.Registry.HasKey;
    r := new Registries.Registry(_ => 0);
    n := new RaftNodes.RaftNode();
    Empty(r, k);
    var _ := r.AddData(n, k);
  }

  lemma Empty(r: Registries.Registry, k: Key)
    requires r.Items() == []
    ensures !r.HasKey(k)
  {
  }

  /** Moving the content of a registry to one that is not empty reads a freed key. */
  method MoveBothFull() returns (n: RaftNodes.RaftNode, defined: bool)
    ensures !defined && n.keyOwner != null && n.keyOwner.freed
  {
    hide Registries.Registry.Valid, Registries.Registry.HasKey;
    var r, q, m;
    r, n := WithMember(A);
    q, m := WithMember(B);
    defined := r.MoveContentToOtherList(q);
  }

  /** Moving a member to a registry that has its key spoils that registry. */
  method MoveOntoTaken() returns (q: Registries.Registry)
    ensures !q.Valid()
  {
    hide Registries.Registry.Valid;
    var r, n, m;
    r, n := WithMember(A);
    q, m := WithMember(A);
    assert q.Items()[0].key == A;
    r.MoveItemToOtherList(q, n, 0);
  }

  /** Removing a node a second time reads its freed key. */
  method RemoveTwice() returns (defined: bool)
    ensures !defined
  {
    hide Registries.Registry.Valid, Registries.Registry.HasKey;
    var r, n := WithMember(A);
    var _, _ := r.RemoveData(n, 0);
    var _, d := r.RemoveData(n, 0);
    defined := d;
  }
}

/** A worker that deletes the node of its own job. */
module PoolWitness {
  import opened RaftTypes
  import opened JobPool

  const J: Job := Job(Incoming, Some(0))

  function P(locks: int, marked: bool, queue: seq<Job>, sem: nat, t: Thread, u: Thread): Pool {
    Pool(map[0 := Node(locks, marked)], {}, queue, sem, true, [t, u])
  }

  lemma ExtendPool(pools: seq<Pool>, steps: seq<Step>, st: Step, q: Pool)
    requires IsRun(pools, steps) && Next(pools[|pools| - 1], st, q)
    ensures IsRun(pools + [q], steps + [st])
  {
    hide Next, Initial;
  }

  lemma Produced() returns (pools: seq<Pool>, steps: seq<Step>)
    ensures IsRun(pools, steps) && |steps| == 6 && pools[6] == P(1, false, [J], 1, Idle, Top)
  {
    var p0 := P(0, false, [], 0, Idle, Top);
    pools, steps := [p0], [];
    assert IsRun(pools, steps);
    hide IsRun, NoReader;
    var p1 := P(0, false, [], 0, Reading, Top);
    ExtendPool(pools, steps, LockForReading(0), p1);
    pools, steps := pools + [p1], steps + [LockForReading(0)];
    var p2 := P(0, false, [], 0, Checked(0, Incoming, Shared), Top);
    ExtendPool(pools, steps, CheckMark(0, 0, Incoming), p2);
    pools, steps := pools + [p2], steps + [CheckMark(0, 0, Incoming)];
    var p3 := P(1, false, [], 0, Counted(J, Shared), Top);
    ExtendPool(pools, steps, IncrementLock(0), p3);
    pools, steps := pools + [p3], steps + [IncrementLock(0)];
    var p4 := P(1, false, [J], 0, Queued(Shared), Top);
    ExtendPool(pools, steps, AddElement(0), p4);
    pools, steps := pools + [p4], steps + [AddElement(0)];
    var p5 := P(1, false, [J], 1, Reading, Top);
    ExtendPool(pools, steps, Post(0), p5);
    pools, steps := pools + [p5], steps + [Post(0)];
    var p6 := P(1, false, [J], 1, Idle, Top);
    ExtendPool(pools, steps, UnlockReading(0), p6);
    pools, steps := pools + [p6], steps + [UnlockReading(0)];
  }

  lemma Locked() returns (pools: seq<Pool>, steps: seq<Step>)
    ensures IsRun(pools, steps) && |steps| == 10 && pools[10] == P(1, false, [], 0, Idle, InExclusive(J))
  {
    hide IsRun;
    pools, steps := Produced();
    Lengths(pools, steps);
    var p7 := P(1, false, [J], 0, Idle, Woken);
    ExtendPool(pools, steps, Wait(1), p7);
    pools, steps := pools + [p7], steps + [Wait(1)];
    var p8 := P(1, false, [], 0, Idle, Got(J));
    ExtendPool(pools, steps, Extract(1), p8);
    pools, steps := pools + [p8], steps + [Extract(1)];
    var p9 := P(1, false, [], 0, Idle, WantExclusive(J));
    ExtendPool(pools, steps, Dispatch(1), p9);
    pools, steps := pools + [p9], steps + [Dispatch(1)];
    var p10 := P(1, false, [], 0, Idle, InExclusive(J));
    ExtendPool(pools, steps, LockExclusive(1), p10);
    pools, steps := pools + [p10], steps + [LockExclusive(1)];
  }

  lemma Lengths(pools: seq<Pool>, steps: seq<Step>)
    requires IsRun(pools, steps)
    ensures |pools| == |steps| + 1
  {
  }

  /** One node, one producer, one worker: the worker handles a message of the node, deletes
      the node, and is still in its exclusive section with a reference to it. */
  lemma OwnNodeFreed() returns (pools: seq<Pool>, steps: seq<Step>)
    ensures IsRun(pools, steps) && |steps| == 13
    ensures pools[13] == Pool(map[], {0}, [], 0, true, [Idle, Handling(Some(0), {0})])
  {
    hide IsRun;
    pools, steps := Locked();
    Lengths(pools, steps);
    var p11 := P(0, false, [], 0, Idle, Handling(Some(0), {}));
    ExtendPool(pools, steps, DecrementLock(1), p11);
    pools, steps := pools + [p11], steps + [DecrementLock(1)];
    var p12 := P(0, true, [], 0, Idle, Removing(0, Some(0), {}));
    ExtendPool(pools, steps, Mark(1, 0), p12);
    pools, steps := pools + [p12], steps + [Mark(1, 0)];
    var p13 := Pool(map[], {0}, [], 0, true, [Idle, Handling(Some(0), {0})]);
    assert p12.nodes - {0} == map[] && {} + {0} == {0};
    ExtendPool(pools, steps, Free(1), p13);
    pools, steps := pools + [p13], steps + [Free(1)];
  }
}
