/**
 A fixed set of servers joined by a network that may lose, duplicate, delay and
 reorder packets: what was ever sent stays deliverable, any number of times.
 */
module Cluster {
  import opened RaftTypes
  import opened ServerSteps
  import opened ServerTheorems

  datatype Envelope = Envelope(src: Key, dst: Key, msg: Message)

  datatype System = System(servers: map<Key, Server>, net: set<Envelope>)

  datatype Action =
    | Local(at: Key, event: Event)
    | Deliver(envelope: Envelope, restartTimer: bool)

  function Actor(a: Action): Key { if a.Local? then a.at else a.envelope.dst }

  function EventOf(a: Action): Event {
    if a.Local? then a.event else Receive(a.envelope.src, a.restartTimer, a.envelope.msg)
  }

  predicate Enabled(c: System, a: Action) {
    && (if a.Local? then !a.event.Receive? else a.envelope in c.net)
    && Actor(a) in c.servers && Possible(c.servers[Actor(a)], EventOf(a))
  }

  function Effect(c: System, a: Action): Outcome
    requires Enabled(c, a)
  {
    Handle(c.servers[Actor(a)], EventOf(a))
  }

  function Posted(src: Key, sent: seq<Packet>): set<Envelope> {
    set i | 0 <= i < |sent| :: Envelope(src, sent[i].dst, sent[i].msg)
  }

  function After(c: System, a: Action): System
    requires Enabled(c, a)
  {
    System(c.servers[Actor(a) := Effect(c, a).server], c.net + Posted(Actor(a), Effect(c, a).sent))
  }

  ghost predicate Member(ids: set<Key>, k: Key, s: Server) {
    s.self == Some(k) && DistinctKeys(s.peers) && forall x :: HasPeer(s.peers, x) <==> x in ids
  }

  ghost predicate Start(ids: set<Key>, c: System) {
    && ids != {} && c.servers.Keys == ids && c.net == {}
    && forall k :: k in ids ==> Initial(c.servers[k]) && Member(ids, k, c.servers[k])
  }

  /** `states` is a behaviour of the cluster under `actions`. */
  ghost predicate IsTrace(ids: set<Key>, states: seq<System>, actions: seq<Action>) {
    && |states| == |actions| + 1
    && Start(ids, states[0])
    && forall i :: 0 <= i < |actions| ==>
         Enabled(states[i], actions[i]) && states[i + 1] == After(states[i], actions[i])
  }

  // --- what a server can put on the wire -------------------------------------------------

  /** Every packet answers to the state that sent it: heartbeats carry no entries and
      previous index 0, vote requests carry the sender's term and index, a granted
      vote follows a request that was not refused. */
  ghost predicate Accountable(s: Server, e: Event, t: Server, p: Packet) {
    && HasPeer(s.peers, p.dst)
    && (p.msg.AppendEntries? ==> p.msg.prevLogIdx == 0 && p.msg.entries == [])
    && (p.msg.RequestVote? ==> p.msg.lastLogIdx == t.currentIdx && p.msg.term == t.term)
    && (p.msg.AppendAccepted? ==> e.Receive? && e.msg.AppendEntries? && p.msg.firstIdx == e.msg.prevLogIdx + 1)
    && (p.msg.VoteReply? && p.msg.granted ==>
          e.Receive? && e.from == p.dst && e.msg.RequestVote? && !Refuses(s, e.msg))
  }

  lemma {:induction false} HeartbeatsShape(s: Server, skip: bool, n: nat, p: Packet)
    requires n <= |s.peers| && p in Heartbeats(s, skip, n)
    ensures HasPeer(s.peers, p.dst) && p.msg.AppendEntries? && p.msg.prevLogIdx == 0 && p.msg.entries == []
  {
    if n > 0 && p in Heartbeats(s, skip, n - 1) {
      HeartbeatsShape(s, skip, n - 1, p);
    }
  }

  lemma {:induction false} VoteRequestsShape(s: Server, n: nat, p: Packet)
    requires n <= |s.peers| && p in VoteRequests(s, n)
    ensures HasPeer(s.peers, p.dst) && p.msg.RequestVote?
    ensures p.msg.term == s.term && p.msg.lastLogIdx == s.currentIdx
  {
    if n > 0 && p in VoteRequests(s, n - 1) {
      VoteRequestsShape(s, n - 1, p);
    }
  }

  lemma TimerSends(s: Server, e: Event, p: Packet)
    requires Sound(s) && Possible(s, e) && e.Timer? && p in Handle(s, e).sent
    ensures Accountable(s, e, Handle(s, e).server, p)
  {
    var s2 := s.(elapsed := s.elapsed + e.msec);
    if s.role.Leader? {
      HeartbeatsShape(s2.(leaderCommit := s2.leaderCommit + 1, elapsed := 0), false, |s.peers|, p);
    } else {
      VoteRequestsShape(Campaign(s2, e.termJitter, e.elapsedJitter), |s.peers|, p);
    }
  }

  lemma SubmitSends(s: Server, e: Event, p: Packet)
    requires Possible(s, e) && e.Submit? && p in Handle(s, e).sent
    ensures Accountable(s, e, Handle(s, e).server, p)
  {
    var s1 := AppendOne(s, s.term, e.entry).0;
    if p in Heartbeats(s1, false, |s1.peers|) { HeartbeatsShape(s1, false, |s1.peers|, p); }
  }

  lemma VoteReplySends(s: Server, e: Event, p: Packet)
    requires Possible(s, e) && e.Receive? && e.msg.VoteReply? && p in Handle(s, e).sent
    ensures Accountable(s, e, Handle(s, e).server, p)
  {
    var s2 := Elected(s.(peers := WithVote(s.peers, e.from, e.msg.granted)));
    HeartbeatsShape(s2, true, |s2.peers|, p);
    var i :| 0 <= i < |s2.peers| && s2.peers[i].key == p.dst;
    assert s.peers[i].key == p.dst;
  }

  lemma EverySendIsAccountable(s: Server, e: Event, p: Packet)
    requires Sound(s) && Possible(s, e) && p in Handle(s, e).sent
    ensures Accountable(s, e, Handle(s, e).server, p)
  {
    match e
    case Timer(_, _, _) => TimerSends(s, e, p);
    case Submit(_, _) => SubmitSends(s, e, p);
    case Receive(k, restart, m) =>
      match m
      case VoteReply(_, _) => VoteReplySends(s, e, p);
      case RequestVote(_, _, _, _) => RequestVoteDecides(s, k, m);
      case AppendEntries(_, _, _, _, _) =>
        hide OnAppendEntries;
        if Accepts(s, m) { AppendEntriesAccepted(s, k, restart, m); } else { AppendEntriesRefused(s, k, restart, m); }
      case _ =>
  }

  // --- the reachable states -----------------------------------------------------------------

  /** A packet still bears out against the present state of its sender. */
  ghost predicate Credible(ids: set<Key>, c: System, x: Envelope)
    requires c.servers.Keys == ids
  {
    && x.src in ids && x.dst in ids
    && (x.msg.AppendEntries? ==> x.msg.prevLogIdx == 0 && x.msg.entries == [])
    && (x.msg.AppendAccepted? ==> x.msg.firstIdx == 1)
    && (x.msg.RequestVote? ==>
          x.msg.lastLogIdx <= c.servers[x.src].currentIdx && x.msg.term <= c.servers[x.src].term)
  }

  ghost predicate Healthy(ids: set<Key>, c: System) {
    && c.servers.Keys == ids
    && (forall k :: k in ids ==> Sound(c.servers[k]) && Member(ids, k, c.servers[k]))
    && (forall x :: x in c.net ==> Credible(ids, c, x))
  }

  lemma LaterIsMember(ids: set<Key>, k: Key, s: Server, t: Server)
    requires Member(ids, k, s) && Later(s, t)
    ensures Member(ids, k, t)
  {
    forall x ensures HasPeer(t.peers, x) <==> HasPeer(s.peers, x) {
      if HasPeer(s.peers, x) {
        var i :| 0 <= i < |s.peers| && s.peers[i].key == x;
        assert t.peers[i].key == x;
      }
      if HasPeer(t.peers, x) {
        var i :| 0 <= i < |t.peers| && t.peers[i].key == x;
        assert s.peers[i].key == x;
      }
    }
  }

  lemma PostedIsCredible(ids: set<Key>, c: System, a: Action, x: Envelope)
    requires Healthy(ids, c) && Enabled(c, a) && x in Posted(Actor(a), Effect(c, a).sent)
    ensures Credible(ids, After(c, a), x)
  {
    hide Handle, Possible, Sound;
    var s, e := c.servers[Actor(a)], EventOf(a);
    var i :| 0 <= i < |Effect(c, a).sent| &&
      x == Envelope(Actor(a), Effect(c, a).sent[i].dst, Effect(c, a).sent[i].msg);
    EverySendIsAccountable(s, e, Effect(c, a).sent[i]);
  }

  lemma OldStaysCredible(ids: set<Key>, c: System, a: Action, x: Envelope)
    requires c.servers.Keys == ids && Enabled(c, a) && Credible(ids, c, x)
    requires Later(c.servers[Actor(a)], Effect(c, a).server)
    ensures Credible(ids, After(c, a), x)
  {
    hide Handle, Possible, Posted;
  }

  lemma StepIsHealthy(ids: set<Key>, c: System, a: Action)
    requires Healthy(ids, c) && Enabled(c, a)
    ensures Healthy(ids, After(c, a))
    ensures Later(c.servers[Actor(a)], Effect(c, a).server)
  {
    hide Handle, Possible, Sound, Posted, Member, Credible, Later;
    var k, c' := Actor(a), After(c, a);
    assert Sound(c.servers[k]) && Member(ids, k, c.servers[k]);
    StepKeepsSound(c.servers[k], EventOf(a));
    LaterIsMember(ids, k, c.servers[k], c'.servers[k]);
    forall x | x in c'.net ensures Credible(ids, c', x) {
      if x in c.net {
        OldStaysCredible(ids, c, a, x);
      } else {
        PostedIsCredible(ids, c, a, x);
      }
    }
  }

  lemma StartIsHealthy(ids: set<Key>, c: System)
    requires Start(ids, c)
    ensures Healthy(ids, c)
  {
  }

  lemma {:induction false} TraceIsHealthy(ids: set<Key>, states: seq<System>, actions: seq<Action>, n: nat)
    requires IsTrace(ids, states, actions) && n < |states|
    ensures Healthy(ids, states[n])
  {
    hide Handle, Possible, Healthy, Later;
    if n == 0 {
      StartIsHealthy(ids, states[0]);
    } else {
      TraceIsHealthy(ids, states, actions, n - 1);
      StepIsHealthy(ids, states[n - 1], actions[n - 1]);
    }
  }

  lemma HealthyDelivers(ids: set<Key>, c: System, x: Envelope, restart: bool)
    requires Healthy(ids, c) && x in c.net
    ensures Enabled(c, Deliver(x, restart))
  {
    hide Sound;
    assert Credible(ids, c, x) && Member(ids, x.dst, c.servers[x.dst]);
  }

  /** Whatever is in flight can be delivered: no reachable packet asks its receiver
      for log index 0. */
  lemma NothingUndeliverable(
    ids: set<Key>, states: seq<System>, actions: seq<Action>, n: nat, x: Envelope, restart: bool)
    requires IsTrace(ids, states, actions) && n < |states| && x in states[n].net
    ensures Enabled(states[n], Deliver(x, restart))
  {
    hide Handle, Possible, Healthy;
    TraceIsHealthy(ids, states, actions, n);
    HealthyDelivers(ids, states[n], x, restart);
  }

  /** One step of a behaviour, between two healthy states. */
  lemma TraceStep(ids: set<Key>, states: seq<System>, actions: seq<Action>, n: nat)
    requires IsTrace(ids, states, actions) && (n < |actions| || n + 1 < |states|)
    ensures |states| == |actions| + 1 && ids != {}
    ensures Healthy(ids, states[n]) && Healthy(ids, states[n + 1])
    ensures Enabled(states[n], actions[n]) && states[n + 1] == After(states[n], actions[n])
  {
    hide Handle, Possible, Healthy;
    TraceIsHealthy(ids, states, actions, n);
    TraceIsHealthy(ids, states, actions, n + 1);
  }

  lemma StepMovesForward(ids: set<Key>, c: System, a: Action, k: Key)
    requires Healthy(ids, c) && Enabled(c, a) && k in ids
    ensures After(c, a).servers.Keys == c.servers.Keys == ids
    ensures c.servers[k].currentIdx <= After(c, a).servers[k].currentIdx
    ensures c.servers[k].term <= After(c, a).servers[k].term
    ensures |c.servers[k].peers| == |After(c, a).servers[k].peers|
  {
    hide Handle, Possible, Sound, Member, Credible, Posted;
    StepIsHealthy(ids, c, a);
  }

  /** Terms and `current_idx` never decrease anywhere in the cluster. */
  lemma {:induction false} TraceMovesForward(
    ids: set<Key>, states: seq<System>, actions: seq<Action>, i: nat, j: nat, k: Key)
    requires IsTrace(ids, states, actions) && i <= j < |states| && k in ids
    ensures states[i].servers.Keys == states[j].servers.Keys == ids
    ensures states[i].servers[k].currentIdx <= states[j].servers[k].currentIdx
    ensures states[i].servers[k].term <= states[j].servers[k].term
    decreases j - i
  {
    hide IsTrace, Enabled, After, Sound, Member, Credible;
    TraceIsHealthy(ids, states, actions, j);
    if i < j {
      TraceMovesForward(ids, states, actions, i, j - 1, k);
      TraceStep(ids, states, actions, j - 1);
      StepMovesForward(ids, states[j - 1], actions[j - 1], k);
    }
  }
}
