/**
 The handlers of `raft_server.cpp` as functions from a server state to an
 `Outcome`.  Random draws and elapsed milliseconds are parameters.
 */
module ServerSteps {
  import opened RaftTypes
  import opened RaftLog

  const MINIMUM_RAND_FACTOR := 6
  const ELAPSED_JITTER := 500

  function Max(a: int, b: int): int { if a < b then b else a }
  function Min(a: int, b: int): int { if a < b then a else b }

  // --- peers -------------------------------------------------------------

  predicate IsSelf(s: Server, p: Peer) { s.self == Some(p.key) }

  function WithVote(peers: seq<Peer>, k: Key, voted: bool): (r: seq<Peer>)
    ensures |r| == |peers|
    ensures forall i :: 0 <= i < |peers| ==>
      r[i] == if peers[i].key == k then peers[i].(voted := voted) else peers[i]
  {
    seq(|peers|, i requires 0 <= i < |peers| => if peers[i].key == k then peers[i].(voted := voted) else peers[i])
  }

  function WithNextIdx(peers: seq<Peer>, k: Key, idx: int): (r: seq<Peer>)
    ensures |r| == |peers|
    ensures forall i :: 0 <= i < |peers| ==>
      r[i] == if peers[i].key == k then peers[i].(nextIdx := idx) else peers[i]
  {
    seq(|peers|, i requires 0 <= i < |peers| => if peers[i].key == k then peers[i].(nextIdx := idx) else peers[i])
  }

  /** The members `become_leader` visits: everyone but itself and the flagged old leader. */
  predicate Visited(s: Server, p: Peer, skipLeader: bool) { !IsSelf(s, p) && !(skipLeader && p.isLeader) }

  function Promoted(s: Server, p: Peer): Peer {
    if Visited(s, p, true) then p.(nextIdx := s.currentIdx + 1) else p
  }

  function PromotedPeers(s: Server): (r: seq<Peer>)
    ensures |r| == |s.peers|
    ensures forall i :: 0 <= i < |r| ==> r[i] == Promoted(s, s.peers[i])
  {
    seq(|s.peers|, i requires 0 <= i < |s.peers| => Promoted(s, s.peers[i]))
  }

  /** `send_appendentries`.  The call site passes `next_idx` in the constructor's
      third position, which is the previous term, and 0 as the previous index. */
  function Heartbeat(s: Server, p: Peer): Packet {
    Packet(p.key, AppendEntries(s.term, 0, p.nextIdx, s.leaderCommit, []))
  }

  function Heartbeats(s: Server, skipLeader: bool, n: nat): seq<Packet>
    requires n <= |s.peers|
  {
    if n == 0 then [] else
      Heartbeats(s, skipLeader, n - 1) +
      if Visited(s, s.peers[n - 1], skipLeader) then [Heartbeat(s, s.peers[n - 1])] else []
  }

  function VoteRequest(s: Server, p: Peer): Packet {
    Packet(p.key, RequestVote(s.term, 0, s.currentIdx, 0))
  }

  function VoteRequests(s: Server, n: nat): seq<Packet>
    requires n <= |s.peers|
  {
    if n == 0 then [] else
      VoteRequests(s, n - 1) +
      if Visited(s, s.peers[n - 1], true) then [VoteRequest(s, s.peers[n - 1])] else []
  }

  // --- votes ---------------------------------------------------------------

  /** `raft_votes_is_majority` */
  predicate IsMajority(numNodes: nat, votes: int) {
    votes <= numNodes && numNodes / 2 + 1 <= votes
  }

  function PeerVotes(s: Server, n: nat): nat
    requires n <= |s.peers|
  {
    if n == 0 then 0 else
      PeerVotes(s, n - 1) + if !IsSelf(s, s.peers[n - 1]) && s.peers[n - 1].voted then 1 else 0
  }

  /** `get_nvotes_for_me` */
  function Votes(s: Server): nat {
    PeerVotes(s, |s.peers|) + if s.votedFor == s.self then 1 else 0
  }

  function BecomeFollower(s: Server): Server { s.(role := Follower, votedFor := None) }

  function Elected(s: Server): Server {
    s.(role := Leader, votedFor := None, peers := PromotedPeers(s))
  }

  function Campaign(s: Server, termJitter: nat, elapsedJitter: nat): Server {
    s.(term := s.term + 1 + termJitter, votedFor := s.self, role := Candidate, elapsed := elapsedJitter)
  }

  // --- log -----------------------------------------------------------------

  /** `apply_entry`; an empty list of payloads is its return value 0. */
  function ApplyEntry(s: Server): (r: (Server, seq<Payload>))
    ensures r.1 != [] ==> s.applied < |s.log|
  {
    match LogGet(s.log, s.applied + 1)
    case None => (s, [])
    case Some(e) => (s.(applied := s.applied + 1, commit := Max(s.commit, s.applied + 1)), [e.data])
  }

  /** `while (1 == apply_entry());` */
  function ApplyAll(s: Server): (Server, seq<Payload>)
    decreases |s.log| - s.applied
  {
    var (s1, p) := ApplyEntry(s);
    if p == [] then (s, []) else
      var (s2, ps) := ApplyAll(s1);
      (s2, p + ps)
  }

  function CommitFromLeader(s: Server, leaderCommit: int): (Server, seq<Payload>) {
    if s.commit < leaderCommit && s.log != [] then
      var idx := Min(s.log[|s.log| - 1].id, leaderCommit);
      ApplyAll(s.(commit := idx, applied := idx))
    else
      (s, [])
  }

  /** `append_entry` */
  function AppendOne(s: Server, term: int, c: ClientEntry): (Server, bool) {
    if c.id == 0 then (s, false)
    else (s.(log := s.log + [Entry(term, c.id, c.data, 0)], currentIdx := s.currentIdx + 1), true)
  }

  function AppendMany(s: Server, es: seq<ClientEntry>): (Server, bool)
    decreases |es|
  {
    if es == [] then (s, true) else
      var (s1, ok) := AppendOne(s, s.term, es[0]);
      if ok then AppendMany(s1, es[1..]) else (s, false)
  }

  /** The marking loop over `[i, last]`; false when a lookup throws. */
  function MarkRange(log: seq<Entry>, i: int, last: int): (seq<Entry>, bool)
    requires i <= last ==> Addressable(log, i)
    decreases last - i
  {
    if i > last then (log, true)
    else if !(1 <= i <= |log|) then (log, false)
    else MarkRange(Acked(log, i), i + 1, last)
  }

  /** The commit loop; the flag says that it threw. */
  function CommitLoop(s: Server, target: int): (Server, seq<Payload>, bool)
    decreases |s.log| - s.applied
  {
    if s.commit >= target then (s, [], false)
    else match LogGet(s.log, s.applied + 1)
      case None => (s, [], true)
      case Some(e) =>
        if |s.peers| / 2 <= e.acks then
          var (s1, p) := ApplyEntry(s);
          if e.id == target then (s1, p, false)
          else
            var (s2, ps, threw) := CommitLoop(s1, target);
            (s2, p + ps, threw)
        else (s, [], false)
  }

  // --- handlers --------------------------------------------------------------

  function OnTimer(s: Server, msec: nat, termJitter: nat, elapsedJitter: nat): Outcome {
    var (s1, p) := if s.role.Follower? && s.applied < s.commit then ApplyEntry(s) else (s, []);
    if s.role.Follower? && s.applied < s.commit && p == [] then Outcome(s, [], [], false)
    else
      var s2 := s1.(elapsed := s1.elapsed + msec);
      if s2.role.Leader? && s2.requestTimeout <= s2.elapsed then
        var s3 := s2.(leaderCommit := s2.leaderCommit + 1, elapsed := 0);
        Outcome(s3, Heartbeats(s3, false, |s3.peers|), p, false)
      else if !s2.role.Leader? && s2.electionTimeout <= s2.elapsed then
        var s3 := Campaign(s2, termJitter, elapsedJitter);
        Outcome(s3, VoteRequests(s3, |s3.peers|), p, false)
      else
        Outcome(s2, [], p, false)
  }

  predicate Refuses(s: Server, m: Message)
    requires m.RequestVote?
  {
    || m.term < s.term
    || (s.votedFor != None && m.term <= s.term)
    || m.lastLogIdx < s.currentIdx
  }

  function OnRequestVote(s: Server, from: Key, m: Message): Outcome
    requires m.RequestVote?
  {
    var s1 := if s.term < m.term then s.(votedFor := None) else s;
    if m.term < s1.term || s1.votedFor != None || m.lastLogIdx < s1.currentIdx then
      Outcome(s1, [Packet(from, VoteReply(s1.term, false))], [], false)
    else
      Outcome(s1.(votedFor := Some(from)), [Packet(from, VoteReply(s1.term, true))], [], false)
  }

  function OnVoteReply(s: Server, from: Key, m: Message): Outcome
    requires m.VoteReply? && s.peers != []
  {
    if s.role.Leader? then Outcome(s, [], [], false)
    else
      var s1 := s.(peers := WithVote(s.peers, from, m.granted));
      if m.granted && IsMajority(|s1.peers| - 1, Votes(s1)) then
        var s2 := Elected(s1);
        Outcome(s2, Heartbeats(s2, true, |s2.peers|), [], false)
      else
        Outcome(s1, [], [], false)
  }

  /** Whether the log holds an entry at the message's previous index with its term. */
  predicate PrevMatches(log: seq<Entry>, m: Message)
    requires m.AppendEntries?
  {
    m.prevLogIdx == 0 || (1 <= m.prevLogIdx <= |log| && log[m.prevLogIdx - 1].term == m.prevLogTerm)
  }

  predicate Accepts(s: Server, m: Message)
    requires m.AppendEntries?
  {
    s.term <= m.term && PrevMatches(s.log, m)
  }

  function Kept(log: seq<Entry>, m: Message): seq<Entry>
    requires m.AppendEntries? && PrevMatches(log, m)
  {
    if m.prevLogIdx == 0 then log else log[..m.prevLogIdx]
  }

  /** Timer restart, and stepping down before a leader of a current term. */
  function Recognise(s: Server, restartTimer: bool, term: int): Server {
    var s0 := if restartTimer then s.(elapsed := 0) else s;
    if s0.role.Leader? && s0.term <= term then BecomeFollower(s0) else s0
  }

  function Adopt(s: Server, term: int): Server {
    (if s.role.Candidate? then BecomeFollower(s) else s).(term := term)
  }

  function OnAppendEntries(s: Server, from: Key, restartTimer: bool, m: Message): Outcome
    requires m.AppendEntries?
  {
    var s1 := Recognise(s, restartTimer, m.term);
    if !Accepts(s1, m) then
      Outcome(s1, [Packet(from, AppendRefused(s.term))], [], false)
    else
      var (s2, applied) := CommitFromLeader(s1.(log := Kept(s1.log, m)), m.leaderCommit);
      var (s3, ok) := AppendMany(Adopt(s2, m.term), m.entries);
      var reply := if ok then AppendAccepted(s.term, s3.currentIdx, m.prevLogIdx + 1) else AppendRefused(s.term);
      Outcome(s3, [Packet(from, reply)], applied, false)
  }

  function PeerOf(peers: seq<Peer>, k: Key): (p: Peer)
    requires HasPeer(peers, k)
    ensures p in peers && p.key == k
  {
    if peers[0].key == k then peers[0] else PeerOf(peers[1..], k)
  }

  /** The marking loop never reaches index 0 of a non-empty log. */
  predicate Markable(s: Server, m: Message)
    requires m.AppendAccepted?
  {
    m.firstIdx <= m.currentIdx ==> Addressable(s.log, m.firstIdx)
  }

  function OnAppendAccepted(s: Server, from: Key, m: Message): Outcome
    requires m.AppendAccepted? && Markable(s, m)
  {
    var s1 := s.(peers := WithNextIdx(s.peers, from, m.currentIdx));
    var (log, ok) := MarkRange(s.log, m.firstIdx, m.currentIdx);
    var s2 := s1.(log := log);
    if !ok then Outcome(s2, [], [], true)
    else
      var (s3, applied, threw) := CommitLoop(s2, m.currentIdx);
      Outcome(s3, [], applied, threw)
  }

  function OnAppendRefused(s: Server, from: Key): Outcome
    requires HasPeer(s.peers, from)
  {
    Outcome(s, [Heartbeat(s, PeerOf(s.peers, from))], [], false)
  }

  function OnClientEntry(s: Server, from: Key, c: ClientEntry): Outcome {
    var (s1, ok) := AppendOne(s, s.term, c);
    Outcome(s1, [Packet(from, EntryReply(c.id, ok))] + Heartbeats(s1, false, |s1.peers|), [], false)
  }

  // --- one server's runs ---------------------------------------------------------

  datatype Event =
    | Timer(msec: nat, termJitter: nat, elapsedJitter: nat)
    | Receive(from: Key, restartTimer: bool, msg: Message)
    | Submit(from: Key, entry: ClientEntry)

  predicate Possible(s: Server, e: Event) {
    match e
    case Timer(_, tj, ej) => tj < Max(|s.peers|, MINIMUM_RAND_FACTOR) && ej < ELAPSED_JITTER
    case Receive(k, _, m) => HasPeer(s.peers, k) && (m.AppendAccepted? ==> Markable(s, m))
    case Submit(k, _) => HasPeer(s.peers, k)
  }

  function Handle(s: Server, e: Event): Outcome
    requires Possible(s, e)
  {
    match e
    case Timer(ms, tj, ej) => OnTimer(s, ms, tj, ej)
    case Submit(k, c) => OnClientEntry(s, k, c)
    case Receive(k, restart, m) =>
      match m
      case RequestVote(_, _, _, _) => OnRequestVote(s, k, m)
      case VoteReply(_, _) => OnVoteReply(s, k, m)
      case AppendEntries(_, _, _, _, _) => OnAppendEntries(s, k, restart, m)
      case AppendRefused(_) => OnAppendRefused(s, k)
      case AppendAccepted(_, _, _) => OnAppendAccepted(s, k, m)
      case EntryReply(_, _) => Outcome(s, [], [], false)
  }

  /** The state the constructor leaves, once members and timeouts are configured. */
  predicate Initial(s: Server) {
    && s.term == 0 && s.votedFor == None && s.log == [] && s.commit == 0 && s.applied == 0
    && s.role == Follower && s.currentIdx == 1 && s.elapsed == 0 && s.leaderCommit == 0
    && DistinctKeys(s.peers) && (forall p :: p in s.peers ==> !p.voted)
  }

  /** `states` is a run driven by `events`: any messages, timer ticks and client entries. */
  predicate IsRun(states: seq<Server>, events: seq<Event>) {
    && |states| == |events| + 1
    && Initial(states[0])
    && forall i :: 0 <= i < |events| ==>
         Possible(states[i], events[i]) && states[i + 1] == Handle(states[i], events[i]).server
  }
}
