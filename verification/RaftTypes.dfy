/**
 Records shared by the whole project: node keys, log entries, the messages of
 `raft_msg.h`, and the state one `RaftServer` updates.

 Terms and indices are mathematical integers.  `success` and `vote_granted` are
 only ever compared with 1, so they are booleans; the index fields of an
 AppendEntries response are set only when it succeeds, so they exist only there.
 */
module RaftTypes {

  datatype Option<+T> = None | Some(value: T)

  type Byte = b: int | 0 <= b < 256

  /** The bytes of a `NodeIdentifierKey`. */
  type Key = seq<Byte>

  type Payload = seq<Byte>

  datatype Role = Unset | Follower | Candidate | Leader

  /** `raft_entry_t`; `acks` is `d_num_nodes`. */
  datatype Entry = Entry(term: int, id: nat, data: Payload, acks: nat)

  /** `msg_entry_t` */
  datatype ClientEntry = ClientEntry(id: nat, data: Payload)

  datatype Message =
    | RequestVote(term: int, candidateId: int, lastLogIdx: int, lastLogTerm: int)
    | VoteReply(term: int, granted: bool)
    | AppendEntries(term: int, prevLogIdx: int, prevLogTerm: int, leaderCommit: int, entries: seq<ClientEntry>)
    | AppendRefused(term: int)
    | AppendAccepted(term: int, currentIdx: int, firstIdx: int)
    | EntryReply(id: nat, committed: bool)

  datatype Packet = Packet(dst: Key, msg: Message)

  /** What a server knows about one member (`RaftNode2`), itself included. */
  datatype Peer = Peer(key: Key, voted: bool, nextIdx: int, isLeader: bool)

  datatype Server = Server(
    term: int, votedFor: Option<Key>, log: seq<Entry>, commit: nat, applied: nat, role: Role, currentIdx: nat,
    elapsed: int, electionTimeout: int, requestTimeout: int, leaderCommit: int, self: Option<Key>, peers: seq<Peer>)

  /** What one handler call did: new state, `send` and `applylog` callbacks in
      order, and whether a `std::runtime_error` left the handler. */
  datatype Outcome = Outcome(server: Server, sent: seq<Packet>, delivered: seq<Payload>, threw: bool)

  predicate DistinctKeys(peers: seq<Peer>) {
    forall i, j :: 0 <= i < j < |peers| ==> peers[i].key != peers[j].key
  }

  predicate HasPeer(peers: seq<Peer>, k: Key) {
    exists i :: 0 <= i < |peers| && peers[i].key == k
  }
}
