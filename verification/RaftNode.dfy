/**
 `raft_node.cpp`: one member as a server sees it.  The links and the key belong to
 the registry that holds the node.
 */
module RaftNodes {
  import opened RaftTypes
  import HashTables

  class RaftNode {
    var prev: RaftNode?
    var next: RaftNode?
    var key: Key
    /** the hash entry in whose buffer the key lies */
    var keyOwner: HashTables.HashItem?<RaftNode>
    var nextIdx: int
    var votesForMe: bool
    var isLeader: bool

    constructor ()
      ensures prev == null && next == null && key == [] && keyOwner == null
      ensures nextIdx == 0 && !votesForMe && !isLeader
    {
      prev, next, key, keyOwner := null, null, [], null;
      nextIdx, votesForMe, isLeader := 0, false, false;
    }

    ghost function AsPeer(): Peer
      reads this
    {
      Peer(key, votesForMe, nextIdx, isLeader)
    }
  }

  ghost function KeyOf(n: RaftNode?): Option<Key>
    reads n
  {
    if n == null then None else Some(n.key)
  }

  ghost predicate DistinctNodes(nodes: seq<RaftNode>)
    reads nodes`key
  {
    forall i, j :: 0 <= i < j < |nodes| ==> nodes[i].key != nodes[j].key
  }

  ghost function PeersOf(nodes: seq<RaftNode>): (r: seq<Peer>)
    reads nodes
    ensures |r| == |nodes|
  {
    if nodes == [] then [] else PeersOf(nodes[..|nodes| - 1]) + [nodes[|nodes| - 1].AsPeer()]
  }

  lemma {:induction false} PeersAt(nodes: seq<RaftNode>)
    ensures forall i :: 0 <= i < |nodes| ==> PeersOf(nodes)[i] == nodes[i].AsPeer()
  {
    if nodes != [] { PeersAt(nodes[..|nodes| - 1]); }
  }
}
