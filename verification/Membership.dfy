/**
 Membership operations of `raft_server.cpp` on the registry, and the snapshot a node
 sends to a joining one (`tcp/raft_tcp_server.cpp`): the key array with the leader's
 index, and the table rebuilt from it.
 */
module Membership {
  import opened RaftTypes
  import opened RaftNodes
  import opened Sequences
  import LinkedLists
  import HashTables
  import opened Registries

  datatype Member = Member(key: Key, leader: bool)

  ghost function MembersOf(nodes: seq<RaftNode>): (r: seq<Member>)
    reads nodes`key, nodes`isLeader
    ensures |r| == |nodes|
  {
    if nodes == [] then []
    else MembersOf(nodes[..|nodes| - 1]) + [Member(nodes[|nodes| - 1].key, nodes[|nodes| - 1].isLeader)]
  }

  // --- what a snapshot means -----------------------------------------------------------------

  function Keys(ms: seq<Member>): (r: seq<Key>)
    ensures |r| == |ms|
    ensures forall i :: 0 <= i < |ms| ==> r[i] == ms[i].key
  {
    seq(|ms|, i requires 0 <= i < |ms| => ms[i].key)
  }

  /** The last flagged position, or -1. */
  function LeaderIndex(ms: seq<Member>): (i: int)
    ensures -1 <= i < |ms|
    ensures i >= 0 ==> ms[i].leader
    ensures forall j :: i < j < |ms| ==> !ms[j].leader
  {
    if ms == [] then -1
    else if ms[|ms| - 1].leader then |ms| - 1
    else LeaderIndex(ms[..|ms| - 1])
  }

  predicate Knows(ms: seq<Member>, k: Key) { exists i :: 0 <= i < |ms| && ms[i].key == k }

  /** The table after the first `n` snapshot keys were added to `start`; a key that is
      already there is skipped. */
  function Rebuilt(start: seq<Member>, keys: seq<Key>, leader: int, n: nat): seq<Member>
    requires n <= |keys|
  {
    if n == 0 then start else
      var t := Rebuilt(start, keys, leader, n - 1);
      if Knows(t, keys[n - 1]) then t else t + [Member(keys[n - 1], n - 1 == leader)]
  }

  /** The snapshot's leader is among the first `n` keys and was not in the table yet. */
  predicate AddsLeader(start: seq<Member>, keys: seq<Key>, leader: int, n: nat)
    requires n <= |keys|
  {
    0 <= leader < n && !Knows(Rebuilt(start, keys, leader, leader), keys[leader])
  }

  predicate DistinctMembers(ms: seq<Member>) {
    forall i, j :: 0 <= i < j < |ms| ==> ms[i].key != ms[j].key
  }

  predicate OneLeader(ms: seq<Member>) {
    forall i, j :: 0 <= i < j < |ms| ==> !(ms[i].leader && ms[j].leader)
  }

  lemma {:induction false} RebuiltPrefix(ms: seq<Member>, leader: int, n: nat)
    requires n <= |ms| && DistinctMembers(ms)
    ensures var t := Rebuilt([], Keys(ms), leader, n);
      |t| == n && forall i :: 0 <= i < n ==> t[i] == Member(ms[i].key, i == leader)
  {
    if n > 0 {
      RebuiltPrefix(ms, leader, n - 1);
      var t := Rebuilt([], Keys(ms), leader, n - 1);
      assert !Knows(t, ms[n - 1].key);
    }
  }

  lemma OnlyLeader(ms: seq<Member>, i: nat)
    requires OneLeader(ms) && i < |ms|
    ensures ms[i].leader <==> i == LeaderIndex(ms)
  {
    var l := LeaderIndex(ms);
    if 0 <= l && i < l { assert !(ms[l].leader && ms[i].leader); }
  }

  /** A join reproduces the sender's members, in order and with the leader flag on the
      same key, exactly when the sender flags at most one of its distinct members. */
  lemma JoinRoundTrip(ms: seq<Member>)
    requires DistinctMembers(ms)
    ensures Rebuilt([], Keys(ms), LeaderIndex(ms), |ms|) == ms <==> OneLeader(ms)
  {
    hide Rebuilt, Keys, LeaderIndex;
    RebuiltPrefix(ms, LeaderIndex(ms), |ms|);
    var t := Rebuilt([], Keys(ms), LeaderIndex(ms), |ms|);
    if OneLeader(ms) {
      forall i | 0 <= i < |ms| ensures t[i] == ms[i] { OnlyLeader(ms, i); }
    } else {
      var i, j :| 0 <= i < j < |ms| && ms[i].leader && ms[j].leader;
      assert j <= LeaderIndex(ms);
      assert t[i] != ms[i];
    }
  }

  // --- the operations -------------------------------------------------------------------------

  lemma {:induction false} MembersAt(nodes: seq<RaftNode>)
    ensures forall i :: 0 <= i < |nodes| ==> MembersOf(nodes)[i] == Member(nodes[i].key, nodes[i].isLeader)
  {
    if nodes != [] { MembersAt(nodes[..|nodes| - 1]); }
  }

  lemma KnowsIsHasKey(reg: Registry, k: Key)
    ensures Knows(MembersOf(reg.Items()), k) <==> reg.HasKey(k)
  {
    MembersAt(reg.Items());
    if reg.HasKey(k) {
      var i :| 0 <= i < |reg.Items()| && reg.Items()[i].key == k;
      assert MembersOf(reg.Items())[i].key == k;
    }
  }

  /** `AddNode`: a fresh node at the end, or nothing when the key is taken. */
  method AddNode(reg: Registry, k: Key) returns (n: RaftNode?)
    requires reg.Valid()
    modifies reg.list, reg.list.items`next, reg.hash, reg.hash.table, reg.hash.repr
    ensures reg.Valid() && reg.hash.table == old(reg.hash.table)
    ensures fresh(reg.hash.repr - old(reg.hash.repr)) && old(reg.hash.repr) <= reg.hash.repr
    ensures n == null <==> old(reg.HasKey(k))
    ensures n == null ==> reg.Items() == old(reg.Items())
    ensures n != null ==> fresh(n) && n.key == k && reg.Items() == old(reg.Items()) + [n]
    ensures n != null ==> !n.isLeader && !n.votesForMe && n.nextIdx == 0
  {
    hide Registry.Valid, Registry.HasKey;
    var found := reg.FindEntry(k);
    if found.Some? { return null; }
    n := new RaftNode();
    var added := reg.AddData(n, k);
  }

  /** `RemoveNode1`: the member with the key goes, the others keep their order. */
  method RemoveNode(reg: Registry, k: Key) returns (ghost i: nat)
    requires reg.Valid()
    modifies reg.list, reg.list.items`prev, reg.list.items`next, reg.hash, reg.hash.table, reg.hash.repr
    ensures reg.Valid() && reg.hash.table == old(reg.hash.table) && reg.hash.repr == old(reg.hash.repr)
    ensures old(reg.HasKey(k)) ==>
      i < |old(reg.Items())| && old(reg.Items()[i].key) == k && reg.Items() == Cut(old(reg.Items()), i)
    ensures !old(reg.HasKey(k)) ==> reg.Items() == old(reg.Items())
  {
    hide Registry.Valid, Registry.HasKey;
    i := 0;
    var found := reg.FindEntry(k);
    if found.Some? {
      i :| 0 <= i < |reg.Items()| && reg.Items()[i] == found.value;
      var _, _ := reg.RemoveData(found.value, i);
    }
  }

  /** `ClearAllNodes`: follows the successors that removal answers until none is left. */
  method ClearAllNodes(reg: Registry)
    requires reg.Valid()
    modifies reg.list, reg.list.items`prev, reg.list.items`next, reg.hash, reg.hash.table, reg.hash.repr
    ensures reg.Valid() && reg.Items() == []
  {
    hide Registry.Valid, Cut;
    var node := reg.list.first;
    reg.StartsAtFirst();
    while node != null
      invariant reg.Valid() && reg.hash.table == old(reg.hash.table) && reg.hash.repr == old(reg.hash.repr)
      invariant forall i :: 0 <= i < |reg.list.items| ==> reg.list.items[i] in old(reg.list.items)
      invariant node == LinkedLists.At(reg.Items(), 0)
      decreases |reg.Items()|
    {
      CutFront(reg.Items());
      var successor, _ := reg.RemoveData(node, 0);
      node := successor;
    }
  }

  /** The walk of `CollectAllNodesDataNotThrSafe`. */
  method CollectAllNodesData(reg: Registry) returns (keys: seq<Key>, leaderIndex: int)
    requires reg.Valid()
    ensures keys == Keys(MembersOf(reg.Items())) && leaderIndex == LeaderIndex(MembersOf(reg.Items()))
  {
    hide HashTables.HashTbl.Valid, HashTables.HashTbl.Sized, Registry.Agrees, Registry.AgreesOn, Numbered;
    ghost var items := reg.Items();
    ghost var ms := MembersOf(items);
    MembersAt(items);
    keys, leaderIndex := [], -1;
    var node, i := reg.list.first, 0;
    assert ms[..0] == [];
    while node != null
      invariant 0 <= i <= |items| && node == LinkedLists.At(items, i)
      invariant keys == Keys(ms[..i]) && leaderIndex == LeaderIndex(ms[..i])
      decreases |items| - i
    {
      assert node == items[i];
      assert ms[..i + 1] == ms[..i] + [ms[i]] && ms[..i + 1][..i] == ms[..i];
      keys := keys + [node.key];
      if node.isLeader { leaderIndex := i; }
      node, i := node.next, i + 1;
    }
    assert ms[..|items|] == ms;
  }

  lemma MembersPush(nodes: seq<RaftNode>, n: RaftNode)
    ensures MembersOf(nodes + [n]) == MembersOf(nodes) + [Member(n.key, n.isLeader)]
  {
    assert (nodes + [n])[..|nodes|] == nodes;
  }

  /** One round of the rebuild loop. */
  method AddSnapshotKey(reg: Registry, k: Key, isLeader: bool) returns (n: RaftNode?)
    requires reg.Valid()
    modifies reg.list, reg.list.items`next, reg.hash, reg.hash.table, reg.hash.repr
    ensures reg.Valid() && reg.hash.table == old(reg.hash.table)
    ensures fresh(reg.hash.repr - old(reg.hash.repr))
    ensures var t := old(MembersOf(reg.Items()));
      MembersOf(reg.Items()) == if Knows(t, k) then t else t + [Member(k, isLeader)]
    ensures n == null <==> Knows(old(MembersOf(reg.Items())), k)
    ensures n == null ==> reg.Items() == old(reg.Items())
    ensures n != null ==> fresh(n) && n.key == k && n.isLeader == isLeader && reg.Items() == old(reg.Items()) + [n]
  {
    hide Registry.Valid, Registry.HasKey, Knows;
    ghost var items := reg.Items();
    KnowsIsHasKey(reg, k);
    n := AddNode(reg, k);
    if n == null { return; }
    assert n !in items;
    if isLeader { n.isLeader := true; }
    MembersPush(items, n);
  }

  /** The table rebuild of `TryFindClusterThredSafe`; answers the leader's node. */
  method RebuildTable(reg: Registry, keys: seq<Key>, leaderIndex: int) returns (leader: RaftNode?)
    requires reg.Valid()
    modifies reg.list, reg.list.items`next, reg.hash, reg.hash.table, reg.hash.repr
    ensures reg.Valid()
    ensures MembersOf(reg.Items()) == Rebuilt(old(MembersOf(reg.Items())), keys, leaderIndex, |keys|)
    ensures leader != null <==> AddsLeader(old(MembersOf(reg.Items())), keys, leaderIndex, |keys|)
    ensures leader != null ==> leader in reg.Items() && leader.isLeader && leader.key == keys[leaderIndex]
  {
    hide Registry.Valid, MembersOf, Knows;
    leader := null;
    ghost var start, had := MembersOf(reg.Items()), reg.Items();
    for i := 0 to |keys|
      invariant reg.Valid() && reg.hash.table == old(reg.hash.table) && fresh(reg.hash.repr - old(reg.hash.repr))
      invariant had <= reg.Items() && forall j :: |had| <= j < |reg.Items()| ==> fresh(reg.Items()[j])
      invariant MembersOf(reg.Items()) == Rebuilt(start, keys, leaderIndex, i)
      invariant leader != null <==> AddsLeader(start, keys, leaderIndex, i)
      invariant leader != null ==> leader in reg.Items() && leader.isLeader && leader.key == keys[leaderIndex]
    {
      var node := AddSnapshotKey(reg, keys[i], i == leaderIndex);
      if node != null && i == leaderIndex { leader := node; }
    }
  }
}
