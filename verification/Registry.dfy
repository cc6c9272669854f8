/**
 `common::ListspecialAndHashtbl` of `include/common/impl.listspecialandhashtbl.hpp`:
 the members of a cluster in one linked list and one hash table that always describe
 the same nodes.
 */
module Registries {
  import opened RaftTypes
  import opened RaftNodes
  import opened Sequences
  import LinkedLists
  import HashTables
  import opened TableSize

  class Registry {
    const list: LinkedLists.ListSpecial
    const hash: HashTables.HashTbl<RaftNode>

    /** The nodes in list order. */
    ghost function Items(): seq<RaftNode>
      reads list
    {
      list.items
    }

    /** Each of the nodes is the one entry under its key, the entry in whose buffer its key
        lies, and nothing else is stored, keys in `skip` aside. */
    ghost predicate AgreesOn(items: seq<RaftNode>, skip: set<Key>)
      requires hash.Sized()
      reads hash, items`key, items`keyOwner
    {
      && (forall i :: 0 <= i < |items| && items[i].key !in skip ==>
            && items[i].keyOwner != null && items[i].keyOwner.data == items[i]
            && hash.Entries(items[i].key) == [items[i].keyOwner])
      && (forall k :: k !in skip && hash.Entries(k) != [] ==>
            hash.Entries(k)[0].data in items && hash.Entries(k)[0].data.key == k)
    }

    ghost predicate Agrees()
      requires hash.Sized()
      reads list, hash, list.items`key, list.items`keyOwner
    {
      AgreesOn(list.items, {})
    }

    ghost predicate Valid()
      reads this, list, list.items`prev, list.items`next, list.items`key, list.items`keyOwner
      reads hash, hash.table, hash.repr
    {
      list.Valid() && hash.Valid() && Agrees()
    }

    ghost predicate HasKey(k: Key)
      reads list, list.items`key
    {
      exists i :: 0 <= i < |list.items| && list.items[i].key == k
    }

    lemma KeyIsStored(k: Key)
      requires hash.Sized() && Agrees()
      ensures HasKey(k) <==> hash.Entries(k) != []
    {
      if hash.Entries(k) != [] {
        var i :| 0 <= i < |list.items| && list.items[i] == hash.Entries(k)[0].data;
        assert list.items[i].key == k;
      }
    }

    /** The key of a listed node lies in a buffer that is not freed. */
    lemma KeysAreReadable(i: nat)
      requires Valid() && i < |list.items|
      ensures var n := list.items[i]; n.keyOwner != null && !n.keyOwner.freed && n.keyOwner.key == n.key
    {
      hash.EntriesAreLive(list.items[i].key);
      assert list.items[i].keyOwner in hash.Entries(list.items[i].key);
    }

    /** No two listed nodes have the same key. */
    lemma KeysDistinct(i: nat, j: nat)
      requires Valid() && i < |list.items| && j < |list.items| && list.items[i].key == list.items[j].key
      ensures i == j
    {
      assert [list.items[i].keyOwner] == hash.Entries(list.items[i].key) == [list.items[j].keyOwner];
      assert [list.items[i].keyOwner][0] == [list.items[j].keyOwner][0];
      assert list.pos[list.items[i]] == i && list.pos[list.items[j]] == j;
    }

    constructor (hashFn: Key -> nat)
      ensures Valid() && Items() == [] && fresh(list) && fresh(hash) && fresh(hash.table) && hash.repr == {}
      ensures IsLeastPow2(hash.table.Length, DEFAULT_TABLE_SIZE)
    {
      list := new LinkedLists.ListSpecial();
      hash := new HashTables.HashTbl<RaftNode>(hashFn, DEFAULT_TABLE_SIZE);
    }

    /** Finds a node exactly when it is listed with the key. */
    method FindEntry(k: Key) returns (r: Option<RaftNode>)
      requires Valid()
      ensures r.Some? ==> r.value in Items() && r.value.key == k
      ensures r.None? <==> !HasKey(k)
    {
      r := hash.FindEntry(k);
      KeyIsStored(k);
    }

    method AddData(n: RaftNode, k: Key) returns (added: bool)
      requires Valid() && n !in Items()
      modifies list, list.items`next, n`prev, n`next, n`key, n`keyOwner, hash, hash.table, hash.repr
      ensures Valid() && hash.table == old(hash.table)
      ensures fresh(hash.repr - old(hash.repr)) && old(hash.repr) <= hash.repr
      ensures added <==> !old(HasKey(k))
      ensures Items() == if added then old(Items()) + [n] else old(Items())
      ensures added ==> n.key == k
      ensures !added ==> unchanged(n)
    {
      hide LinkedLists.ListSpecial.Valid, HashTables.HashTbl.Valid, HashTables.HashTbl.Sized, Agrees;
      var found := FindEntry(k);
      if found.Some? { return false; }
      Insert(n, k);
      added := true;
    }

    /** Files a node under a key; the table goes on agreeing with the nodes it had if the
        key was not stored and the node is a further one. */
    method EnterKey(n: RaftNode, k: Key, ghost items: seq<RaftNode>)
      requires hash.Valid()
      modifies n`key, n`keyOwner, hash, hash.table, hash.repr
      ensures hash.Valid() && hash.table == old(hash.table) && n.key == k && n.keyOwner != null && n.keyOwner.data == n
      ensures fresh(n.keyOwner) && hash.repr == old(hash.repr) + {n.keyOwner}
      ensures old(AgreesOn(items, {}) && n !in items && hash.Entries(k) == []) ==>
        AgreesOn(items, {k}) && hash.Entries(k) == [n.keyOwner]
    {
      hide HashTables.HashTbl.Valid, HashTables.HashTbl.Sized, HashTables.HashTbl.Entries;
      n.key, n.keyOwner := hash.AddEntry2(k, n);
      if old(AgreesOn(items, {})) && n !in items && old(hash.Entries(k)) == [] {
        assert forall i :: 0 <= i < |items| ==>
            items[i] != n && items[i].key == old(items[i].key) && items[i].keyOwner == old(items[i].keyOwner);
      }
    }

    /** What `AddData` does once the key is known to be new. */
    method Insert(n: RaftNode, k: Key)
      requires Valid() && n !in Items() && !HasKey(k)
      modifies list, list.items`next, n`prev, n`next, n`key, n`keyOwner, hash, hash.table, hash.repr
      ensures Valid() && hash.table == old(hash.table)
      ensures fresh(hash.repr - old(hash.repr)) && old(hash.repr) <= hash.repr
      ensures Items() == old(Items()) + [n] && n.key == k
    {
      hide LinkedLists.ListSpecial.Valid, HashTables.HashTbl.Valid, HashTables.HashTbl.Sized;
      hide HashTables.HashTbl.Entries, AgreesOn, HasKey;
      ghost var was := list.items;
      KeyIsStored(k);
      NotAmong(k);
      list.AddDataRaw(n);
      EnterKey(n, k, was);
      AgreementGrows(was, n, k);
    }

    /** Takes the node filed under a key, if any, out of the table; the buffer that its
        key lay in is gone. */
    method ForgetKey(k: Key, ghost items: seq<RaftNode>) returns (removed: Option<RaftNode>)
      requires hash.Valid() && AgreesOn(items, {k}) && |hash.Entries(k)| <= 1
      modifies hash, hash.table, hash.repr
      ensures hash.Valid() && hash.table == old(hash.table) && hash.repr == old(hash.repr)
      ensures AgreesOn(items, {k}) && hash.Entries(k) == []
      ensures removed == if old(hash.Entries(k)) == [] then None else Some(old(hash.Entries(k))[0].data)
      ensures removed.Some? ==> old(hash.Entries(k))[0].freed
    {
      hide HashTables.HashTbl.Valid, HashTables.HashTbl.Sized, HashTables.HashTbl.Entries;
      removed := hash.RemoveEntry2(k);
      assert old(AgreesOn(items, {k}));
    }

    lemma StoredOnce(k: Key, items: seq<RaftNode>)
      requires hash.Sized() && AgreesOn(items, {})
      ensures |hash.Entries(k)| <= 1 && AgreesOn(items, {k})
    {
      if hash.Entries(k) != [] {
        var i :| 0 <= i < |items| && items[i] == hash.Entries(k)[0].data;
        assert hash.Entries(items[i].key) == [items[i].keyOwner];
      }
    }

    lemma NotAmong(k: Key)
      requires !HasKey(k)
      ensures forall i :: 0 <= i < |list.items| ==> list.items[i].key != k
    {
    }

    lemma AgreementGrows(items: seq<RaftNode>, n: RaftNode, k: Key)
      requires hash.Sized() && AgreesOn(items, {k}) && n.key == k
      requires n.keyOwner != null && n.keyOwner.data == n && hash.Entries(k) == [n.keyOwner]
      requires forall i :: 0 <= i < |items| ==> items[i].key != k
      ensures AgreesOn(items + [n], {})
    {
    }

    lemma AgreementShrinks(items: seq<RaftNode>, pos: map<RaftNode, nat>, i: nat)
      requires hash.Sized() && i < |items| && Numbered(items, pos) && AgreesOn(items, {items[i].key})
      requires hash.Entries(items[i].key) == []
      requires forall j :: 0 <= j < |items| && j != i ==> items[j].key != items[i].key
      ensures AgreesOn(Cut(items, i), {})
    {
      var c := Cut(items, i);
      CutLoses(items, pos, i);
      forall j | 0 <= j < |c|
        ensures c[j].keyOwner != null && c[j].keyOwner.data == c[j] && hash.Entries(c[j].key) == [c[j].keyOwner]
      {
        assert c[j] == items[if j < i then j else j + 1];
      }
    }

    lemma OthersHaveOtherKeys(i: nat)
      requires Valid() && i < |list.items|
      ensures Numbered(list.items, list.pos)
      ensures forall j :: 0 <= j < |list.items| && j != i ==> list.items[j].key != list.items[i].key
    {
      forall j | 0 <= j < |list.items| && j != i ensures list.items[j].key != list.items[i].key {
        if list.items[j].key == list.items[i].key { KeysDistinct(j, i); }
      }
    }

    /** The node's key does not lie in a freed buffer. */
    predicate Readable(n: RaftNode)
      reads n, n.keyOwner
    {
      n.keyOwner == null || !n.keyOwner.freed
    }

    /** `RemoveData` by node.  It is defined exactly if the key of the node can be read, which
        it cannot once the node was removed.  A listed node goes, its key with it, and its
        successor is answered; a node that is not listed, and whose key is nobody's, changes
        nothing.  Otherwise the member that has the key loses its entry while it stays listed,
        and the source goes on to unlink a node from no list. */
    method RemoveData(n: RaftNode, ghost i: nat) returns (successor: RaftNode?, defined: bool)
      requires Valid()
      requires n in Items() ==> i < |Items()| && Items()[i] == n
      modifies list, list.items`prev, list.items`next, hash, hash.table, hash.repr
      ensures defined <==> old(Readable(n))
      ensures defined ==> (Valid() <==> old(n in Items() || !HasKey(n.key)))
      ensures hash.table == old(hash.table) && hash.repr == old(hash.repr)
      ensures n in old(Items()) ==>
        && defined && Items() == Cut(old(Items()), i) && successor == LinkedLists.At(old(Items()), i + 1)
        && n.keyOwner != null && n.keyOwner.freed
      ensures n !in old(Items()) ==> Items() == old(Items()) && successor == null
    {
      hide LinkedLists.ListSpecial.Valid, HashTables.HashTbl.Valid, HashTables.HashTbl.Sized;
      hide HashTables.HashTbl.Entries, AgreesOn, HasKey;
      if n in Items() { KeysAreReadable(i); }
      if n.keyOwner != null && n.keyOwner.freed { return null, false; }
      ghost var was, pos := list.items, list.pos;
      KeyIsStored(n.key);
      if n in was {
        OthersHaveOtherKeys(i);
        StoredUnder(i);
      } else if !HasKey(n.key) {
        NotAmong(n.key);
      }
      StoredIsListed(n.key);
      StoredOnce(n.key, was);
      var removed := ForgetKey(n.key, was);
      defined := true;
      if removed.None? {
        AgreementStays(was, n.key);
        return null, true;
      }
      if removed.value != n {
        NotStored(removed.value);
        return null, true;
      }
      AgreementShrinks(was, pos, i);
      successor := list.RemoveDataRaw(n, i);
    }

    lemma StoredIsListed(k: Key)
      requires hash.Sized() && Agrees()
      ensures hash.Entries(k) != [] ==> hash.Entries(k)[0].data in list.items && hash.Entries(k)[0].data.key == k
    {
    }

    lemma NotStored(m: RaftNode)
      requires hash.Sized() && m in list.items && hash.Entries(m.key) == []
      ensures !Valid()
    {
    }

    lemma AgreementStays(items: seq<RaftNode>, k: Key)
      requires hash.Sized() && AgreesOn(items, {k}) && hash.Entries(k) == []
      requires forall i :: 0 <= i < |items| ==> items[i].key != k
      ensures AgreesOn(items, {})
    {
    }

    /** `RemoveData` by key: the node listed with the key, if there is one, goes. */
    method RemoveDataByKey(k: Key) returns (successor: RaftNode?, ghost i: nat)
      requires Valid()
      modifies list, list.items`prev, list.items`next, hash, hash.table, hash.repr
      ensures Valid() && hash.table == old(hash.table) && hash.repr == old(hash.repr)
      ensures old(HasKey(k)) ==>
        && i < |old(Items())| && old(Items()[i].key) == k
        && Items() == Cut(old(Items()), i) && successor == LinkedLists.At(old(Items()), i + 1)
      ensures !old(HasKey(k)) ==> Items() == old(Items()) && successor == null
    {
      hide LinkedLists.ListSpecial.Valid, HashTables.HashTbl.Valid, HashTables.HashTbl.Sized;
      hide HashTables.HashTbl.Entries, AgreesOn, HasKey;
      ghost var was, pos := list.items, list.pos;
      KeyIsStored(k);
      i := PositionOf(k);
      if i < |was| {
        OthersHaveOtherKeys(i);
        StoredUnder(i);
      }
      StoredOnce(k, was);
      var removed := ForgetKey(k, was);
      if removed.None? {
        AgreementStays(was, k);
        return null, i;
      }
      AgreementShrinks(was, pos, i);
      successor := list.RemoveDataRaw(removed.value, i);
    }

    lemma StoredUnder(i: nat)
      requires hash.Sized() && Agrees() && i < |list.items|
      ensures var n := list.items[i]; n.keyOwner != null && n.keyOwner.data == n && hash.Entries(n.key) == [n.keyOwner]
    {
    }

    // --- two registries ------------------------------------------------------------------------

    ghost predicate Apart(other: Registry)
      reads this, other, list, other.list, hash, other.hash
    {
      && list != other.list && hash != other.hash && hash.table != other.hash.table
      && hash.repr !! other.hash.repr && LinkedLists.Apart(list.items, other.list.items)
    }

    /** The hash half of `MoveItemToOtherList`. */
    method MoveEntry(other: Registry, n: RaftNode, ghost i: nat)
      requires Valid() && other.Valid() && Apart(other) && i < |Items()| && Items()[i] == n
      modifies n`key, n`keyOwner, hash, hash.table, hash.repr, other.hash, other.hash.table, other.hash.repr
      ensures list.Valid() && other.list.Valid() && hash.Valid() && other.hash.Valid() && n.key == old(n.key)
      ensures hash.table == old(hash.table) && other.hash.table == old(other.hash.table)
      ensures hash.repr == old(hash.repr) && fresh(other.hash.repr - old(other.hash.repr))
      ensures AgreesOn(Cut(Items(), i), {})
      ensures !old(other.HasKey(n.key)) ==> other.AgreesOn(other.Items() + [n], {})
    {
      hide LinkedLists.ListSpecial.Valid, HashTables.HashTbl.Valid, HashTables.HashTbl.Sized;
      hide HashTables.HashTbl.Entries, AgreesOn, HasKey;
      OthersHaveOtherKeys(i);
      other.KeyIsStored(n.key);
      ghost var had := other.PositionOf(n.key) < |other.list.items|;
      var oldKey := n.key;
      StoredOnce(oldKey, list.items);
      other.EnterKey(n, oldKey, other.list.items);
      assert AgreesOn(list.items, {oldKey}) by { OthersStillAgree((list.items, oldKey)); }
      var _ := ForgetKey(oldKey, list.items);
      AgreementShrinks(list.items, list.pos, i);
      if !had { other.AgreementGrows(other.list.items, n, oldKey); }
    }

    /** Refiling nodes of one key elsewhere leaves the agreement about the others. */
    twostate lemma OthersStillAgree(about: (seq<RaftNode>, Key))
      requires unchanged(hash) && old(hash.Sized()) && old(AgreesOn(about.0, {about.1}))
      requires forall i :: 0 <= i < |about.0| ==> var n := about.0[i];
        n.key == old(n.key) && (n.key != about.1 ==> n.keyOwner == old(n.keyOwner))
      ensures AgreesOn(about.0, {about.1})
    {
    }

    /** Moves one node; the registry it goes to stays sound exactly when it did not have
        the key. */
    method MoveItemToOtherList(other: Registry, n: RaftNode, ghost i: nat)
      requires Valid() && other.Valid() && Apart(other) && i < |Items()| && Items()[i] == n
      modifies list, other.list, list.items`prev, list.items`next, other.list.items`next, n`key, n`keyOwner
      modifies hash, hash.table, hash.repr, other.hash, other.hash.table, other.hash.repr
      ensures Valid() && Apart(other) && n.key == old(n.key)
      ensures other.Valid() <==> !old(other.HasKey(n.key))
      ensures Items() == Cut(old(Items()), i) && other.Items() == old(other.Items()) + [n]
    {
      hide LinkedLists.ListSpecial.Valid, HashTables.HashTbl.Valid, HashTables.HashTbl.Sized;
      hide HashTables.HashTbl.Entries;
      hide AgreesOn, LinkedLists.Apart, HasKey;
      ghost var a, pos, b := list.items, list.pos, other.list.items;
      OthersHaveOtherKeys(i);
      ghost var j := other.PositionOf(n.key);
      MoveEntry(other, n, i);
      list.MoveItemToOtherList(other.list, n, i);
      ApartAfterMove(a, pos, b, i);
      if j < |b| { other.NoKeyTwiceInValid(j, |b|); }
    }

    /** Where a key is listed, or the length of the list. */
    ghost function PositionOf(k: Key): (j: nat)
      reads list, list.items`key
      ensures if HasKey(k) then j < |list.items| && list.items[j].key == k
        else j == |list.items| && forall i :: 0 <= i < |list.items| ==> list.items[i].key != k
    {
      if HasKey(k) then
        var j :| 0 <= j < |list.items| && list.items[j].key == k;
        j
      else |list.items|
    }

    lemma NoKeyTwiceInValid(i: nat, j: nat)
      requires i < j < |list.items| && list.items[i].key == list.items[j].key
      ensures !Valid()
    {
      if Valid() { KeysDistinct(i, j); }
    }

    static lemma ApartAfterMove(a: seq<RaftNode>, pos: map<RaftNode, nat>, b: seq<RaftNode>, i: nat)
      requires Numbered(a, pos) && LinkedLists.Apart(a, b) && i < |a|
      ensures LinkedLists.Apart(Cut(a, i), b + [a[i]])
    {
      CutLoses(a, pos, i);
      assert forall x :: x in Cut(a, i) ==> x in a && x != a[i];
    }

    /** Moves everything behind what another registry has, in order; false when a key is read
        from a freed buffer, after which nothing is defined.  That happens exactly when both
        registries have members: the loop over the entries first deletes the entry that owns
        a member's key and then files the member under that key. */
    method MoveContentToOtherList(other: Registry) returns (defined: bool)
      requires Valid() && other.Valid() && Apart(other)
      modifies list, other.list, list.items`prev, other.list.items`next
      modifies hash, hash.table, hash.repr, other.hash
      ensures defined <==> old(Items() == [] || other.Items() == [])
      ensures defined ==> Valid() && other.Valid() && Apart(other)
      ensures defined ==> Items() == [] && other.Items() == old(other.Items()) + old(Items())
      ensures !defined ==> old(Items())[0].keyOwner != null && old(Items())[0].keyOwner.freed
    {
      hide LinkedLists.ListSpecial.Valid, HashTables.HashTbl.Valid, HashTables.HashTbl.Sized;
      hide HashTables.HashTbl.Entries;
      hide AgreesOn, LinkedLists.Apart;
      ghost var a, b := list.items, other.list.items;
      other.CountIsLength();
      StartsAtFirst();
      if other.list.count == 0 {
        assert b + a == a;
        MoveTable(other);
      } else {
        var item := list.first;
        if item != null {
          Release(item);
          return false;
        }
        assert b + a == b;
      }
      list.MoveContentToOtherList(other.list);
      NothingIsApart(b + a);
      defined := true;
    }

    static lemma NothingIsApart(b: seq<RaftNode>)
      ensures LinkedLists.Apart([], b)
    {
    }

    /** The first statement of the loop over the entries. */
    method Release(item: RaftNode)
      requires Valid() && Items() != [] && item == Items()[0]
      modifies hash, hash.table, hash.repr
      ensures item.keyOwner != null && item.keyOwner.freed
    {
      hide LinkedLists.ListSpecial.Valid, HashTables.HashTbl.Valid, HashTables.HashTbl.Sized;
      hide HashTables.HashTbl.Entries;
      StoredUnder(0);
      StoredOnce(item.key, list.items);
      var _ := ForgetKey(item.key, list.items);
    }

    lemma CountIsLength()
      requires list.Valid()
      ensures list.count == |list.items|
    {
    }

    /** The hash half, when the other registry is empty: the whole table changes hands. */
    method MoveTable(other: Registry)
      requires Valid() && other.Valid() && Apart(other) && other.Items() == []
      modifies hash, other.hash
      ensures hash.Valid() && other.hash.Valid() && AgreesOn([], {}) && other.AgreesOn(Items(), {})
      ensures hash.table == old(other.hash.table) && other.hash.table == old(hash.table)
      ensures hash.repr == old(other.hash.repr) && other.hash.repr == old(hash.repr)
    {
      hide LinkedLists.ListSpecial.Valid, HashTables.HashTbl.Valid, HashTables.HashTbl.Sized;
      hide HashTables.HashTbl.Entries;
      ghost var a := list.items;
      other.NothingStored();
      hash.MoveContentToEmptyHash(other.hash);
      assert other.AgreesOn(a, {}) by { assert old(AgreesOn(a, {})); }
    }

    lemma NothingStored()
      requires Valid() && list.items == []
      ensures hash.Empty()
    {
      forall b | 0 <= b < |hash.chains| ensures hash.chains[b] == [] {
        hash.HeadIsStored(b);
      }
    }

    lemma StartsAtFirst()
      requires Valid()
      ensures list.first == LinkedLists.At(list.items, 0)
    {
    }
  }
}
