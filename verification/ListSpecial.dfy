/**
 `common::ListSpecial` of `include/common/impl.lists.hpp`: an intrusive doubly linked
 list of nodes.  `items` is the list the links spell out, forwards and backwards.
 */
module LinkedLists {
  import opened RaftNodes
  import opened Sequences

  ghost function At(s: seq<RaftNode>, i: int): RaftNode? {
    if 0 <= i < |s| then s[i] else null
  }

  ghost predicate Linked(s: seq<RaftNode>)
    reads s`prev, s`next
  {
    && (forall i {:trigger s[i].next} :: 0 <= i < |s| ==> s[i].next == At(s, i + 1))
    && (forall i {:trigger s[i].prev} :: 0 <= i < |s| ==> s[i].prev == At(s, i - 1))
  }

  ghost predicate Apart(a: seq<RaftNode>, b: seq<RaftNode>) {
    forall i :: 0 <= i < |a| ==> a[i] !in b
  }

  class ListSpecial {
    var first: RaftNode?
    var last: RaftNode?
    var count: int
    ghost var items: seq<RaftNode>
    /** numbers the items, so that none occurs twice */
    ghost var pos: map<RaftNode, nat>

    ghost predicate Valid()
      reads this, items`prev, items`next
    {
      && count == |items| && first == At(items, 0) && last == At(items, |items| - 1)
      && Numbered(items, pos) && Linked(items)
    }

    constructor ()
      ensures Valid() && items == []
    {
      first, last, count, items, pos := null, null, 0, [], map[];
    }

    /** The link writes of `AddDataRaw`. */
    method LinkLast(n: RaftNode)
      requires Valid() && n !in items
      modifies this`first, this`last, n`prev, n`next, items`next
      ensures Linked(items + [n]) && first == At(items + [n], 0) && last == n
    {
      assert forall i :: 0 <= i < |items| ==> items[i] != n;
      n.prev := last;
      n.next := null;
      if first == null { first := n; } else { last.next := n; }
      last := n;
      JoinStaysLinked(items, [n]);
    }

    method AddDataRaw(n: RaftNode)
      requires Valid() && n !in items
      modifies this, n`prev, n`next, items`next
      ensures Valid() && items == old(items) + [n]
    {
      LinkLast(n);
      hide Linked;
      count := count + 1;
      pos := pos[n := |items|];
      items := items + [n];
    }

    /** Takes the node out of the chain of links; its own links stay as they were. */
    method Unlink(n: RaftNode, ghost k: nat)
      requires Valid() && k < |items| && items[k] == n
      modifies items`prev, items`next
      ensures forall i {:trigger items[i].next} :: 0 <= i < |items| ==>
        items[i].next == if i == k - 1 then At(items, k + 1) else At(items, i + 1)
      ensures forall i {:trigger items[i].prev} :: 0 <= i < |items| ==>
        items[i].prev == if i == k + 1 then At(items, k - 1) else At(items, i - 1)
      ensures n.prev == old(n.prev) && n.next == old(n.next)
    {
      assert n.prev == At(items, k - 1) && n.next == At(items, k + 1);
      if n.prev != null {
        n.prev.next := n.next;
      }
      if n.next != null { n.next.prev := n.prev; }
    }

    lemma CutStaysLinked(k: nat)
      requires k < |items|
      requires forall i {:trigger items[i].next} :: 0 <= i < |items| ==>
        items[i].next == if i == k - 1 then At(items, k + 1) else At(items, i + 1)
      requires forall i {:trigger items[i].prev} :: 0 <= i < |items| ==>
        items[i].prev == if i == k + 1 then At(items, k - 1) else At(items, i - 1)
      ensures Linked(Cut(items, k))
    {
      var c := Cut(items, k);
      forall i | 0 <= i < |c| ensures c[i].next == At(c, i + 1) && c[i].prev == At(c, i - 1) {
        assert c[i] == items[if i < k then i else i + 1];
      }
    }

    /** Answers the successor of the removed node. */
    method RemoveDataRaw(n: RaftNode, ghost k: nat) returns (successor: RaftNode?)
      requires Valid() && k < |items| && items[k] == n
      modifies this, items`prev, items`next
      ensures Valid() && items == Cut(old(items), k)
      ensures successor == At(old(items), k + 1) && n.prev == old(n.prev) && n.next == old(n.next)
    {
      Unlink(n, k);
      CutStaysLinked(k);
      CutNumbered(items, pos, k);
      hide Linked, Renumbered;
      if n == first { first := n.next; }
      if n == last { last := n.prev; }
      count := count - 1;
      items, pos := Cut(items, k), Renumbered(items, pos, k);
      successor := n.next;
    }

    lemma JoinStaysLinked(a: seq<RaftNode>, b: seq<RaftNode>)
      requires forall i {:trigger a[i].next} :: 0 <= i < |a| ==> a[i].next == At(a + b, i + 1)
      requires forall i {:trigger a[i].prev} :: 0 <= i < |a| ==> a[i].prev == At(a, i - 1)
      requires forall i {:trigger b[i].next} :: 0 <= i < |b| ==> b[i].next == At(b, i + 1)
      requires forall i {:trigger b[i].prev} :: 0 <= i < |b| ==> b[i].prev == At(a + b, |a| + i - 1)
      ensures Linked(a + b)
    {
      var c := a + b;
      forall i | 0 <= i < |c| ensures c[i].next == At(c, i + 1) && c[i].prev == At(c, i - 1) {
        if i < |a| { assert c[i] == a[i]; } else { assert c[i] == b[i - |a|]; }
      }
    }

    /** The link writes of `MoveContentToOtherList`. */
    method Join(other: ListSpecial)
      requires Valid() && other.Valid() && other != this
      requires Apart(items, other.items)
      modifies other, items`prev, other.items`next
      ensures Linked(old(other.items) + items)
      ensures other.first == At(old(other.items) + items, 0)
      ensures other.last == At(old(other.items) + items, |old(other.items) + items| - 1)
      ensures other.count == old(other.count) && other.items == old(other.items) && other.pos == old(other.pos)
    {
      ghost var a, b := other.items, items;
      assert forall i :: 0 <= i < |b| ==> b[i] != other.last;
      assert forall i :: 0 <= i < |a| ==> a[i] != first;
      if other.last != null { other.last.next := first; } else { other.first := first; }
      if first != null { first.prev := other.last; other.last := last; }
      JoinStaysLinked(a, b);
    }

    /** What `MoveContentToOtherList` does to the other list. */
    method AppendTo(other: ListSpecial)
      requires Valid() && other.Valid() && other != this
      requires Apart(items, other.items)
      modifies other, items`prev, other.items`next
      ensures other.Valid() && other.items == old(other.items) + items
    {
      ghost var a, b := other.items, items;
      assert forall x :: x in b ==> x !in a;
      JoinNumbered(a, other.pos, b, pos);
      ghost var joined := Joined(a, other.pos, b, pos);
      hide Linked, Numbered, Apart, Joined;
      Join(other);
      other.count, other.items, other.pos := other.count + count, a + b, joined;
    }

    method MoveContentToOtherList(other: ListSpecial)
      requires Valid() && other.Valid() && other != this
      requires Apart(items, other.items)
      modifies this, other, items`prev, other.items`next
      ensures Valid() && other.Valid() && items == [] && other.items == old(other.items) + old(items)
    {
      AppendTo(other);
      assert Linked([]);
      hide Linked, Apart;
      first, last, count, items, pos := null, null, 0, [], map[];
    }

    method MoveItemToOtherList(other: ListSpecial, n: RaftNode, ghost k: nat)
      requires Valid() && other.Valid() && other != this && k < |items| && items[k] == n
      requires Apart(items, other.items)
      modifies this, other, items`prev, items`next, other.items`next
      ensures Valid() && other.Valid()
      ensures items == Cut(old(items), k) && other.items == old(other.items) + [n]
    {
      hide Linked, Numbered;
      ghost var a, b := items, other.items;
      CutLoses(a, pos, k);
      assert forall x :: x in b ==> x !in a;
      var _ := RemoveDataRaw(n, k);
      assert other.Valid();
      other.AddDataRaw(n);
    }
  }
}
