/**
 `common::listN::Fifo` over `common::List` of `include/common/impl.lists.hpp`: the queue
 that carries the worker jobs.  Elements are copied into doubly linked items that are
 allocated when added and deleted when extracted.
 */
module Fifos {
  import opened RaftTypes

  class ListItem<T> {
    var prev: ListItem?<T>
    var next: ListItem?<T>
    const data: T

    constructor (data: T)
      ensures this.data == data
    {
      this.data := data;
    }
  }

  ghost function At<T>(s: seq<ListItem<T>>, i: int): ListItem?<T> {
    if 0 <= i < |s| then s[i] else null
  }

  ghost predicate Linked<T>(s: seq<ListItem<T>>)
    reads s`prev, s`next
  {
    && (forall i {:trigger s[i].next} :: 0 <= i < |s| ==> s[i].next == At(s, i + 1))
    && (forall i {:trigger s[i].prev} :: 0 <= i < |s| ==> s[i].prev == At(s, i - 1))
  }

  /** `pos` numbers the items upwards from `base`, so none occurs twice. */
  ghost predicate Numbered<T>(s: seq<ListItem<T>>, pos: map<ListItem<T>, int>, base: int) {
    forall i :: 0 <= i < |s| ==> s[i] in pos && pos[s[i]] == base + i
  }

  ghost function DataOf<T>(s: seq<ListItem<T>>): (r: seq<T>)
    ensures |r| == |s| && forall i :: 0 <= i < |s| ==> r[i] == s[i].data
  {
    seq(|s|, i requires 0 <= i < |s| => s[i].data)
  }

  class Fifo<T> {
    var first: ListItem?<T>
    var last: ListItem?<T>
    var count: int
    ghost var items: seq<ListItem<T>>
    ghost var pos: map<ListItem<T>, int>
    ghost var base: int
    /** items allocated and not yet deleted */
    ghost var live: set<ListItem<T>>

    ghost predicate Valid()
      reads this, items`prev, items`next
    {
      && count == |items| && first == At(items, 0) && last == At(items, |items| - 1)
      && Numbered(items, pos, base) && Linked(items)
      && (forall x :: x in live ==> x in items) && (forall i :: 0 <= i < |items| ==> items[i] in live)
    }

    /** The elements, oldest first. */
    ghost function Contents(): seq<T>
      reads this
    {
      DataOf(items)
    }

    constructor ()
      ensures Valid() && Contents() == []
    {
      first, last, count, items, pos, base, live := null, null, 0, [], map[], 0, {};
    }

    /** `AddDataRaw` on a new item. */
    method LinkLast(n: ListItem<T>)
      requires Valid() && n !in items
      modifies this`first, this`last, n`prev, n`next, items`next
      ensures Linked(items + [n]) && first == At(items + [n], 0) && last == n
    {
      n.prev := last;
      n.next := null;
      if first == null { first := n; } else { last.next := n; }
      last := n;
      ghost var c := items + [n];
      forall i | 0 <= i < |c| ensures c[i].next == At(c, i + 1) && c[i].prev == At(c, i - 1) {
        if i < |items| { assert c[i] == items[i]; }
      }
    }

    method Append(n: ListItem<T>)
      requires Valid() && n !in live
      modifies this, n`prev, n`next, items`next
      ensures Valid() && items == old(items) + [n] && live == old(live) + {n}
    {
      LinkLast(n);
      hide Linked;
      count := count + 1;
      pos, items, live := pos[n := base + |items|], items + [n], live + {n};
    }

    /** `AddElement`. */
    method AddElement(d: T)
      requires Valid()
      modifies this, items`next
      ensures Valid() && Contents() == old(Contents()) + [d]
      ensures forall x :: x in live && x !in old(live) ==> fresh(x)
    {
      hide Linked, Numbered;
      var n := new ListItem<T>(d);
      Append(n);
    }

    /** `RemoveDataRaw` on the first item. */
    method UnlinkFirst()
      requires Valid() && items != []
      modifies this`first, this`last, items`prev, items`next
      ensures Linked(items[1..]) && first == At(items[1..], 0) && last == At(items[1..], |items| - 2)
    {
      var n := first;
      assert n == items[0] && n.prev == null && n.next == At(items, 1);
      if n.next != null { n.next.prev := n.prev; }
      first := n.next;
      if n == last { last := n.prev; }
      ghost var c := items[1..];
      forall i | 0 <= i < |c| ensures c[i].next == At(c, i + 1) && c[i].prev == At(c, i - 1) {
        assert c[i] == items[i + 1];
      }
    }

    /** The first item leaves the list and is deleted. */
    method RemoveFirst()
      requires Valid() && items != []
      modifies this, items`prev, items`next
      ensures Valid() && items == old(items)[1..] && live == old(live) - {old(items)[0]}
    {
      UnlinkFirst();
      hide Linked;
      count := count - 1;
      assert forall i :: 1 <= i < |items| ==> items[i] != items[0];
      live := live - {items[0]};
      items, base := items[1..], base + 1;
    }

    /** `Extract`: the oldest element, exactly when there is one. */
    method Extract() returns (r: Option<T>)
      requires Valid()
      modifies this, items`prev, items`next
      ensures Valid() && live <= old(live)
      ensures r.None? <==> old(Contents()) == []
      ensures old(Contents()) == (if r.Some? then [r.value] else []) + Contents()
    {
      if count == 0 { return None; }
      r := Some(first.data);
      RemoveFirst();
    }

    /** `clear`, which the destructor runs: every live item is deleted. */
    method Clear()
      requires Valid()
      modifies this, items`prev, items`next
      ensures Valid() && Contents() == [] && live == {}
    {
      hide Linked, Numbered;
      while first != null
        invariant Valid() && forall i :: 0 <= i < |items| ==> items[i] in old(items)
        decreases |items|
      {
        RemoveFirst();
      }
      assert live == {};
    }
  }
}
