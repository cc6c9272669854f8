/**
 `common::FifoFast_base` of `include/common/impl.common_fifofast.hpp`: a bounded queue
 whose entries come from a stock of spare ones and go back to it; only when the stock is
 empty, or full, are entries allocated and deleted.
 */
module FifoFasts {

  class Entry<T(0)> {
    var next: Entry?<T>
    var value: T

    constructor ()
      ensures next == null
    {
      next := null;
    }
  }

  /** Where an entry is: number `i` ever queued, or in a slot of the stock. */
  datatype Place = Queued(i: int) | Spare(slot: nat)

  ghost function At<T(0)>(s: seq<Entry<T>>, i: int): Entry?<T> {
    if 0 <= i < |s| then s[i] else null
  }

  ghost function ValuesOf<T(0)>(s: seq<Entry<T>>): (r: seq<T>)
    reads s`value
    ensures |r| == |s|
  {
    if s == [] then [] else ValuesOf(s[..|s| - 1]) + [s[|s| - 1].value]
  }

  lemma {:induction false} ValuesAt<T(0)>(s: seq<Entry<T>>)
    ensures forall i :: 0 <= i < |s| ==> ValuesOf(s)[i] == s[i].value
  {
    if s != [] { ValuesAt(s[..|s| - 1]); }
  }

  lemma ValuesPush<T(0)>(s: seq<Entry<T>>, e: Entry<T>)
    ensures ValuesOf(s + [e]) == ValuesOf(s) + [e.value]
  {
    assert (s + [e])[..|s|] == s;
  }

  lemma ValuesPop<T(0)>(s: seq<Entry<T>>)
    requires s != []
    ensures ValuesOf(s) == [s[0].value] + ValuesOf(s[1..])
  {
    ValuesAt(s);
    ValuesAt(s[1..]);
  }

  class FifoFast<T(0)> {
    const maxSize: int
    const stock: array<Entry?<T>>
    var spares: nat
    var count: nat
    var first: Entry?<T>
    var last: Entry?<T>
    ghost var queue: seq<Entry<T>>
    ghost var base: int
    ghost var place: map<Entry<T>, Place>
    /** entries allocated and not yet deleted */
    ghost var live: set<Entry<T>>

    ghost predicate Linked(first: Entry?<T>, queue: seq<Entry<T>>)
      reads this`last, queue`next
    {
      && first == At(queue, 0) && (queue != [] ==> last == queue[|queue| - 1])
      && forall i {:trigger queue[i].next} :: 0 <= i < |queue| ==> queue[i].next == At(queue, i + 1)
    }

    /** Every live entry is in exactly one place, queued or spare, and none is lost. */
    ghost predicate Placed(queue: seq<Entry<T>>, base: int)
      reads this`spares, this`place, this`live, stock
    {
      && spares <= stock.Length && live == place.Keys
      && (forall i :: 0 <= i < |queue| ==> queue[i] in place && place[queue[i]] == Queued(base + i))
      && (forall i :: 0 <= i < spares ==> stock[i] != null && stock[i] in place && place[stock[i]] == Spare(i))
      && (forall x :: x in place ==>
            match place[x]
            case Queued(i) => 0 <= i - base < |queue| && queue[i - base] == x
            case Spare(i) => i < spares && stock[i] == x)
    }

    ghost predicate Valid()
      reads this, stock, queue`next
    {
      && count == |queue| && (count == 0 || count <= maxSize)
      && spares == (if count < stock.Length then stock.Length - count else 0)
      && Linked(first, queue) && Placed(queue, base)
    }

    ghost function Contents(): seq<T>
      reads this, queue`value
    {
      ValuesOf(queue)
    }

    method New() returns (e: Entry<T>)
      modifies this`live
      ensures fresh(e) && live == old(live) + {e}
    {
      e := new Entry<T>();
      live := live + {e};
    }

    /** Only a live entry may be deleted. */
    method Delete(e: Entry<T>)
      requires e in live
      modifies this`live
      ensures live == old(live) - {e}
    {
      live := live - {e};
    }

    constructor (maxSize: int, stockSize: nat)
      ensures Valid() && Contents() == [] && this.maxSize == maxSize && stock.Length == stockSize && fresh(stock)
    {
      this.maxSize, spares, count := maxSize, stockSize, 0;
      first, last, queue, base, place, live := null, null, [], 0, map[], {};
      stock := new Entry?<T>[stockSize];
      new;
      for i := 0 to stockSize
        invariant live == place.Keys
        invariant forall j :: 0 <= j < i ==> stock[j] != null && stock[j] in place && place[stock[j]] == Spare(j)
        invariant forall x :: x in place ==> place[x].Spare? && place[x].slot < i && stock[place[x].slot] == x
        invariant count == 0 && spares == stockSize && queue == [] && first == null
      {
        var e := New();
        stock[i], place := e, place[e := Spare(i)];
      }
    }

    /** The entry an element is stored in: the topmost spare, or a new one. */
    method TakeEntry() returns (e: Entry<T>)
      requires Valid()
      modifies this`spares, this`place, this`live
      ensures e !in queue && (e in old(live) || fresh(e)) && live == old(live) + {e}
      ensures spares == (if count + 1 < stock.Length then stock.Length - count - 1 else 0)
      ensures Placed(queue + [e], base)
    {
      hide Linked;
      if spares != 0 {
        spares := spares - 1;
        e := stock[spares];
      } else {
        e := New();
      }
      place := place[e := Queued(base + |queue|)];
    }

    method LinkLast(e: Entry<T>)
      requires count == |queue| && Linked(first, queue) && e !in queue && e.next == null
      requires forall i :: 0 <= i < |queue| - 1 ==> queue[i] != queue[|queue| - 1]
      modifies this`first, this`last, queue`next
      ensures Linked(first, queue + [e])
    {
      if count == 0 { first := e; last := e; }
      else { last.next := e; last := e; }
    }

    /** `AddElement1`. */
    method AddElement(v: T) returns (added: bool)
      requires Valid()
      modifies this`spares, this`count, this`first, this`last, this`queue, this`place, this`live, live
      ensures Valid()
      ensures added <==> old(count) < maxSize
      ensures Contents() == if added then old(Contents()) + [v] else old(Contents())
      ensures forall x :: x in live && x !in old(live) ==> fresh(x)
    {
      hide Linked, ValuesOf, Placed;
      if count >= maxSize { return false; }
      QueueIsLive();
      ghost var q := queue;
      var e := TakeEntry();
      e.value, e.next := v, null;
      LinkLast(e);
      count := count + 1;
      queue := q + [e];
      ValuesPush(q, e);
      added := true;
    }

    lemma QueueIsLive()
      requires Valid()
      ensures forall x :: x in queue ==> x in live
      ensures forall i :: 0 <= i < |queue| - 1 ==> queue[i] != queue[|queue| - 1]
    {
    }

    /** Where the front entry goes: into the stock if the queue fits there. */
    method ReturnEntry(e: Entry<T>)
      requires Valid() && count > 0 && e == queue[0]
      modifies this`spares, this`place, this`live, stock
      ensures live <= old(live) && Placed(queue[1..], base + 1)
      ensures spares == if count <= stock.Length then stock.Length - count + 1 else 0
    {
      hide Linked;
      if count <= stock.Length {
        stock[spares] := e;
        place := place[e := Spare(spares)];
        spares := spares + 1;
      } else {
        Delete(e);
        place := place - {e};
      }
    }

    lemma TailLinked()
      requires Linked(first, queue) && queue != []
      ensures first == queue[0] && Linked(first.next, queue[1..])
    {
    }

    /** `Extract`. */
    method Extract() returns (v: T, found: bool)
      requires Valid()
      modifies this`spares, this`count, this`first, this`queue, this`base, this`place, this`live, stock
      ensures Valid() && live <= old(live)
      ensures found <==> old(Contents()) != []
      ensures old(Contents()) == (if found then [v] else []) + Contents()
    {
      hide Placed, ValuesOf;
      if count == 0 { v := *; return v, false; }
      TailLinked();
      hide Linked;
      ghost var q := queue;
      ValuesPop(q);
      v := first.value;
      ReturnEntry(first);
      first := first.next;
      count := count - 1;
      queue, base := q[1..], base + 1;
      found := true;
    }

    /** The destructor deletes every live entry, each once. */
    method Destroy()
      requires Valid()
      modifies this`first, this`live
      ensures live == {}
    {
      for i := 0 to spares
        invariant live == set x | x in place && !(place[x].Spare? && place[x].slot < i)
        invariant first == At(queue, 0)
      {
        Delete(stock[i]);
      }
      ghost var k := 0;
      while first != null
        invariant 0 <= k <= |queue| && first == At(queue, k)
        invariant live == set x | x in place && place[x].Queued? && place[x].i >= base + k
        decreases |queue| - k
      {
        var next := first.next;
        Delete(first);
        first := next;
        k := k + 1;
      }
    }

    /** The entries held are as many as the larger of the stock and the queue. */
    lemma MemoryHeld()
      requires Valid()
      ensures |live| == if count < stock.Length then stock.Length else count
    {
      var spare := stock[..spares];
      var all := spare + queue;
      forall i, j | 0 <= i < j < |all| ensures all[i] != all[j] {
        assert forall m :: 0 <= m < |all| ==>
            all[m] in place && place[all[m]] == if m < spares then Spare(m) else Queued(base + m - spares);
      }
      forall x | x in live ensures x in all {
        if place[x].Spare? { assert all[place[x].slot] == x; } else { assert all[spares + (place[x].i - base)] == x; }
      }
      assert live == set x | x in all;
      Distinct(all);
    }
  }

  lemma {:induction false} Distinct<T(0)>(s: seq<Entry?<T>>)
    requires forall i, j :: 0 <= i < j < |s| ==> s[i] != s[j]
    ensures |set x | x in s| == |s|
  {
    if s != [] {
      var t := s[..|s| - 1];
      Distinct(t);
      assert (set x | x in s) == (set x | x in t) + {s[|s| - 1]};
    }
  }
}
