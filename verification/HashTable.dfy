/**
 `common::HashTbl` of `include/common/impl.common_hashtbl.hpp`: buckets of doubly
 linked items, newest first.  The hash function is any function of the key bytes.
 */
module HashTables {
  import opened RaftTypes
  import opened Sequences
  import opened TableSize

  /** An entry owns the buffer its key lies in; deleting the entry frees the buffer. */
  class HashItem<T> {
    var prev: HashItem?<T>
    var next: HashItem?<T>
    const key: Key
    const data: T
    var freed: bool

    constructor (key: Key, data: T)
      ensures this.key == key && this.data == data && prev == null && next == null && !freed
    {
      this.key, this.data, prev, next, freed := key, data, null, null, false;
    }
  }

  ghost function At<T>(c: seq<HashItem<T>>, i: int): HashItem?<T> {
    if 0 <= i < |c| then c[i] else null
  }

  ghost predicate Linked<T>(c: seq<HashItem<T>>)
    reads c`prev, c`next
  {
    && (forall i {:trigger c[i].next} :: 0 <= i < |c| ==> c[i].next == At(c, i + 1))
    && (forall i {:trigger c[i].prev} :: 0 <= i < |c| ==> c[i].prev == At(c, i - 1))
  }

  /** The entries of a key in one chain, newest first. */
  ghost function EntriesIn<T>(c: seq<HashItem<T>>, k: Key): seq<HashItem<T>> {
    if c == [] then [] else (if c[0].key == k then [c[0]] else []) + EntriesIn(c[1..], k)
  }

  lemma {:induction false} EntriesFrom<T>(c: seq<HashItem<T>>, k: Key, n: nat)
    requires n <= |c| && forall j :: 0 <= j < n ==> c[j].key != k
    ensures EntriesIn(c, k) == EntriesIn(c[n..], k)
  {
    if n > 0 {
      EntriesFrom(c[1..], k, n - 1);
      assert c[1..][n - 1..] == c[n..];
    }
  }

  lemma {:induction false} EntriesBelong<T>(c: seq<HashItem<T>>, k: Key)
    ensures forall x :: x in EntriesIn(c, k) ==> x in c && x.key == k
  {
    if c != [] { EntriesBelong(c[1..], k); }
  }

  /** Taking out the first entry of a key leaves the entries of every other key alone. */
  lemma {:induction false} EntriesCut<T>(c: seq<HashItem<T>>, n: nat, k: Key)
    requires n < |c| && forall j :: 0 <= j < n ==> c[j].key != c[n].key
    ensures k == c[n].key ==> EntriesIn(c, k) == [c[n]] + EntriesIn(Cut(c, n), k)
    ensures k != c[n].key ==> EntriesIn(c, k) == EntriesIn(Cut(c, n), k)
  {
    if n == 0 {
      assert Cut(c, 0) == c[1..];
    } else {
      EntriesCut(c[1..], n - 1, k);
      assert Cut(c, n)[1..] == Cut(c[1..], n - 1);
    }
  }

  lemma CutStaysLinked<T>(c: seq<HashItem<T>>, k: nat)
    requires k < |c|
    requires forall i {:trigger c[i].next} :: 0 <= i < |c| ==>
      c[i].next == if i == k - 1 then At(c, k + 1) else At(c, i + 1)
    requires forall i {:trigger c[i].prev} :: 0 <= i < |c| ==>
      c[i].prev == if i == k + 1 then At(c, k - 1) else At(c, i - 1)
    ensures Linked(Cut(c, k))
  {
    var d := Cut(c, k);
    forall i | 0 <= i < |d| ensures d[i].next == At(d, i + 1) && d[i].prev == At(d, i - 1) {
      assert d[i] == c[if i < k then i else i + 1];
    }
  }

  class HashTbl<T> {
    var hashFn: Key -> nat
    var table: array<HashItem?<T>>
    var sizeMin1: nat
    ghost var bits: nat
    ghost var chains: seq<seq<HashItem<T>>>
    /** one numbering per chain */
    ghost var pos: seq<map<HashItem<T>, nat>>
    ghost var repr: set<HashItem<T>>

    function Bucket(k: Key): nat
      reads this
    {
      BitAnd(hashFn(k), sizeMin1)
    }

    ghost predicate Sized()
      reads this
    {
      && sizeMin1 + 1 == Pow2(bits) == table.Length == |chains| == |pos|
    }

    ghost predicate ChainOk(b: nat)
      requires Sized() && b < |chains|
      reads this, table, repr
    {
      && table[b] == At(chains[b], 0)
      && Numbered(chains[b], pos[b])
      && (forall i :: 0 <= i < |chains[b]| ==> chains[b][i] in repr && !chains[b][i].freed) && Keyed(b)
      && Linked(chains[b])
    }

    ghost predicate Valid()
      reads this, table, repr
      ensures Valid() ==> Sized()
    {
      Sized() && forall b :: 0 <= b < |chains| ==> ChainOk(b)
    }

    lemma InRange(k: Key)
      requires Sized()
      ensures Bucket(k) < |chains| == table.Length
    {
      MaskIsRemainder(hashFn(k), bits);
    }

    /** The entries of a key, newest first. */
    ghost function Entries(k: Key): seq<HashItem<T>>
      requires Sized()
      reads this
    {
      InRange(k);
      EntriesIn(chains[Bucket(k)], k)
    }

    lemma EntriesAreLive(k: Key)
      requires Valid()
      ensures forall x :: x in Entries(k) ==> x in repr && x.key == k && !x.freed
    {
      InRange(k);
      assert ChainOk(Bucket(k));
      EntriesBelong(chains[Bucket(k)], k);
    }

    constructor (hashFn: Key -> nat, request: nat)
      requires request < 0x8000_0000
      ensures Valid() && fresh(table) && repr == {} && forall k :: Entries(k) == []
      ensures this.hashFn == hashFn
      ensures if request == 0 then table.Length == DEFAULT_TABLE_SIZE else IsLeastPow2(table.Length, request)
    {
      var size := RoundedSize(request);
      ghost var e: nat :| size == Pow2(e);
      this.hashFn := hashFn;
      table := new HashItem?<T>[size](_ => null);
      sizeMin1 := size - 1;
      bits := e;
      chains := seq(size, _ => []);
      pos := seq(size, _ => map[]);
      repr := {};
      new;
      forall k ensures Entries(k) == [] { InRange(k); }
    }

    // --- link writes on one chain ----------------------------------------------------------

    /** Puts a new item in front of a chain. */
    static method LinkFirst(
      item: HashItem<T>, head: HashItem?<T>, ghost c: seq<HashItem<T>>, ghost p: map<HashItem<T>, nat>)
      requires Linked(c) && Numbered(c, p) && head == At(c, 0) && item !in c && item.prev == null
      modifies item`next, c`prev
      ensures Linked([item] + c)
    {
      assert forall i :: 0 <= i < |c| ==> c[i] != item;
      item.next := head;
      if head != null { head.prev := item; }
      ghost var d := [item] + c;
      forall i | 0 <= i < |d| ensures d[i].next == At(d, i + 1) && d[i].prev == At(d, i - 1) {
        if i > 0 { assert d[i] == c[i - 1]; }
      }
    }

    /** Takes an item out of its chain. */
    static method Unlink(item: HashItem<T>, ghost c: seq<HashItem<T>>, ghost p: map<HashItem<T>, nat>, ghost k: nat)
      requires Linked(c) && Numbered(c, p) && k < |c| && c[k] == item
      modifies c`prev, c`next
      ensures Linked(Cut(c, k)) && item.next == At(c, k + 1)
    {
      assert item.prev == At(c, k - 1) && item.next == At(c, k + 1);
      if item.prev != null { item.prev.next := item.next; }
      if item.next != null { item.next.prev := item.prev; }
      CutStaysLinked(c, k);
    }

    // --- operations ---------------------------------------------------------------------------

    /** The walk of `FindEntry` and `RemoveEntry2`: the newest item of the key. */
    method Locate(k: Key) returns (item: HashItem?<T>, ghost n: nat)
      requires Valid()
      ensures Bucket(k) < |chains| && n <= |chains[Bucket(k)]| && item == At(chains[Bucket(k)], n)
      ensures forall j :: 0 <= j < n ==> chains[Bucket(k)][j].key != k
      ensures item == null ==> Entries(k) == []
      ensures item != null ==> item.key == k && Entries(k) != [] && Entries(k)[0] == item
    {
      InRange(k);
      ghost var c := chains[Bucket(k)];
      assert ChainOk(Bucket(k));
      item, n := table[Bucket(k)], 0;
      while item != null
        invariant n <= |c| && item == At(c, n)
        invariant forall j :: 0 <= j < n ==> c[j].key != k
        decreases |c| - n
      {
        if item.key == k {
          EntriesFrom(c, k, n);
          return;
        }
        assert item == c[n];
        item, n := item.next, n + 1;
      }
      EntriesFrom(c, k, |c|);
    }

    method FindEntry(k: Key) returns (r: Option<T>)
      requires Valid()
      ensures r == if Entries(k) == [] then None else Some(Entries(k)[0].data)
    {
      var item, _ := Locate(k);
      r := if item == null then None else Some(item.data);
    }

    ghost predicate Keyed(b: nat)
      requires b < |chains|
      reads this
    {
      forall i :: 0 <= i < |chains[b]| ==> Bucket(chains[b][i].key) == b
    }

    /** Chains share no item: an item's key says where it belongs. */
    lemma ChainsApart(a: nat, b: nat)
      requires a < |chains| && b < |chains| && a != b && Keyed(a) && Keyed(b)
      ensures forall i :: 0 <= i < |chains[a]| ==> chains[a][i] !in chains[b]
    {
      assert forall x :: x in chains[b] ==> Bucket(x.key) == b;
    }

    ghost predicate OthersOk(b: nat)
      requires Sized()
      reads this, table, repr
    {
      forall a :: 0 <= a < |chains| && a != b ==> ChainOk(a)
    }

    /** Makes `c` the chain of bucket `b`. */
    method Install(
      b: nat, head: HashItem?<T>,
      ghost c: seq<HashItem<T>>, ghost p: map<HashItem<T>, nat>, ghost added: set<HashItem<T>>)
      requires Sized() && b < |chains| && OthersOk(b)
      requires head == At(c, 0) && Linked(c) && Numbered(c, p)
      requires forall i :: 0 <= i < |c| ==> c[i] in repr + added && !c[i].freed && Bucket(c[i].key) == b
      modifies this`chains, this`pos, this`repr, table
      ensures Valid() && chains == old(chains)[b := c] && repr == old(repr) + added
    {
      hide Linked, Numbered;
      ghost var was, wasPos := chains, pos;
      table[b] := head;
      chains, pos, repr := chains[b := c], pos[b := p], repr + added;
      forall a | 0 <= a < |chains| ensures ChainOk(a) {
        if a != b {
          assert old(ChainOk(a)) && chains[a] == was[a] && pos[a] == wasPos[a];
        }
      }
    }

    /** `AddEntry2` answers the key in the new entry's own buffer. */
    method AddEntry2(k: Key, d: T) returns (ownKey: Key, owner: HashItem<T>)
      requires Valid()
      modifies this, table, repr
      ensures Valid() && table == old(table) && hashFn == old(hashFn) && sizeMin1 == old(sizeMin1)
      ensures fresh(owner) && ownKey == owner.key == k && owner.data == d && !owner.freed && repr == old(repr) + {owner}
      ensures forall x :: x in old(repr) ==> x.freed == old(x.freed)
      ensures forall j :: Entries(j) == if j == k then [owner] + old(Entries(j)) else old(Entries(j))
    {
      owner := new HashItem<T>(k, d);
      var b := PushItem(owner);
      ownKey := owner.key;
      ghost var was := old(chains);
      assert ([owner] + was[b])[1..] == was[b];
      forall j ensures Entries(j) == if j == k then [owner] + old(Entries(j)) else old(Entries(j)) {
        InRange(j);
      }
    }

    /** Link writes confined to the items of one chain leave the other chains alone. */
    twostate lemma OthersSurvive(b: nat)
      requires old(Valid()) && b < |chains| && unchanged(this) && unchanged(table)
      requires forall x :: x in repr && x !in chains[b] ==> unchanged(x)
      ensures OthersOk(b)
    {
      forall a | 0 <= a < |chains| && a != b ensures ChainOk(a) {
        assert old(ChainOk(a)) && old(ChainOk(b));
        ChainsApart(a, b);
        assert forall i :: 0 <= i < |chains[a]| ==> unchanged(chains[a][i]);
      }
    }

    method PushItem(item: HashItem<T>) returns (b: nat)
      requires Valid() && item !in repr && item.prev == null && !item.freed
      modifies this`chains, this`pos, this`repr, table, repr`prev, item`next
      ensures Valid() && repr == old(repr) + {item}
      ensures b == Bucket(item.key) < |old(chains)| && chains == old(chains)[b := [item] + old(chains)[b]]
    {
      InRange(item.key);
      b := Bucket(item.key);
      ghost var c := chains[b];
      assert ChainOk(b) && item !in c;
      LinkFirst(item, table[b], c, pos[b]);
      OthersSurvive(b);
      PrependNumbered(c, pos[b], item);
      Install(b, item, [item] + c, Prepended(pos[b], item), {item});
    }

    /** Takes the newest item of the key out of its chain and deletes it. */
    method PopItem(k: Key) returns (item: HashItem?<T>, ghost n: nat)
      requires Valid()
      modifies this`chains, this`pos, this`repr, table, repr
      ensures Valid() && repr == old(repr)
      ensures item == null ==> old(Entries(k)) == [] && chains == old(chains)
      ensures item != null ==> old(Entries(k)) != [] && old(Entries(k))[0] == item && item.freed
      ensures forall x :: x in repr && x != item ==> x.freed == old(x.freed)
      ensures Bucket(k) < |old(chains)|
      ensures item != null ==>
        var b := Bucket(k); var c := old(chains)[b];
        && n < |c| && item == c[n] && item.key == k
        && (forall j :: 0 <= j < n ==> c[j].key != k)
        && chains == old(chains)[b := Cut(c, n)]
    {
      hide EntriesIn, Pow2, BitAnd;
      item, n := Locate(k);
      InRange(k);
      if item == null { return; }
      var b := Bucket(k);
      ghost var c := chains[b];
      assert ChainOk(b);
      var head := table[b];
      Unlink(item, c, pos[b], n);
      item.freed := true;
      OthersSurvive(b);
      CutNumbered(c, pos[b], n);
      CutLoses(c, pos[b], n);
      if item == head { head := item.next; }
      assert head == At(Cut(c, n), 0);
      Install(b, head, Cut(c, n), Renumbered(c, pos[b], n), {});
    }

    /** The newest entry of the key is deleted, and its buffer with it. */
    method RemoveEntry2(k: Key) returns (r: Option<T>)
      requires Valid()
      modifies this, table, repr
      ensures Valid() && table == old(table) && hashFn == old(hashFn) && sizeMin1 == old(sizeMin1) && repr == old(repr)
      ensures r == if old(Entries(k)) == [] then None else Some(old(Entries(k))[0].data)
      ensures r.Some? ==> old(Entries(k))[0].freed
      ensures forall x :: x in repr && !(r.Some? && x == old(Entries(k))[0]) ==> x.freed == old(x.freed)
      ensures forall j :: Entries(j) == if j == k && r.Some? then old(Entries(j))[1..] else old(Entries(j))
    {
      var item, n := PopItem(k);
      if item == null { return None; }
      r := Some(item.data);
      forall j ensures old(Entries(j)) == if j == k then [item] + Entries(j) else Entries(j) {
        InRange(j);
        if Bucket(j) == Bucket(k) { EntriesCut(old(chains)[Bucket(k)], n, j); }
      }
    }

    /** Takes over another table's content. */
    method CopyFrom(src: HashTbl<T>)
      requires src.Valid() && src != this
      modifies this
      ensures Valid() && table == src.table && repr == src.repr && chains == src.chains
      ensures forall k :: Entries(k) == src.Entries(k)
    {
      hide Linked, Numbered, EntriesIn, Pow2, BitAnd;
      hashFn, table, sizeMin1 := src.hashFn, src.table, src.sizeMin1;
      bits, chains, pos, repr := src.bits, src.chains, src.pos, src.repr;
      forall a | 0 <= a < |chains| ensures ChainOk(a) { assert src.ChainOk(a); }
    }

    /** Takes over an empty table. */
    method TakeEmpty(t: array<HashItem?<T>>, size: nat, ghost e: nat, ghost r: set<HashItem<T>>)
      requires t.Length == size + 1 == Pow2(e) && forall i :: 0 <= i < t.Length ==> t[i] == null
      modifies this
      ensures Valid() && table == t && repr == r && hashFn == old(hashFn)
      ensures (forall b :: 0 <= b < |chains| ==> chains[b] == []) && forall k :: Entries(k) == []
    {
      table, sizeMin1, bits, repr := t, size, e, r;
      chains, pos := seq(size + 1, _ => []), seq(size + 1, _ => map[]);
      forall k ensures Entries(k) == [] { InRange(k); }
    }

    ghost predicate Empty()
      reads this
    {
      forall b :: 0 <= b < |chains| ==> chains[b] == []
    }

    lemma HeadIsStored(b: nat)
      requires Valid() && b < |chains|
      ensures chains[b] != [] ==> Entries(chains[b][0].key) != []
    {
      assert ChainOk(b);
      if chains[b] != [] { assert Bucket(chains[b][0].key) == b; }
    }

    /** Exchanges the two tables; the other one takes over this one's hash function. */
    method MoveContentToEmptyHash(other: HashTbl<T>)
      requires Valid() && other.Valid() && other != this && other.Empty()
      modifies this, other
      ensures Valid() && other.Valid() && Empty() && repr == old(other.repr) && other.repr == old(repr)
      ensures table == old(other.table) && other.table == old(table)
      ensures forall k :: Entries(k) == [] && other.Entries(k) == old(Entries(k))
    {
      hide Linked, Numbered, EntriesIn, Pow2, BitAnd;
      var t, n := other.table, other.sizeMin1;
      ghost var e, r := other.bits, other.repr;
      assert forall i :: 0 <= i < t.Length ==> t[i] == null by {
        forall i | 0 <= i < t.Length ensures t[i] == null { assert other.ChainOk(i); }
      }
      other.CopyFrom(this);
      TakeEmpty(t, n, e, r);
    }
  }
}
