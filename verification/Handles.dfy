/**
 `common::IODevice` and `common::SocketBase`: handles that share a descriptor are linked
 to each other, and the descriptor is closed when the last of them is.  The handles of a
 process and the descriptors it has closed are kept together in `Process`.
 */
module Handles {

  class SocketBase {
    var prev: SocketBase?
    var next: SocketBase?
    var socket: int

    constructor ()
      ensures prev == null && next == null && socket == -1
    {
      prev, next, socket := null, null, -1;
    }

    predicate IsOpen()
      reads this`socket
    {
      socket >= 0
    }

    predicate Unshared()
      reads this`prev, this`next
    {
      prev == null && next == null
    }
  }

  /** An assignment `dst = src`. */
  datatype Assignment = Assignment(dst: SocketBase, src: SocketBase)

  class Process {
    /** the descriptors passed to `close`, in order */
    var closed: seq<int>
    /** the positive descriptors given to handles */
    ghost var adopted: multiset<int>
    ghost var all: set<SocketBase>
    /** increases along the links, so they form no circle */
    ghost var rank: map<SocketBase, real>

    ghost predicate Agrees(h: SocketBase)
      requires h in all
      reads this`all, all
    {
      && (!h.IsOpen() ==> h.Unshared())
      && (h.next != null ==> h.next in all && h.next.prev == h && h.next.socket == h.socket)
      && (h.prev != null ==> h.prev in all && h.prev.next == h && h.prev.socket == h.socket)
    }

    /** The links of the handles are those of chains of sharers. */
    ghost predicate Linked()
      reads this`all, all
    {
      forall h :: h in all ==> Agrees(h)
    }

    ghost predicate Ranked()
      reads this`all, this`rank, all
    {
      rank.Keys == all && forall h :: h in all && h.next != null && h.next in all ==> rank[h] < rank[h.next]
    }

    /** The handles that come first among the sharers of a descriptor. */
    ghost function Heads(fd: int): set<SocketBase>
      reads this`all, all
    {
      set h | h in all && h.socket == fd && h.prev == null
    }

    /** Every descriptor given out was closed, or is held by one chain of sharers. */
    ghost predicate Accounted()
      reads this`all, this`closed, this`adopted, all
    {
      forall fd :: fd > 0 ==> adopted[fd] == multiset(closed)[fd] + |Heads(fd)|
    }

    ghost predicate Valid()
      reads this, all
    {
      Linked() && Ranked() && Accounted()
    }

    constructor ()
      ensures Valid() && closed == [] && adopted == multiset{} && all == {}
    {
      closed, adopted, all, rank := [], multiset{}, {}, map[];
    }

    /** Going back along the links from a handle ends at a first sharer. */
    lemma {:induction false} HeadOf(h: SocketBase, below: set<SocketBase>) returns (head: SocketBase)
      requires Valid() && h in all && below == set x | x in all && rank[x] < rank[h]
      ensures head in Heads(h.socket) && (head != h ==> head.next != null)
      decreases below
    {
      if h.prev == null {
        head := h;
      } else {
        assert Agrees(h);
        var p: SocketBase := h.prev;
        var fewer := set x | x in all && rank[x] < rank[p];
        assert p in below && p !in fewer;
        head := HeadOf(p, fewer);
      }
    }

    /** The hard close of the last sharer is the only one: with one holding chain for the
        descriptor, a handle is unlinked exactly when no other handle has it. */
    lemma UnsharedIsLast(h: SocketBase)
      requires Valid() && h in all && h.IsOpen() && |Heads(h.socket)| == 1
      ensures h.Unshared() <==> forall x :: x in all && x.socket == h.socket ==> x == h
    {
      assert Agrees(h);
      if h.Unshared() {
        forall x | x in all && x.socket == h.socket ensures x == h {
          var head := HeadOf(x, set y | y in all && rank[y] < rank[x]);
          OnlyOne(Heads(h.socket), head, h);
        }
      }
    }

    static lemma OnlyOne<T>(s: set<T>, a: T, b: T)
      requires |s| == 1 && a in s && b in s
      ensures a == b
    {
      var rest := s - {a};
      assert |rest| == 0;
      assert b !in rest;
    }

    /** A descriptor adopted once is not closed while a handle has it. */
    lemma OpenIsNotClosed(h: SocketBase)
      requires Valid() && h in all && h.socket > 0 && adopted[h.socket] == 1
      ensures h.socket !in closed
    {
      var head := HeadOf(h, set y | y in all && rank[y] < rank[h]);
      assert Heads(h.socket) != {};
    }

    /** Once no handle is open, every adopted descriptor was closed as often as adopted. */
    lemma AllClosed(fd: int)
      requires Valid() && fd > 0 && forall h :: h in all ==> !h.IsOpen()
      ensures multiset(closed)[fd] == adopted[fd]
    {
      assert Heads(fd) == {};
    }

    method NewSocket() returns (h: SocketBase)
      requires Valid()
      modifies this`all, this`rank
      ensures Valid() && fresh(h) && all == old(all) + {h} && h.Unshared() && h.socket == -1
    {
      h := new SocketBase();
      all, rank := all + {h}, rank[h := 0.0];
      forall fd | fd > 0 ensures Heads(fd) == old(Heads(fd)) { }
    }

    /** The other handles are linked to each other as before, past this one. */
    twostate predicate Bypassed(h: SocketBase)
      reads this`all, all`next, all`prev
    {
      all == old(all) && forall x :: x in old(all) && x in all && x != h ==>
        && x.next == old(if x.next == h then h.next else x.next)
        && x.prev == old(if x.prev == h then h.prev else x.prev)
    }

    /** The link writes of closing a handle that others share. */
    method Leave(h: SocketBase)
      requires Linked() && Ranked() && h in all && h.IsOpen()
      modifies all
      ensures Linked() && Ranked() && h.Unshared() && h.socket == -1
      ensures forall x :: x in all && x != h ==> x.socket == old(x.socket)
      ensures Bypassed(h)
    {
      Unlink(h);
      PastIsLinked(h);
    }

    method Unlink(h: SocketBase)
      requires Linked() && h in all && h.IsOpen()
      modifies all
      ensures h.Unshared() && h.socket == -1 && Bypassed(h)
      ensures forall x :: x in all && x != h ==> x.socket == old(x.socket)
    {
      assert Agrees(h);
      assert forall x :: x in all ==> Agrees(x);
      if h.prev != null { h.prev.next := h.next; }
      if h.next != null { h.next.prev := h.prev; }
      h.prev, h.next := null, null;
      h.socket := -1;
    }

    twostate lemma PastIsLinked(h: SocketBase)
      requires old(Linked()) && old(Ranked()) && h in old(all) && rank == old(rank)
      requires Bypassed(h) && h.Unshared() && h.socket == -1
      requires forall x :: x in old(all) && x != h ==> x.socket == old(x.socket)
      ensures Linked() && Ranked()
    {
      assert old(Agrees(h));
      forall x | x in all ensures Agrees(x) {
        assert old(Agrees(x));
      }
      forall x | x in all && x.next != null && x.next in all ensures rank[x] < rank[x.next] {
        assert old(Agrees(x));
      }
    }

    /** Leaving changes the number of holding chains only for the last sharer. */
    method Vacate(h: SocketBase)
      requires Linked() && Ranked() && h in all && h.IsOpen()
      modifies all
      ensures Linked() && Ranked() && h.Unshared() && h.socket == -1
      ensures Bypassed(h)
      ensures forall x :: x in all && x != h ==> x.socket == old(x.socket)
      ensures forall fd {:trigger Heads(fd)} :: fd >= 0 ==>
        |Heads(fd)| == old(|Heads(fd)|) - if fd == old(h.socket) && old(h.Unshared()) then 1 else 0
    {
      hide Linked, Ranked, Heads, Bypassed;
      Leave(h);
      forall fd | fd >= 0
        ensures |Heads(fd)| == old(|Heads(fd)|) - if fd == old(h.socket) && old(h.Unshared()) then 1 else 0
      {
        HeadsLeft((h, fd));
      }
    }

    /** Past a handle that came first, its follower does. */
    twostate lemma NewFirst(h: SocketBase)
      requires old(Linked()) && h in old(all) && Bypassed(h)
      ensures old(h.next) != null ==> old(h.next) in old(all) && old(h.next.socket) == old(h.socket)
      ensures forall x :: x in old(all) && x != h ==>
        (x.prev == null <==> old(x.prev) == null || (x == old(h.next) && old(h.prev) == null))
    {
      assert old(Agrees(h));
      forall x | x in old(all) && x != h
        ensures x.prev == null <==> old(x.prev) == null || (x == old(h.next) && old(h.prev) == null)
      {
        assert old(Agrees(x));
      }
    }

    twostate lemma HeadsLeft(about: (SocketBase, int))
      requires old(Linked()) && old(Ranked()) && about.0 in old(all) && old(about.0.IsOpen()) && about.1 >= 0
      requires Bypassed(about.0) && about.0.socket == -1
      requires forall x :: x in old(all) && x != about.0 ==> x.socket == old(x.socket)
      ensures var (h, fd) := about;
        |Heads(fd)| == old(|Heads(fd)|) - if fd == old(h.socket) && old(h.Unshared()) then 1 else 0
    {
      var (h, fd) := about;
      assert all == old(all) && old(h.next) != h && (old(h.next) != null ==> old(h.next.prev) == h) by {
        assert old(Agrees(h));
      }
      NewFirst(h);
      hide Linked, Ranked, Bypassed;
      var was := old(Heads(fd));
      if fd == old(h.socket) && old(h.prev) == null {
        if old(h.next) == null {
          assert Heads(fd) == was - {h};
        } else {
          var n: SocketBase := old(h.next);
          assert Heads(fd) == was - {h} + {n};
          Exchanged(was, h, n);
        }
      } else {
        assert Heads(fd) == was;
      }
    }

    static lemma Exchanged<T>(s: set<T>, a: T, b: T)
      requires a in s && b !in s
      ensures |s - {a} + {b}| == |s|
    {
    }

    /** `closeC`: the descriptor itself is closed if no other handle shares it, and then once. */
    method CloseC(h: SocketBase)
      requires Valid() && h in all
      modifies this`closed, all
      ensures Valid() && h.Unshared() && h.socket == -1
      ensures closed == old(closed) + if old(h.socket > 0 && h.Unshared()) then [old(h.socket)] else []
      ensures forall x :: x in all && x != h ==> x.socket == old(x.socket)
      ensures Bypassed(h)
    {
      hide Linked, Ranked, Heads, Bypassed;
      if h.IsOpen() {
        var fd, last := h.socket, h.Unshared();
        Vacate(h);
        if last && fd > 0 { closed := closed + [fd]; }
      } else {
        SetClosed(h);
      }
    }

    /** A closed handle gets the socket -1 whatever negative number it had. */
    method SetClosed(h: SocketBase)
      requires Linked() && Ranked() && h in all && !h.IsOpen()
      modifies h`socket
      ensures Linked() && Ranked() && h.Unshared() && h.socket == -1 && Bypassed(h)
      ensures forall fd {:trigger Heads(fd)} :: fd >= 0 ==> Heads(fd) == old(Heads(fd))
    {
      assert Agrees(h);
      assert forall x :: x in all ==> Agrees(x);
      h.socket := -1;
    }

    twostate lemma OpenIsLinked(h: SocketBase)
      requires old(Linked()) && old(Ranked()) && h in old(all) && all == old(all) && rank == old(rank)
      requires old(!h.IsOpen()) && h.Unshared()
      requires forall x :: x in old(all) ==>
        x.next == old(x.next) && x.prev == old(x.prev) && (x != h ==> x.socket == old(x.socket))
      ensures Linked() && Ranked()
    {
      assert old(Agrees(h));
      forall x | x in all ensures Agrees(x) {
        assert old(Agrees(x));
      }
    }

    method Open(h: SocketBase, fd: int)
      requires Linked() && Ranked() && h in all && !h.IsOpen()
      modifies h`socket
      ensures Linked() && Ranked() && h.Unshared() && h.socket == fd
      ensures forall f {:trigger Heads(f)} :: f >= 0 ==> |Heads(f)| == old(|Heads(f)|) + if f == fd then 1 else 0
    {
      assert Agrees(h);
      h.socket := fd;
      OpenIsLinked(h);
      hide Linked, Ranked;
      forall f | f >= 0 ensures |Heads(f)| == old(|Heads(f)|) + if f == fd then 1 else 0 {
        if f == fd {
          assert Heads(f) == old(Heads(f)) + {h};
        } else {
          assert Heads(f) == old(Heads(f));
        }
      }
    }

    /** `SetNewSocketDescriptor`. */
    method SetNewSocketDescriptor(h: SocketBase, fd: int)
      requires Valid() && h in all
      modifies this`closed, this`adopted, all
      ensures Valid() && h.Unshared() && h.socket == fd
      ensures adopted == old(adopted) + if fd > 0 then multiset{fd} else multiset{}
      ensures closed == old(closed) + if old(h.socket > 0 && h.Unshared()) then [old(h.socket)] else []
      ensures forall x :: x in all && x != h ==> x.socket == old(x.socket)
      ensures Bypassed(h)
    {
      hide Linked, Ranked, Heads, Bypassed;
      CloseC(h);
      Open(h, fd);
      if fd > 0 { adopted := adopted + multiset{fd}; }
    }

    // --- assignment -------------------------------------------------------------------------------

    /** What the links and sockets are after `dst = src`, for any two handles. */
    twostate predicate Cloned(dst: SocketBase, src: SocketBase)
      reads this`all, all
    {
      all == old(all) && forall x :: x in old(all) && x in all ==>
        && x.socket == old(if x == dst then src.socket else x.socket)
        && x.next == old(
             if !src.IsOpen() then x.next else if x == dst then src.next else if x == src then dst else x.next)
        && x.prev == old(
             if !src.IsOpen() then x.prev else if x == dst then src else if x == src.next then dst else x.prev)
    }

    method Clone(dst: SocketBase, src: SocketBase)
      requires Linked() && dst in all && src in all
      modifies all
      ensures Cloned(dst, src)
    {
      assert Agrees(src);
      if src.IsOpen() {
        var follower := src.next;
        src.next := dst;
        dst.next := follower;
        if follower != null { follower.prev := dst; }
        dst.prev := src;
      }
      dst.socket := src.socket;
    }

    /** Assignment into a handle that holds nothing to close. */
    predicate Assignable(dst: SocketBase, src: SocketBase)
      reads dst, src
    {
      !dst.IsOpen() || (dst.socket == 0 && dst.Unshared() && dst != src)
    }

    /** Assigning over a handle that shares its descriptor, or over itself, leaves links
        that are not those of any chain. */
    twostate lemma AssignBreaks(a: Assignment)
      requires old(Linked()) && old(Ranked()) && a.dst in old(all) && a.src in old(all) && Cloned(a.dst, a.src)
      requires old(a.dst.IsOpen()) && (a.dst == a.src || !old(a.dst.Unshared()))
      ensures !Linked()
    {
      assert old(Agrees(a.dst)) && old(Agrees(a.src));
      if a.dst == a.src {
        assert !Agrees(a.dst);
      } else if !old(a.src.IsOpen()) {
        assert !Agrees(a.dst);
      } else if old(a.dst.prev) != null {
        var p: SocketBase := old(a.dst.prev);
        if p == a.src { assert !Agrees(a.dst); } else { assert !Agrees(p); }
      } else {
        var n: SocketBase := old(a.dst.next);
        assert !Agrees(n);
      }
    }

    /** Assigning over the only handle of a descriptor loses the descriptor. */
    twostate lemma AssignLeaks(a: Assignment)
      requires old(Valid()) && a.dst in old(all) && a.src in old(all) && Cloned(a.dst, a.src)
      requires closed == old(closed) && adopted == old(adopted)
      requires old(a.dst.socket) > 0 && a.dst != a.src && old(a.dst.Unshared())
      ensures !Accounted()
    {
      var fd := old(a.dst.socket);
      assert old(Agrees(a.src));
      assert Heads(fd) == old(Heads(fd)) - {a.dst};
      assert adopted[fd] == multiset(closed)[fd] + old(|Heads(fd)|);
    }

    twostate lemma AssignJoins(a: Assignment)
      requires old(Linked()) && old(Ranked()) && a.dst in old(all) && a.src in old(all) && Cloned(a.dst, a.src)
      requires old(Assignable(a.dst, a.src))
      ensures Linked()
      ensures forall fd :: fd > 0 ==> Heads(fd) == old(Heads(fd))
    {
      assert old(Agrees(a.src)) && old(Agrees(a.dst));
      forall x | x in all ensures Agrees(x) {
        assert old(Agrees(x));
      }
    }

    ghost function RankAfter(src: SocketBase): real
      requires src in rank
      reads this`rank, src`next
    {
      if src.next != null && src.next in rank then (rank[src] + rank[src.next]) / 2.0 else rank[src] + 1.0
    }

    twostate lemma AssignRanks(a: Assignment)
      requires old(Linked()) && old(Ranked()) && a.dst in old(all) && a.src in old(all) && Cloned(a.dst, a.src)
      requires old(Assignable(a.dst, a.src))
      requires rank == old(if a.src.IsOpen() then rank[a.dst := RankAfter(a.src)] else rank)
      ensures Ranked()
    {
      assert old(Agrees(a.src)) && old(Agrees(a.dst));
      forall x | x in all && x.next != null && x.next in all ensures rank[x] < rank[x.next] {
        assert old(Agrees(x));
      }
    }

    /** `operator=`: the handle joins the sharers of the other one.  The links stay those of
        chains and every descriptor stays accounted for exactly when the handle assigned to
        holds nothing to close. */
    method Assign(dst: SocketBase, src: SocketBase)
      requires Valid() && dst in all && src in all
      modifies this`rank, all
      ensures Cloned(dst, src)
      ensures old(Assignable(dst, src)) ==> Valid()
      ensures Linked() && Accounted() <==> old(Assignable(dst, src))
    {
      hide Linked, Heads, Cloned;
      ghost var r := if src.IsOpen() then rank[dst := RankAfter(src)] else rank;
      Clone(dst, src);
      if old(Assignable(dst, src)) {
        rank := r;
        AssignJoins(Assignment(dst, src));
        AssignRanks(Assignment(dst, src));
      } else if old(dst.Unshared()) && dst != src {
        AssignLeaks(Assignment(dst, src));
      } else {
        AssignBreaks(Assignment(dst, src));
      }
    }

    /** `GetAndResetSocket`: hands the descriptor over, unclosed.  The links stay those of
        chains exactly when the handle shared it with nobody. */
    method GetAndResetSocket(h: SocketBase) returns (fd: int)
      requires Valid() && h in all
      modifies this`adopted, h
      ensures fd == old(h.socket) && h.Unshared() && h.socket == -1
      ensures Linked() <==> old(h.Unshared())
      ensures old(h.Unshared()) ==> Valid()
      ensures adopted == old(adopted) - if fd > 0 then multiset{fd} else multiset{}
    {
      assert Agrees(h);
      fd := h.socket;
      ghost var p, n := h.prev, h.next;
      h.prev, h.next, h.socket := null, null, -1;
      if fd > 0 { adopted := adopted - multiset{fd}; }
      if p == null && n == null {
        HandedOver(h);
      } else {
        assert p != null ==> !Agrees(p);
        assert n != null ==> !Agrees(n);
      }
    }

    twostate lemma HandedOver(h: SocketBase)
      requires old(Valid()) && h in old(all) && old(h.Unshared())
      requires all == old(all) && rank == old(rank) && closed == old(closed)
      requires h.Unshared() && h.socket == -1
      requires forall x :: x in old(all) && x != h ==>
        x.prev == old(x.prev) && x.next == old(x.next) && x.socket == old(x.socket)
      requires adopted == old(adopted) - old(if h.socket > 0 then multiset{h.socket} else multiset{})
      ensures Valid()
    {
      forall x | x in all ensures Agrees(x) {
        assert old(Agrees(x));
      }
      forall fd | fd > 0 ensures adopted[fd] == multiset(closed)[fd] + |Heads(fd)| {
        if fd == old(h.socket) {
          assert Heads(fd) == old(Heads(fd)) - {h};
        } else {
          assert Heads(fd) == old(Heads(fd));
        }
      }
    }
  }
}
