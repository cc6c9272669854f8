/** Small facts about sequences used by the linked structures. */
module Sequences {

  function Cut<T>(s: seq<T>, k: nat): seq<T>
    requires k < |s|
  {
    s[..k] + s[k + 1..]
  }

  lemma CutFront<T>(s: seq<T>)
    requires s != []
    ensures Cut(s, 0) == s[1..]
  {
  }

  /** `pos` numbers the elements of `s`, so none occurs twice. */
  ghost predicate Numbered<T>(s: seq<T>, pos: map<T, nat>) {
    forall i :: 0 <= i < |s| ==> s[i] in pos && pos[s[i]] == i
  }

  ghost function Renumbered<T>(s: seq<T>, pos: map<T, nat>, k: nat): map<T, nat>
    requires k < |s|
  {
    map x | x in pos :: if pos[x] > k then pos[x] - 1 else pos[x]
  }

  lemma CutNumbered<T>(s: seq<T>, pos: map<T, nat>, k: nat)
    requires k < |s| && Numbered(s, pos)
    ensures Numbered(Cut(s, k), Renumbered(s, pos, k))
  {
    var c := Cut(s, k);
    forall i | 0 <= i < |c| ensures c[i] in pos && pos[c[i]] == if i < k then i else i + 1 {
      assert c[i] == s[if i < k then i else i + 1];
    }
  }

  lemma CutLoses<T>(s: seq<T>, pos: map<T, nat>, k: nat)
    requires k < |s| && Numbered(s, pos)
    ensures s[k] !in Cut(s, k)
    ensures forall x :: x in s && x != s[k] ==> x in Cut(s, k)
    ensures forall x :: x in Cut(s, k) ==> x in s
  {
    var c := Cut(s, k);
    forall i | 0 <= i < |c| ensures c[i] != s[k] && c[i] in s {
      assert c[i] == s[if i < k then i else i + 1];
    }
    forall i | 0 <= i < |s| && i != k ensures s[i] in c {
      assert s[i] == c[if i < k then i else i - 1];
    }
  }

  ghost function Prepended<T>(pos: map<T, nat>, x: T): map<T, nat> {
    (map y | y in pos :: pos[y] + 1)[x := 0]
  }

  lemma PrependNumbered<T>(s: seq<T>, pos: map<T, nat>, x: T)
    requires Numbered(s, pos) && x !in s
    ensures Numbered([x] + s, Prepended(pos, x))
  {
    var c, r := [x] + s, Prepended(pos, x);
    forall i | 0 <= i < |c| ensures c[i] in r && r[c[i]] == i {
      if i > 0 { assert c[i] == s[i - 1]; }
    }
  }

  ghost function Joined<T>(a: seq<T>, p: map<T, nat>, b: seq<T>, q: map<T, nat>): map<T, nat> {
    p + map x | x in q && x in b :: |a| + q[x]
  }

  lemma JoinNumbered<T>(a: seq<T>, p: map<T, nat>, b: seq<T>, q: map<T, nat>)
    requires Numbered(a, p) && Numbered(b, q) && forall x :: x in b ==> x !in a
    ensures Numbered(a + b, Joined(a, p, b, q))
  {
    var c, r := a + b, Joined(a, p, b, q);
    forall i | 0 <= i < |c| ensures c[i] in r && r[c[i]] == i {
      if i < |a| { assert c[i] == a[i]; } else { assert c[i] == b[i - |a|]; }
    }
  }
}
