/**
 `raft_votes_is_majority(count - 1, votes)`: when two accepted voter sets must meet.
 */
module Quorum {
  import opened ServerSteps

  /** A set of voters that the election test accepts among the members `all`. */
  ghost predicate AcceptedVoters<T(!new)>(all: set<T>, voters: set<T>)
    requires all != {}
  {
    voters <= all && IsMajority(|all| - 1, |voters|)
  }

  lemma TooManyToBeDisjoint<T>(all: set<T>, a: set<T>, b: set<T>)
    requires a <= all && b <= all && |all| < |a| + |b|
    ensures a * b != {}
  {
    assert |a + b| + |a * b| == |a| + |b|;
    assert all == (a + b) + (all - (a + b));
  }

  lemma {:induction false} HalfOf<T>(all: set<T>, n: nat) returns (half: set<T>)
    requires n <= |all|
    ensures half <= all && |half| == n
    decreases n
  {
    if n == 0 {
      half := {};
    } else {
      var x :| x in all;
      var rest := HalfOf(all - {x}, n - 1);
      half := rest + {x};
    }
  }

  /** Two accepted voter sets that both leave the old leader out always share a voter. */
  lemma OverlapWithoutOldLeader<T(!new)>(all: set<T>, oldLeader: T, a: set<T>, b: set<T>)
    requires oldLeader in all && AcceptedVoters(all, a) && AcceptedVoters(all, b)
    requires oldLeader !in a && oldLeader !in b
    ensures a * b != {}
  {
    TooManyToBeDisjoint(all - {oldLeader}, a, b);
  }

  lemma OverlapWhenOdd<T(!new)>(all: set<T>, a: set<T>, b: set<T>)
    requires all != {} && |all| % 2 == 1 && AcceptedVoters(all, a) && AcceptedVoters(all, b)
    ensures a * b != {}
  {
    TooManyToBeDisjoint(all, a, b);
  }

  /** Drawn from all members, any two accepted voter sets share a voter exactly when
      the number of members is odd. */
  lemma OverlapIffOdd<T(!new)>(all: set<T>)
    requires all != {}
    ensures (forall a, b :: AcceptedVoters(all, a) && AcceptedVoters(all, b) ==> a * b != {}) <==> |all| % 2 == 1
  {
    if |all| % 2 == 1 {
      forall a, b | AcceptedVoters(all, a) && AcceptedVoters(all, b) ensures a * b != {} {
        OverlapWhenOdd(all, a, b);
      }
    } else {
      var half := HalfOf(all, |all| / 2);
      var other := all - half;
      assert AcceptedVoters(all, half) && AcceptedVoters(all, other) && half * other == {};
    }
  }
}
