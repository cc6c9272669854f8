/**
 Two votes of one server for the same term: over every run, exactly when the second one
 is granted.
 */
module DoubleVotes {
  import opened RaftTypes
  import opened ServerSteps
  import opened ServerTheorems

  predicate Grants(s: Server, e: Event) { e.Receive? && e.msg.RequestVote? && !Refuses(s, e.msg) }

  predicate Campaigns(s: Server, e: Event) {
    e.Timer? && !s.role.Leader? && s.electionTimeout <= s.elapsed + e.msec
  }

  predicate Wins(s: Server, e: Event) {
    && e.Receive? && e.msg.VoteReply? && e.msg.granted && !s.role.Leader? && s.peers != []
    && IsMajority(|s.peers| - 1, Votes(s.(peers := WithVote(s.peers, e.from, true))))
  }

  predicate StepsDown(s: Server, e: Event) {
    e.Receive? && e.msg.AppendEntries? &&
    ((s.role.Leader? && s.term <= e.msg.term) || (s.role.Candidate? && Accepts(s, e.msg)))
  }

  /** A request of a larger term that is refused for its log. */
  predicate Overtaken(s: Server, e: Event) {
    e.Receive? && e.msg.RequestVote? && s.term < e.msg.term && Refuses(s, e.msg)
  }

  predicate Clears(s: Server, e: Event) {
    Wins(s, e) || StepsDown(s, e) || Overtaken(s, e) || (Campaigns(s, e) && s.self.None?)
  }

  predicate Casts(s: Server, e: Event) { Grants(s, e) || (Campaigns(s, e) && s.self.Some?) }

  /** What every event does to the vote. */
  lemma VoteStep(s: Server, e: Event)
    requires Sound(s) && Possible(s, e)
    ensures var v := Handle(s, e).server.votedFor;
      && (Casts(s, e) ==> v.Some?) && (Clears(s, e) ==> v.None?)
      && (!Casts(s, e) && !Clears(s, e) ==> v == s.votedFor)
  {
    hide Heartbeats, VoteRequests, TermsInOrder, Votes, MarkRange, PrevMatches;
    match e
    case Timer(ms, tj, ej) => TimerEffect(s, ms, tj, ej);
    case Submit(_, _) =>
    case Receive(k, restart, m) =>
      match m
      case RequestVote(_, _, _, _) => RequestVoteDecides(s, k, m);
      case AppendEntries(_, _, _, _, _) =>
        hide OnAppendEntries;
        if Accepts(s, m) { AppendEntriesAccepted(s, k, restart, m); } else { AppendEntriesRefused(s, k, restart, m); }
      case AppendAccepted(_, _, _) =>
        var log := MarkRange(s.log, m.firstIdx, m.currentIdx).0;
        CommitLoopKeeps(s.(peers := WithNextIdx(s.peers, k, m.currentIdx), log := log), m.currentIdx);
      case _ =>
  }

  /** Between steps `i` and `j` the vote was taken back and not cast again. */
  predicate TakenBack(states: seq<Server>, events: seq<Event>, i: nat, j: nat)
    requires j <= |events| <= |states|
  {
    exists k :: i < k < j && Clears(states[k], events[k]) && forall l :: k < l < j ==> !Casts(states[l], events[l])
  }

  lemma {:induction false} VoteHistory(states: seq<Server>, events: seq<Event>, i: nat, j: nat)
    requires IsRun(states, events) && i < j <= |events| && states[i + 1].votedFor.Some?
    ensures states[j].votedFor.None? <==> TakenBack(states, events, i, j)
    decreases j
  {
    hide Handle, Possible, Sound, Clears, Casts;
    if i + 1 < j {
      VoteHistory(states, events, i, j - 1);
      RunIsSound(states, events, j - 1);
      VoteStep(states[j - 1], events[j - 1]);
      TakenBackStep(states, events, i, j);
    }
  }

  lemma TakenBackStep(states: seq<Server>, events: seq<Event>, i: nat, j: nat)
    requires i + 1 < j <= |events| <= |states|
    ensures TakenBack(states, events, i, j) <==>
      Clears(states[j - 1], events[j - 1]) ||
      (!Casts(states[j - 1], events[j - 1]) && TakenBack(states, events, i, j - 1))
  {
    hide Clears, Casts;
    if TakenBack(states, events, i, j - 1) && !Casts(states[j - 1], events[j - 1]) {
      var k :| i < k < j - 1 && Clears(states[k], events[k]) &&
        forall l :: k < l < j - 1 ==> !Casts(states[l], events[l]);
      assert forall l :: k < l < j ==> !Casts(states[l], events[l]);
    }
    if TakenBack(states, events, i, j) && !Clears(states[j - 1], events[j - 1]) {
      var k :| i < k < j && Clears(states[k], events[k]) && forall l :: k < l < j ==> !Casts(states[l], events[l]);
      assert k < j - 1 && !Casts(states[j - 1], events[j - 1]);
    }
  }

  /** Over every run: a server that granted a vote for a term grants a later request of the
      same term, from anyone with a long enough log, if and only if its own term is still
      behind, or is that term and the vote was taken back in between: by winning, by stepping
      down, or by refusing a request of a larger term. */
  lemma SecondVoteInOneTerm(states: seq<Server>, events: seq<Event>, i: nat, j: nat)
    requires IsRun(states, events) && i < j < |events| && Grants(states[i], events[i])
    requires events[j].Receive? && events[j].msg.RequestVote? && events[j].msg.term == events[i].msg.term
    requires states[j].currentIdx <= events[j].msg.lastLogIdx
    ensures Grants(states[j], events[j]) <==>
      || states[j].term < events[j].msg.term
      || (states[j].term == events[j].msg.term && TakenBack(states, events, i, j))
  {
    hide Handle, Possible, Sound, Clears;
    RunIsSound(states, events, i);
    VoteStep(states[i], events[i]);
    VoteHistory(states, events, i, j);
  }
}
