/**
 What the state machine is given through `applylog`: when it is the log's applied prefix,
 in order and once each, and when the commit index falls.
 */
module Delivery {
  import opened RaftTypes
  import opened RaftLog
  import opened ServerSteps
  import opened ServerTheorems
  import opened Responses

  /** `given` is the applied prefix of the log. */
  predicate InOrder(s: Server, given: seq<Payload>) {
    s.applied <= |s.log| && given == Payloads(s.log[..s.applied])
  }

  /** The applied entries that a message cuts off are sent again with it, unchanged. */
  predicate SendsAgain(s: Server, m: Message)
    requires m.AppendEntries? && Accepts(s, m) && s.applied <= |s.log|
  {
    var kept := Kept(s.log, m);
    s.applied <= |kept| + Usable(m.entries) &&
    forall k :: |kept| <= k < s.applied ==> m.entries[k - |kept|].data == s.log[k].data
  }

  /** What an AppendEntries must be for the delivery to stay in order. */
  predicate Orderly(s: Server, m: Message)
    requires m.AppendEntries? && Accepts(s, m) && s.applied <= |s.log|
  {
    SendsAgain(s, m) && (CommitFires(s, m) ==> Kept(s.log, m)[|Kept(s.log, m)| - 1].id == s.applied)
  }

  /** The commit block alone: with the applied prefix given so far, firing keeps the order
      exactly when the tail's id is the applied index. */
  lemma CommitBlockInOrder(s: Server, leaderCommit: int, given: seq<Payload>)
    requires s.commit == s.applied < leaderCommit && s.log != [] && InOrder(s, given)
    ensures var (t, p) := CommitFromLeader(s, leaderCommit);
      InOrder(t, given + p) <==> s.log[|s.log| - 1].id == s.applied
  {
    CommitFromLeaderEffect(s, leaderCommit);
    var (t, p) := CommitFromLeader(s, leaderCommit);
    var idx := Min(s.log[|s.log| - 1].id, leaderCommit);
    if idx <= |s.log| { assert |given + p| == s.applied + |s.log| - idx; }
    if idx == s.applied { assert s.log[..|s.log|] == s.log[..idx] + s.log[idx..]; }
  }

  lemma PrefixAgain(s: Server, m: Message, log: seq<Entry>)
    requires m.AppendEntries? && Accepts(s, m) && s.applied <= |s.log|
    requires log == Kept(s.log, m) + Stamped(m.entries[..Usable(m.entries)], m.term)
    ensures SendsAgain(s, m) <==> s.applied <= |log| && Payloads(log[..s.applied]) == Payloads(s.log[..s.applied])
  {
    hide Payloads, Stamped, Usable;
    var kept := Kept(s.log, m);
    forall k | 0 <= k < s.applied && k < |log|
      ensures log[k].data == if k < |kept| then s.log[k].data else m.entries[k - |kept|].data
    {
      if k < |kept| {
        assert log[k] == kept[k];
      } else {
        assert log[k] == Stamped(m.entries[..Usable(m.entries)], m.term)[k - |kept|];
      }
    }
    if s.applied <= |log| {
      SamePayloads(log[..s.applied], s.log[..s.applied]);
      forall k | 0 <= k < s.applied ensures log[..s.applied][k] == log[k] && s.log[..s.applied][k] == s.log[k] {}
    }
  }

  lemma SamePayloads(a: seq<Entry>, b: seq<Entry>)
    requires |a| == |b|
    ensures Payloads(a) == Payloads(b) <==> forall k :: 0 <= k < |a| ==> a[k].data == b[k].data
  {
    if Payloads(a) == Payloads(b) {
      forall k | 0 <= k < |a| ensures a[k].data == b[k].data { assert Payloads(a)[k] == Payloads(b)[k]; }
    }
  }

  lemma FiringInOrder(s: Server, m: Message, given: seq<Payload>, log: seq<Entry>, idx: nat)
    requires m.AppendEntries? && Accepts(s, m) && s.commit == s.applied && InOrder(s, given) && CommitFires(s, m)
    requires log == Kept(s.log, m) + Stamped(m.entries[..Usable(m.entries)], m.term)
    requires idx == Min(Kept(s.log, m)[|Kept(s.log, m)| - 1].id, m.leaderCommit)
    ensures var kept := Kept(s.log, m); var to := Max(idx, |kept|); var p := Payloads(kept[Min(idx, |kept|)..]);
      (to <= |log| && given + p == Payloads(log[..to])) <==> Orderly(s, m)
  {
    hide Payloads;
    var kept := Kept(s.log, m);
    var to, lo := Max(idx, |kept|), Min(idx, |kept|);
    var p := Payloads(kept[lo..]);
    PrefixAgain(s, m, log);
    if to <= |log| && given + p == Payloads(log[..to]) {
      assert |given| + |p| == to;
      assert idx == s.applied;
      assert Payloads(log[..s.applied]) == given by {
        forall k | 0 <= k < s.applied ensures Payloads(log[..s.applied])[k] == given[k] {
          assert (given + p)[k] == Payloads(log[..to])[k];
        }
      }
    }
    if Orderly(s, m) {
      assert idx == s.applied;
      assert log[..to] == log[..s.applied] + kept[lo..];
      PayloadsJoin(log[..s.applied], kept[lo..]);
    }
  }

  lemma PayloadsJoin(a: seq<Entry>, b: seq<Entry>)
    ensures Payloads(a + b) == Payloads(a) + Payloads(b)
  {
  }

  /** An accepted AppendEntries keeps the delivery in order exactly when it is orderly. */
  lemma AcceptingInOrder(s: Server, from: Key, restart: bool, m: Message, given: seq<Payload>)
    requires m.AppendEntries? && Accepts(s, m) && s.commit == s.applied && InOrder(s, given)
    ensures var o := OnAppendEntries(s, from, restart, m);
      InOrder(o.server, given + o.delivered) <==> Orderly(s, m)
  {
    hide OnAppendEntries, Payloads, Orderly, SendsAgain;
    AppendEntriesAccepted(s, from, restart, m);
    var log := Kept(s.log, m) + Stamped(m.entries[..Usable(m.entries)], m.term);
    if CommitFires(s, m) {
      FiringInOrder(s, m, given, log, Min(Kept(s.log, m)[|Kept(s.log, m)| - 1].id, m.leaderCommit));
    } else {
      PrefixAgain(s, m, log);
      QuietIsOrderly(s, m);
      assert given + [] == given;
    }
  }

  lemma QuietIsOrderly(s: Server, m: Message)
    requires m.AppendEntries? && Accepts(s, m) && s.applied <= |s.log| && !CommitFires(s, m)
    ensures Orderly(s, m) <==> SendsAgain(s, m)
  {
  }

  lemma ResponseInOrder(s: Server, from: Key, m: Message, given: seq<Payload>)
    requires s.commit == s.applied && m.AppendAccepted? && Markable(s, m) && InOrder(s, given)
    ensures var o := OnAppendAccepted(s, from, m); InOrder(o.server, given + o.delivered)
  {
    hide OnAppendAccepted, Payloads;
    ResponseEffect(s, from, m);
    var t := OnAppendAccepted(s, from, m).server;
    assert Payloads(t.log[..s.applied]) == Payloads(s.log[..s.applied]);
    assert t.log[..t.applied] == t.log[..s.applied] + t.log[s.applied..t.applied];
    PayloadsJoin(t.log[..s.applied], t.log[s.applied..t.applied]);
  }

  predicate Keeps(s: Server, e: Event) {
    e.Receive? && e.msg.AppendEntries? && Accepts(s, e.msg) && s.applied <= |s.log| ==> Orderly(s, e.msg)
  }

  /** One event of any kind. */
  lemma StepInOrder(s: Server, e: Event, given: seq<Payload>)
    requires Sound(s) && Possible(s, e) && InOrder(s, given)
    ensures var o := Handle(s, e); InOrder(o.server, given + o.delivered) <==> Keeps(s, e)
  {
    hide Payloads, Orderly;
    match e
    case Timer(ms, tj, ej) =>
      TimerEffect(s, ms, tj, ej);
      assert given + [] == given;
    case Submit(_, _) =>
      assert given + [] == given;
      assert Handle(s, e).server.log[..s.applied] == s.log[..s.applied];
    case Receive(k, restart, m) =>
      match m
      case AppendEntries(_, _, _, _, _) =>
        hide OnAppendEntries;
        if Accepts(s, m) {
          AcceptingInOrder(s, k, restart, m, given);
        } else {
          AppendEntriesRefused(s, k, restart, m);
          assert given + [] == given;
        }
      case AppendAccepted(_, _, _) => ResponseInOrder(s, k, m, given);
      case _ => assert given + [] == given;
  }

  /** Everything given to `applylog` in the first `n` events. */
  function Delivered(states: seq<Server>, events: seq<Event>, n: nat): seq<Payload>
    requires IsRun(states, events) && n <= |events|
  {
    if n == 0 then [] else Delivered(states, events, n - 1) + Handle(states[n - 1], events[n - 1]).delivered
  }

  /** Over every run: the state machine has, all along, been given exactly the applied
      prefix of the log, in order and once each, if and only if every AppendEntries accepted
      on the way was orderly.  Elections, ticks, refusals, client entries and responses of
      any shape, thrown or not, never disturb it. */
  lemma {:induction false} DeliveryInOrder(states: seq<Server>, events: seq<Event>, n: nat)
    requires IsRun(states, events) && n <= |events|
    ensures InOrderUpTo(states, events, n) <==> forall k :: 0 <= k < n ==> Keeps(states[k], events[k])
  {
    hide Handle, Possible, Sound, InOrder, Keeps;
    if n == 0 {
      NothingYet(states, events);
    } else {
      DeliveryInOrder(states, events, n - 1);
      RunIsSound(states, events, n - 1);
      var given := Delivered(states, events, n - 1);
      if InOrder(states[n - 1], given) {
        StepInOrder(states[n - 1], events[n - 1], given);
        assert InOrder(states[n], Delivered(states, events, n)) <==> Keeps(states[n - 1], events[n - 1]);
      }
      assert InOrderUpTo(states, events, n) <==>
        InOrderUpTo(states, events, n - 1) && InOrder(states[n], Delivered(states, events, n));
    }
  }

  predicate InOrderUpTo(states: seq<Server>, events: seq<Event>, n: nat)
    requires IsRun(states, events) && n <= |events|
  {
    forall k :: 0 <= k <= n ==> InOrder(states[k], Delivered(states, events, k))
  }

  lemma NothingYet(states: seq<Server>, events: seq<Event>)
    requires IsRun(states, events)
    ensures InOrder(states[0], Delivered(states, events, 0))
  {
  }

  /** The commit index falls exactly when an accepted AppendEntries fires its commit block
      over a kept log that is shorter, with a tail id that is smaller, than the index. */
  lemma CommitFalls(s: Server, e: Event)
    requires Sound(s) && Possible(s, e)
    ensures Handle(s, e).server.commit < s.commit <==>
      && e.Receive? && e.msg.AppendEntries? && Accepts(s, e.msg) && CommitFires(s, e.msg)
      && |Kept(s.log, e.msg)| < s.commit && Kept(s.log, e.msg)[|Kept(s.log, e.msg)| - 1].id < s.commit
  {
    hide Payloads, Advance, StoppedByLength, Heartbeats, VoteRequests, TermsInOrder, PrevMatches, Stamped;
    hide OnAppendAccepted, OnVoteReply, OnRequestVote;
    match e
    case Timer(ms, tj, ej) => TimerEffect(s, ms, tj, ej);
    case Submit(_, _) =>
    case Receive(k, restart, m) =>
      match m
      case AppendEntries(_, _, _, _, _) =>
        hide OnAppendEntries;
        if Accepts(s, m) { AppendEntriesAccepted(s, k, restart, m); } else { AppendEntriesRefused(s, k, restart, m); }
      case AppendAccepted(_, _, _) => ResponseEffect(s, k, m);
      case VoteReply(_, _) => VoteReplyKeepsCommit(s, k, m);
      case RequestVote(_, _, _, _) => RequestVoteDecides(s, k, m);
      case _ =>
  }

  lemma VoteReplyKeepsCommit(s: Server, from: Key, m: Message)
    requires m.VoteReply? && s.peers != []
    ensures OnVoteReply(s, from, m).server.commit == s.commit
  {
  }
}
