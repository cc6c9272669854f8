/**
 Timeouts: `FindClusterAndInit` of `tcp/raft_tcp_server.cpp` and what the ratios it
 enforces guarantee for ticks of `periodic`.
 */
module Timing {
  import opened RaftTypes
  import opened ServerSteps
  import opened ServerTheorems

  const MIN_REP_RATE_MS := 5
  const DEF_REP_RATE_MS := 2000
  const TIMEOUTS_RATIO_MIN := 11

  predicate Normalised(period: int, request: int, election: int) {
    MIN_REP_RATE_MS <= period <= request && TIMEOUTS_RATIO_MIN * request <= election
  }

  /** The timeout part of `FindClusterAndInit`: the least increase that normalises. */
  method NormaliseTimeouts(period: int, request: int, election: int) returns (p: int, r: int, e: int)
    ensures Normalised(p, r, e)
    ensures p == if MIN_REP_RATE_MS <= period then period else DEF_REP_RATE_MS
    ensures request <= r && election <= e
    ensures forall r', e' :: request <= r' && election <= e' && Normalised(p, r', e') ==> r <= r' && e <= e'
  {
    p, r, e := period, request, election;
    if p < MIN_REP_RATE_MS { p := DEF_REP_RATE_MS; }
    if r < p { r := p; }
    if e < TIMEOUTS_RATIO_MIN * r { e := TIMEOUTS_RATIO_MIN * r; }
  }

  /** An AppendEntries received over the network restarts the election timer. */
  predicate Restarts(e: Event) { e.Receive? && e.restartTimer && e.msg.AppendEntries? }

  /** Ticks since the last restart among the first `n` events. */
  function TicksSince(events: seq<Event>, n: nat): nat
    requires n <= |events|
  {
    if n == 0 then 0
    else if Restarts(events[n - 1]) then 0
    else TicksSince(events, n - 1) + if events[n - 1].Timer? then 1 else 0
  }

  predicate PeriodicRun(states: seq<Server>, events: seq<Event>, period: int) {
    && IsRun(states, events)
    && Normalised(period, states[0].requestTimeout, states[0].electionTimeout)
    && forall i :: 0 <= i < |events| && events[i].Timer? ==> events[i].msec == period
  }

  /** At most ten ticks pass between restarts. */
  predicate Fed(events: seq<Event>) {
    forall n :: 0 <= n <= |events| ==> TicksSince(events, n) < TIMEOUTS_RATIO_MIN
  }

  /** No event but a tick or an AppendEntries touches the timer or the timeouts. */
  lemma TimerFrame(s: Server, e: Event)
    requires Sound(s) && Possible(s, e)
    ensures var t := Handle(s, e).server;
      && t.requestTimeout == s.requestTimeout && t.electionTimeout == s.electionTimeout
      && (!e.Timer? ==> t.elapsed == if Restarts(e) then 0 else s.elapsed)
  {
    if e.Receive? {
      if e.msg.AppendAccepted? {
        var log := MarkRange(s.log, e.msg.firstIdx, e.msg.currentIdx).0;
        CommitLoopKeeps(s.(peers := WithNextIdx(s.peers, e.from, e.msg.currentIdx), log := log), e.msg.currentIdx);
      } else if e.msg.AppendEntries? {
        if Accepts(s, e.msg) {
          AppendEntriesAccepted(s, e.from, e.restartTimer, e.msg);
        } else {
          AppendEntriesRefused(s, e.from, e.restartTimer, e.msg);
        }
      }
    }
  }

  predicate Fires(s: Server, msec: int) {
    (if s.role.Leader? then s.requestTimeout else s.electionTimeout) <= s.elapsed + msec
  }

  /** A tick that does not fire only counts; one that fires on a leader broadcasts. */
  lemma TickFrame(s: Server, e: Event)
    requires Sound(s) && Possible(s, e) && e.Timer?
    ensures !Fires(s, e.msec) ==>
      Handle(s, e).server == s.(elapsed := s.elapsed + e.msec) && Handle(s, e).sent == []
    ensures Fires(s, e.msec) && s.role.Leader? ==>
      && Handle(s, e).server == s.(elapsed := 0, leaderCommit := s.leaderCommit + 1)
      && ReachesAll(s, Handle(s, e).sent)
  {
    TimerEffect(s, e.msec, e.termJitter, e.elapsedJitter);
  }

  lemma TicksBelowElection(k: nat, period: int, request: int, election: int, elapsed: int)
    requires Normalised(period, request, election) && k + 1 < TIMEOUTS_RATIO_MIN && elapsed <= k * period
    ensures 0 <= k * period && elapsed + period < election
  {
    assert (k + 1) * period <= 10 * period;
  }

  lemma QuietTick(states: seq<Server>, events: seq<Event>, period: int, n: nat)
    requires PeriodicRun(states, events, period) && n < |events| && Fed(events) && events[n].Timer?
    requires states[n].electionTimeout == states[0].electionTimeout
    requires states[n].elapsed <= TicksSince(events, n) * period
    ensures states[n + 1].term == states[n].term && states[n + 1].role == states[n].role
    ensures states[n + 1].elapsed <= TicksSince(events, n) * period + period
  {
    hide Handle, Sound;
    RunIsSound(states, events, n);
    TickFrame(states[n], events[n]);
    assert TicksSince(events, n + 1) == TicksSince(events, n) + 1;
    var s := states[0];
    TicksBelowElection(TicksSince(events, n), period, s.requestTimeout, s.electionTimeout, states[n].elapsed);
  }

  lemma {:induction false} ElapsedBound(states: seq<Server>, events: seq<Event>, period: int, n: nat)
    requires PeriodicRun(states, events, period) && n <= |events| && Fed(events)
    ensures states[n].electionTimeout == states[0].electionTimeout
    ensures states[n].elapsed <= TicksSince(events, n) * period
  {
    hide Handle, Sound;
    if n > 0 {
      ElapsedBound(states, events, period, n - 1);
      RunIsSound(states, events, n - 1);
      var s, e := states[n - 1], events[n - 1];
      TimerFrame(s, e);
      if e.Timer? {
        QuietTick(states, events, period, n - 1);
        assert TicksSince(events, n) * period == TicksSince(events, n - 1) * period + period;
      }
    }
  }

  /** With normalised timeouts, a server that hears an AppendEntries at least every
      ten ticks never starts an election: no tick of the run, however long, changes
      its term or role. */
  lemma FedServerNeverCampaigns(states: seq<Server>, events: seq<Event>, period: int, n: nat)
    requires PeriodicRun(states, events, period) && n < |events| && Fed(events) && events[n].Timer?
    ensures states[n + 1].term == states[n].term && states[n + 1].role == states[n].role
  {
    ElapsedBound(states, events, period, n);
    QuietTick(states, events, period, n);
  }

  // --- heartbeats ----------------------------------------------------------------------

  function Ticks(events: seq<Event>, a: nat, b: nat): nat
    requires a <= b <= |events|
    decreases b - a
  {
    if a == b then 0 else Ticks(events, a, b - 1) + if events[b - 1].Timer? then 1 else 0
  }

  /** The tick after state `i` sent every other member a heartbeat. */
  predicate Broadcast(states: seq<Server>, events: seq<Event>, i: nat) {
    && i < |events| && i < |states| && events[i].Timer? && Possible(states[i], events[i])
    && ReachesAll(states[i], Handle(states[i], events[i]).sent)
  }

  predicate Leads(states: seq<Server>, events: seq<Event>, a: nat, b: nat) {
    a <= b <= |events| < |states| && forall i :: a <= i <= b ==> states[i].role.Leader?
  }

  predicate HasOther(s: Server) { exists i :: 0 <= i < |s.peers| && !IsSelf(s, s.peers[i]) }

  /** The time on the clock before event `n` when it showed `start` before event `a` and
      nothing fired since: the ticks after the last restart. */
  function Counted(events: seq<Event>, a: nat, n: nat, start: int, period: int): int
    requires a <= n <= |events|
    decreases n - a
  {
    if n == a then start
    else if Restarts(events[n - 1]) then 0
    else Counted(events, a, n - 1, start, period) + if events[n - 1].Timer? then period else 0
  }

  /** The tick `i` finds the request timeout reached on that clock. */
  predicate Due(states: seq<Server>, events: seq<Event>, a: nat, i: nat, period: int)
    requires a <= i < |events| < |states|
  {
    events[i].Timer? && states[a].requestTimeout <= Counted(events, a, i, states[a].elapsed, period) + period
  }

  /** A leader's tick broadcasts if it fires, and only then if there is somebody to tell. */
  lemma LeaderTick(states: seq<Server>, events: seq<Event>, i: nat)
    requires IsRun(states, events) && i < |events| && events[i].Timer? && states[i].role.Leader?
    ensures Fires(states[i], events[i].msec) ==> Broadcast(states, events, i)
    ensures Broadcast(states, events, i) && HasOther(states[i]) ==> Fires(states[i], events[i].msec)
    ensures !Fires(states[i], events[i].msec) ==> states[i + 1].elapsed == states[i].elapsed + events[i].msec
  {
    hide Handle, Sound;
    RunIsSound(states, events, i);
    TickFrame(states[i], events[i]);
  }

  /** Until the first broadcast the clock shows what was counted. */
  lemma {:induction false} SilenceAddsUp(states: seq<Server>, events: seq<Event>, period: int, a: nat, n: nat)
    requires PeriodicRun(states, events, period) && Leads(states, events, a, n)
    requires forall i :: a <= i < n ==> !Broadcast(states, events, i)
    ensures states[n].elapsed == Counted(events, a, n, states[a].elapsed, period)
    ensures states[n].requestTimeout == states[a].requestTimeout
    decreases n - a
  {
    hide Handle, Sound, Broadcast, Possible;
    if a < n {
      SilenceAddsUp(states, events, period, a, n - 1);
      RunIsSound(states, events, n - 1);
      TimerFrame(states[n - 1], events[n - 1]);
      if events[n - 1].Timer? { LeaderTick(states, events, n - 1); }
    }
  }

  /** A broadcast, and no earlier one. */
  lemma {:induction false} FirstBroadcast(states: seq<Server>, events: seq<Event>, a: nat, b: nat) returns (i: nat)
    requires a <= b <= |events| && exists j :: a <= j < b && Broadcast(states, events, j)
    ensures a <= i < b && Broadcast(states, events, i) && forall j :: a <= j < i ==> !Broadcast(states, events, j)
    decreases b - a
  {
    hide Broadcast;
    if exists j :: a <= j < b - 1 && Broadcast(states, events, j) {
      i := FirstBroadcast(states, events, a, b - 1);
    } else {
      i := b - 1;
    }
  }

  lemma OthersStay(states: seq<Server>, events: seq<Event>, a: nat, i: nat)
    requires IsRun(states, events) && a <= i < |states| && HasOther(states[a])
    ensures HasOther(states[i])
  {
    hide Handle, Possible;
    RunMovesForward(states, events, a, i);
    var j :| 0 <= j < |states[a].peers| && !IsSelf(states[a], states[a].peers[j]);
    assert !IsSelf(states[i], states[i].peers[j]);
  }

  /** A leader that is not alone sends a heartbeat during a stretch of its leadership if and
      only if some tick of the stretch is due: the ticks since the last AppendEntries that
      came in, of whatever term, add up to the request timeout. */
  lemma HeartbeatsExactly(states: seq<Server>, events: seq<Event>, period: int, a: nat, b: nat)
    requires PeriodicRun(states, events, period) && Leads(states, events, a, b) && HasOther(states[a])
    ensures (exists i :: a <= i < b && Broadcast(states, events, i)) <==>
      exists i :: a <= i < b && Due(states, events, a, i, period)
  {
    hide Handle, Possible, Broadcast;
    if exists i :: a <= i < b && Broadcast(states, events, i) {
      var i := FirstBroadcast(states, events, a, b);
      SilenceAddsUp(states, events, period, a, i);
      BroadcastIsTick(states, events, i);
      LeaderTick(states, events, i);
      OthersStay(states, events, a, i);
      assert Due(states, events, a, i, period);
    }
    if i :| a <= i < b && Due(states, events, a, i, period) { DueBroadcasts(states, events, period, a, b, i); }
  }

  lemma DueBroadcasts(states: seq<Server>, events: seq<Event>, period: int, a: nat, b: nat, i: nat)
    requires PeriodicRun(states, events, period) && Leads(states, events, a, b)
    requires a <= i < b && Due(states, events, a, i, period)
    ensures exists j :: a <= j < b && Broadcast(states, events, j)
  {
    hide Handle, Possible, Broadcast;
    if forall j :: a <= j < i ==> !Broadcast(states, events, j) {
      SilenceAddsUp(states, events, period, a, i);
      LeaderTick(states, events, i);
    }
  }

  lemma BroadcastIsTick(states: seq<Server>, events: seq<Event>, i: nat)
    requires Broadcast(states, events, i)
    ensures i < |events| && events[i].Timer?
  {
  }

  lemma {:induction false} CountedTicks(events: seq<Event>, a: nat, n: nat, start: int, period: int)
    requires a <= n <= |events| && forall i :: a <= i < n ==> !Restarts(events[i])
    ensures Counted(events, a, n, start, period) == start + Ticks(events, a, n) * period
    decreases n - a
  {
    if a < n {
      CountedTicks(events, a, n - 1, start, period);
      var k := Ticks(events, a, n - 1);
      assert (k + 1) * period == k * period + period;
    }
  }

  lemma {:induction false} LastTick(events: seq<Event>, a: nat, b: nat) returns (i: nat)
    requires a <= b <= |events| && Ticks(events, a, b) > 0
    ensures a <= i < b && events[i].Timer? && Ticks(events, a, i) + 1 == Ticks(events, a, b)
    decreases b - a
  {
    if events[b - 1].Timer? { i := b - 1; } else { i := LastTick(events, a, b - 1); }
  }

  lemma {:induction false} ElapsedNonNegative(states: seq<Server>, events: seq<Event>, n: nat)
    requires IsRun(states, events) && n <= |events|
    ensures states[n].elapsed >= 0
  {
    if n > 0 {
      ElapsedNonNegative(states, events, n - 1);
      RunIsSound(states, events, n - 1);
      TimerFrame(states[n - 1], events[n - 1]);
    }
  }

  /** While no AppendEntries comes in, a leader heartbeats at least once in every stretch
      holding ceil(request_timeout / period) ticks. */
  lemma LeaderHeartbeats(states: seq<Server>, events: seq<Event>, period: int, a: nat, b: nat)
    requires PeriodicRun(states, events, period) && Leads(states, events, a, b)
    requires forall i :: a <= i < b ==> !Restarts(events[i])
    requires 0 < states[a].requestTimeout <= Ticks(events, a, b) * period
    ensures exists i :: a <= i < b && Broadcast(states, events, i)
  {
    hide Handle, Possible, Broadcast, Restarts;
    var i := LastTick(events, a, b);
    ElapsedNonNegative(states, events, a);
    CountedTicks(events, a, i, states[a].elapsed, period);
    assert Ticks(events, a, b) * period == Ticks(events, a, i) * period + period;
    DueBroadcasts(states, events, period, a, b, i);
  }
}
