// core/orchestrator/runtime_controller.py: the recovery lifecycle of one
// session.  A dead transport moves the session to RECOVERING and opens the
// recovery window; a reattach is gated by replay protection, then the rate
// limiter, then the window.
//
// The collaborators the source names are not the ones the repository
// defines, so they are wired to the modelled ones: the state machine is the
// table-driven TableMachine.Machine (its table a parameter), the replay gate
// is AntiReplay.AntiReplayWindow (a nonce passes iff it is accepted), the
// rate gate is RateLimiter.Limiter keyed by the session id with cost 1, and
// the metrics collaborator is the list of recovery marks it receives.
module RuntimeController {
  import opened OptionType
  import opened TableMachine
  import AntiReplay
  import RateLimiter
  import ReasonCodes

  /** A call on the metrics collaborator. */
  datatype Mark = RecoveryStartMark(tsMs: int) | RecoveryEndMark(tsMs: int)

  /** `_recovery_window_expired`: a death timestamp exists and strictly more
      than the window has passed since it. */
  predicate WindowExpired(deathTsMs: Option<int>, nowMs: int, maxRecoveryWindowMs: int)
  {
    deathTsMs.Some? && nowMs - deathTsMs.value > maxRecoveryWindowMs
  }

  /** Expiry is strict, never happens without a death timestamp, and once
      reached it holds at every later instant. */
  lemma WindowExpiryFacts(deathTsMs: Option<int>, nowMs: int, later: int, maxRecoveryWindowMs: int)
    requires nowMs <= later
    ensures deathTsMs.None? ==> !WindowExpired(deathTsMs, later, maxRecoveryWindowMs)
    ensures deathTsMs.Some? ==>
              !WindowExpired(deathTsMs, deathTsMs.value + maxRecoveryWindowMs, maxRecoveryWindowMs)
              && WindowExpired(deathTsMs, deathTsMs.value + maxRecoveryWindowMs + 1, maxRecoveryWindowMs)
    ensures WindowExpired(deathTsMs, nowMs, maxRecoveryWindowMs) ==>
              WindowExpired(deathTsMs, later, maxRecoveryWindowMs)
  {
  }

  /** The replay gate passes: the nonce is accepted for the session. */
  predicate ReplayAdmits(sessions: map<string, AntiReplay.ReplayState>, p: AntiReplay.Policy, sessionId: string, nonce: int)
  {
    AntiReplay.Decide(AntiReplay.StateOf(sessions, sessionId), Some(nonce), p.maxGap) == AntiReplay.Accept
  }

  /** The rate gate passes: one token is available after refilling. */
  predicate RateAdmits(buckets: map<string, RateLimiter.TokenBucket>, p: RateLimiter.Policy, key: string, nowMs: int)
  {
    var b := RateLimiter.Refill(RateLimiter.BucketOf(buckets, key, nowMs, p), nowMs, p);
    1.0 <= p.burst && b.tokens >= 1.0
  }

  /** The replay table after the gate accepted `nonce`: only the session's
      entry changes, to the nonce as last seen, the pruned set of tracked
      nonces with it added, and the exact least and greatest of that set. */
  predicate ReplayRecorded(before: map<string, AntiReplay.ReplayState>, after: map<string, AntiReplay.ReplayState>,
                           p: AntiReplay.Policy, sessionId: string, nonce: int)
  {
    var st0 := AntiReplay.StateOf(before, sessionId);
    nonce >= 0 && sessionId in after && after == before[sessionId := after[sessionId]]
    && after[sessionId].lastSeenNonce == nonce
    && after[sessionId].usedNonces == AntiReplay.Window(st0.usedNonces + {nonce as nat}, nonce, p.trackWindow)
    && AntiReplay.MinMaxExact(after[sessionId])
  }

  /** The bucket table after the rate gate ran for `key` with cost 1: the
      key's bucket is refilled at `nowMs`, less one token when it admits. */
  function RateCharged(buckets: map<string, RateLimiter.TokenBucket>, p: RateLimiter.Policy, key: string, nowMs: int)
    : map<string, RateLimiter.TokenBucket>
  {
    var b := RateLimiter.Refill(RateLimiter.BucketOf(buckets, key, nowMs, p), nowMs, p);
    buckets[key := if RateAdmits(buckets, p, key, nowMs) then b.(tokens := b.tokens - 1.0) else b]
  }

  /** The first two gates of a reattach: the replay gate, then, only if it
      accepts, the rate gate for the session with cost 1. */
  method ReattachGates(replay: AntiReplay.AntiReplayWindow, limiter: RateLimiter.Limiter,
                       sessionId: string, nonce: int, nowMs: int) returns (replayOk: bool, rateOk: bool)
    requires replay.Valid()
    modifies replay, limiter
    ensures replay.Valid()
    ensures replayOk <==> ReplayAdmits(old(replay.sessions), replay.policy, sessionId, nonce)
    ensures !replayOk ==>
              replay.sessions == old(replay.sessions)[sessionId := AntiReplay.StateOf(old(replay.sessions), sessionId)]
              && limiter.buckets == old(limiter.buckets) && !rateOk
    ensures replayOk ==>
              ReplayRecorded(old(replay.sessions), replay.sessions, replay.policy, sessionId, nonce)
              && limiter.buckets == RateCharged(old(limiter.buckets), limiter.policy, sessionId, nowMs)
              && (rateOk <==> RateAdmits(old(limiter.buckets), limiter.policy, sessionId, nowMs))
  {
    ghost var sessions0 := replay.sessions;
    var rr := replay.ValidateAndRecord(sessionId, Some(nonce));
    if rr.decision != AntiReplay.Accept {
      return false, false;
    }
    assert replay.sessions == sessions0[sessionId := replay.sessions[sessionId]];
    var rl := limiter.Check(sessionId, nowMs, 1.0);
    return true, rl.decision == RateLimiter.Allow;
  }

  /** A replayed nonce, however often it is presented, never reaches the rate
      gate: a nonce the gate accepted is refused the second time. */
  lemma AcceptedNonceIsNotAdmittedAgain(st: AntiReplay.ReplayState, sessions: map<string, AntiReplay.ReplayState>,
                                        p: AntiReplay.Policy, sessionId: string, nonce: int)
    requires sessionId in sessions && sessions[sessionId] == st && st.lastSeenNonce == nonce
    ensures !ReplayAdmits(sessions, p, sessionId, nonce)
  {
  }

  class Controller {
    const sessionId: string
    const maxRecoveryWindowMs: int
    const machine: Machine
    const limiter: RateLimiter.Limiter
    const replay: AntiReplay.AntiReplayWindow
    var metrics: seq<Mark>
    var transportAlive: bool
    var transportDeathTsMs: Option<int>

    ghost predicate Valid()
      reads this, replay
    {
      replay.Valid()
    }

    constructor (sessionId: string, maxRecoveryWindowMs: int, table: Table,
                 ratePolicy: RateLimiter.Policy, replayPolicy: AntiReplay.Policy)
      ensures Valid() && fresh(machine) && fresh(limiter) && fresh(replay)
      ensures this.sessionId == sessionId && this.maxRecoveryWindowMs == maxRecoveryWindowMs
      ensures machine.table == table && machine.state == Birth && machine.stateVersion == 0
      ensures limiter.policy == ratePolicy && limiter.buckets == map[]
      ensures replay.policy == replayPolicy && replay.sessions == map[]
      ensures metrics == [] && transportAlive && transportDeathTsMs == None
    {
      this.sessionId := sessionId;
      this.maxRecoveryWindowMs := maxRecoveryWindowMs;
      machine := new Machine(table);
      limiter := new RateLimiter.Limiter(Some(ratePolicy));
      replay := new AntiReplay.AntiReplayWindow(Some(replayPolicy));
      metrics := [];
      transportAlive := true;
      transportDeathTsMs := None;
    }

    /** The transport is declared dead.  A second report is ignored.  The
        first marks the transport dead and stamps the time before the state
        machine is asked for RECOVERING, so a refused transition (raised as
        an error) leaves those two fields changed and no metrics mark. */
    method OnTransportDead(nowMs: int) returns (raised: Option<string>)
      modifies this, machine
      ensures !old(transportAlive) ==>
                raised.None? && !transportAlive && transportDeathTsMs == old(transportDeathTsMs)
                && metrics == old(metrics)
                && machine.state == old(machine.state) && machine.stateVersion == old(machine.stateVersion)
      ensures old(transportAlive) ==>
                var st := Step(machine.table, old(machine.state), old(machine.stateVersion), Recovering,
                               ReasonCodes.Value(ReasonCodes.TransportDead));
                !transportAlive && transportDeathTsMs == Some(nowMs)
                && machine.state == st.0 && machine.stateVersion == st.1
                && (st.2.Moved? ==> raised.None? && metrics == old(metrics) + [RecoveryStartMark(nowMs)])
                && (st.2.Illegal? ==> raised == Some(st.2.message) && metrics == old(metrics))
    {
      if !transportAlive {
        return None;
      }
      transportAlive := false;
      transportDeathTsMs := Some(nowMs);
      var r := machine.Transition(Recovering, ReasonCodes.Value(ReasonCodes.TransportDead));
      if r.Illegal? {
        return Some(r.message);
      }
      metrics := metrics + [RecoveryStartMark(nowMs)];
      return None;
    }

    /** A reattach succeeded: only when ATTACHED is reachable, the transport
        is marked alive and the session attached.  The death timestamp stays. */
    method OnTransportRestored(nowMs: int)
      modifies this, machine
      ensures transportDeathTsMs == old(transportDeathTsMs)
      ensures !CanTransition(machine.table, old(machine.state), Attached) ==>
                transportAlive == old(transportAlive) && metrics == old(metrics)
                && machine.state == old(machine.state) && machine.stateVersion == old(machine.stateVersion)
      ensures CanTransition(machine.table, old(machine.state), Attached) ==>
                transportAlive && machine.state == Attached && machine.stateVersion == old(machine.stateVersion) + 1
                && metrics == old(metrics) + [RecoveryEndMark(nowMs)]
    {
      if !CanTransition(machine.table, machine.state, Attached) {
        return;
      }
      transportAlive := true;
      var r := machine.Transition(Attached, ReasonCodes.Value(ReasonCodes.ReattachSuccess));
      metrics := metrics + [RecoveryEndMark(nowMs)];
    }

    /** The gates in order: replay, rate, recovery window.  The first gate
        that refuses ends the attempt, so later gates are not consulted; an
        expired window also asks the state machine for TERMINATED. */
    method AttemptReattach(nonce: int, nowMs: int) returns (allowed: bool, raised: Option<string>)
      requires Valid()
      modifies replay, limiter, machine
      ensures Valid()
      ensures allowed <==>
                ReplayAdmits(old(replay.sessions), replay.policy, sessionId, nonce)
                && RateAdmits(old(limiter.buckets), limiter.policy, sessionId, nowMs)
                && !WindowExpired(transportDeathTsMs, nowMs, maxRecoveryWindowMs)
      ensures ReplayAdmits(old(replay.sessions), replay.policy, sessionId, nonce) ==>
                ReplayRecorded(old(replay.sessions), replay.sessions, replay.policy, sessionId, nonce)
                && limiter.buckets == RateCharged(old(limiter.buckets), limiter.policy, sessionId, nowMs)
      ensures !ReplayAdmits(old(replay.sessions), replay.policy, sessionId, nonce) ==>
                replay.sessions == old(replay.sessions)[sessionId := AntiReplay.StateOf(old(replay.sessions), sessionId)]
                && raised.None? && limiter.buckets == old(limiter.buckets)
                && machine.state == old(machine.state) && machine.stateVersion == old(machine.stateVersion)
      ensures ReplayAdmits(old(replay.sessions), replay.policy, sessionId, nonce)
              && !RateAdmits(old(limiter.buckets), limiter.policy, sessionId, nowMs) ==>
                raised.None? && machine.state == old(machine.state) && machine.stateVersion == old(machine.stateVersion)
      ensures ReplayAdmits(old(replay.sessions), replay.policy, sessionId, nonce)
              && RateAdmits(old(limiter.buckets), limiter.policy, sessionId, nowMs)
              && WindowExpired(transportDeathTsMs, nowMs, maxRecoveryWindowMs) ==>
                var st := Step(machine.table, old(machine.state), old(machine.stateVersion), Terminated,
                               ReasonCodes.Value(ReasonCodes.RecoveryWindowExpired));
                machine.state == st.0 && machine.stateVersion == st.1
                && (raised.Some? <==> st.2.Illegal?)
      ensures allowed ==>
                raised.None? && machine.state == old(machine.state) && machine.stateVersion == old(machine.stateVersion)
    {
      var replayOk, rateOk := ReattachGates(replay, limiter, sessionId, nonce, nowMs);
      if !replayOk || !rateOk {
        return false, None;
      }
      if WindowExpired(transportDeathTsMs, nowMs, maxRecoveryWindowMs) {
        var r := machine.Transition(Terminated, ReasonCodes.Value(ReasonCodes.RecoveryWindowExpired));
        if r.Illegal? {
          return false, Some(r.message);
        }
        return false, None;
      }
      return true, None;
    }

    /** Terminates a RECOVERING session whose window has expired; otherwise
        nothing changes. */
    method EnforcePolicy(nowMs: int) returns (raised: Option<string>)
      modifies machine
      ensures !(old(machine.state) == Recovering && WindowExpired(transportDeathTsMs, nowMs, maxRecoveryWindowMs)) ==>
                machine.state == old(machine.state) && machine.stateVersion == old(machine.stateVersion) && raised.None?
      ensures old(machine.state) == Recovering && WindowExpired(transportDeathTsMs, nowMs, maxRecoveryWindowMs) ==>
                var st := Step(machine.table, Recovering, old(machine.stateVersion), Terminated,
                               ReasonCodes.Value(ReasonCodes.RecoveryWindowExpired));
                machine.state == st.0 && machine.stateVersion == st.1 && (raised.Some? <==> st.2.Illegal?)
    {
      if machine.state == Recovering && WindowExpired(transportDeathTsMs, nowMs, maxRecoveryWindowMs) {
        var r := machine.Transition(Terminated, ReasonCodes.Value(ReasonCodes.RecoveryWindowExpired));
        if r.Illegal? {
          return Some(r.message);
        }
      }
      return None;
    }
  }

  /** A table under which the whole lifecycle can run: ATTACHED may enter
      RECOVERING (the shipped demo table forbids that step). */
  function RecoveryTable(): (t: Table)
    ensures CanTransition(t, Birth, Attached) && CanTransition(t, Attached, Recovering)
    ensures CanTransition(t, Recovering, Attached) && CanTransition(t, Recovering, Terminated)
    ensures Terminated !in t
  {
    map[Birth := [Attached], Attached := [Recovering, Terminated], Recovering := [Attached, Terminated]]
  }

  /** Attach, lose the transport, reattach with nonce 1, replay nonce 1, and
      let the window run out: the replay is refused without touching the
      rate limiter, and the policy check then terminates the session. */
  method LifecycleScenario() returns (first: bool, replayed: bool, finalState: DemoState, finalVersion: int)
    ensures first && !replayed && finalState == Terminated && finalVersion == 3
  {
    var c := new Controller("s1", 5000, RecoveryTable(), RateLimiter.Policy(1.0, 2.0), AntiReplay.Policy(8, 16));
    c.OnTransportRestored(0);
    assert c.machine.state == Attached;
    var raised := c.OnTransportDead(100);
    assert c.machine.state == Recovering && c.machine.stateVersion == 2;
    assert AntiReplay.StateOf(c.replay.sessions, "s1") == AntiReplay.FreshState;
    assert RateLimiter.BucketOf(c.limiter.buckets, "s1", 200, c.limiter.policy) == RateLimiter.TokenBucket(2.0, 200);
    first, raised := c.AttemptReattach(1, 200);
    assert c.replay.sessions["s1"].lastSeenNonce == 1;
    replayed, raised := c.AttemptReattach(1, 300);
    raised := c.EnforcePolicy(5101);
    finalState := c.machine.state;
    finalVersion := c.machine.stateVersion;
  }
}
