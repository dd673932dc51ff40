// core/orchestrator/runtime_with_events.py: the recovery lifecycle of
// RuntimeController, emitting an audit event at each step.  The event bus is
// modelled by the list of events it receives, in order; each event carries
// the state machine's version at the moment it is emitted.
module RuntimeWithEvents {
  import opened OptionType
  import opened TableMachine
  import AntiReplay
  import RateLimiter
  import opened ReasonCodes
  import Errors
  import opened RuntimeController

  datatype EventType = SessionCreatedEvent | TransportDeadEvent | StateChangeEvent | TransportSwitchEvent
                     | SecurityRejectEvent | PolicyRejectEvent | ReattachAllowedEvent

  function EventTypeName(t: EventType): string
  {
    match t
    case SessionCreatedEvent => "SESSION_CREATED"
    case TransportDeadEvent => "TRANSPORT_DEAD"
    case StateChangeEvent => "STATE_CHANGE"
    case TransportSwitchEvent => "TRANSPORT_SWITCH"
    case SecurityRejectEvent => "SECURITY_REJECT"
    case PolicyRejectEvent => "POLICY_REJECT"
    case ReattachAllowedEvent => "REATTACH_ALLOWED"
  }

  datatype Event = Event(
    eventType: EventType,
    sessionId: string,
    stateVersion: int,
    reasonCode: string,
    details: map<string, Errors.Detail>)

  class EventedController {
    const sessionId: string
    const maxRecoveryWindowMs: int
    const machine: Machine
    const limiter: RateLimiter.Limiter
    const replay: AntiReplay.AntiReplayWindow
    var metrics: seq<Mark>
    var transportAlive: bool
    var transportDeathTsMs: Option<int>
    var events: seq<Event>

    ghost predicate Valid()
      reads this, replay
    {
      replay.Valid()
    }

    /** The event `_emit` hands to the bus. */
    function MakeEvent(t: EventType, reason: ReasonCode, details: map<string, Errors.Detail>): (e: Event)
      reads this, machine
      ensures e.eventType == t && e.sessionId == sessionId && e.stateVersion == machine.stateVersion
      ensures e.reasonCode == Value(reason) && e.details == details
    {
      Event(t, sessionId, machine.stateVersion, Value(reason), details)
    }

    /** Construction emits exactly one SESSION_CREATED event. */
    constructor (sessionId: string, maxRecoveryWindowMs: int, table: Table,
                 ratePolicy: RateLimiter.Policy, replayPolicy: AntiReplay.Policy)
      ensures Valid() && fresh(machine) && fresh(limiter) && fresh(replay)
      ensures this.sessionId == sessionId && this.maxRecoveryWindowMs == maxRecoveryWindowMs
      ensures machine.table == table && machine.state == Birth && machine.stateVersion == 0
      ensures limiter.policy == ratePolicy && limiter.buckets == map[]
      ensures replay.policy == replayPolicy && replay.sessions == map[]
      ensures metrics == [] && transportAlive && transportDeathTsMs == None
      ensures events == [Event(SessionCreatedEvent, sessionId, 0, "SESSION_CREATED", map[])]
    {
      this.sessionId := sessionId;
      this.maxRecoveryWindowMs := maxRecoveryWindowMs;
      machine := new Machine(table);
      limiter := new RateLimiter.Limiter(Some(ratePolicy));
      replay := new AntiReplay.AntiReplayWindow(Some(replayPolicy));
      metrics := [];
      transportAlive := true;
      transportDeathTsMs := None;
      events := [Event(SessionCreatedEvent, sessionId, 0, Value(SessionCreated), map[])];
    }

    /** As RuntimeController.Controller.OnTransportDead; an effective call
        then emits TRANSPORT_DEAD and STATE_CHANGE(to RECOVERING), a repeated
        one emits nothing. */
    method OnTransportDead(nowMs: int) returns (raised: Option<string>)
      modifies this, machine
      ensures !old(transportAlive) ==>
                raised.None? && !transportAlive && transportDeathTsMs == old(transportDeathTsMs)
                && metrics == old(metrics) && events == old(events)
                && machine.state == old(machine.state) && machine.stateVersion == old(machine.stateVersion)
      ensures old(transportAlive) ==>
                var st := Step(machine.table, old(machine.state), old(machine.stateVersion), Recovering, Value(TransportDead));
                !transportAlive && transportDeathTsMs == Some(nowMs)
                && machine.state == st.0 && machine.stateVersion == st.1
                && (st.2.Illegal? ==> raised == Some(st.2.message) && metrics == old(metrics) && events == old(events))
                && (st.2.Moved? ==>
                      raised.None? && metrics == old(metrics) + [RecoveryStartMark(nowMs)]
                      && events == old(events) + [
                           Event(TransportDeadEvent, sessionId, st.1, "TRANSPORT_DEAD", map["now_ms" := Errors.DInt(nowMs)]),
                           Event(StateChangeEvent, sessionId, st.1, "TRANSPORT_DEAD", map["to" := Errors.DStr("RECOVERING")])])
    {
      if !transportAlive {
        return None;
      }
      transportAlive := false;
      transportDeathTsMs := Some(nowMs);
      var r := machine.Transition(Recovering, Value(TransportDead));
      if r.Illegal? {
        return Some(r.message);
      }
      metrics := metrics + [RecoveryStartMark(nowMs)];
      events := events + [MakeEvent(TransportDeadEvent, TransportDead, map["now_ms" := Errors.DInt(nowMs)])];
      events := events + [MakeEvent(StateChangeEvent, TransportDead, map["to" := Errors.DStr("RECOVERING")])];
      return None;
    }

    /** As RuntimeController.Controller.OnTransportRestored; when ATTACHED is
        reachable it emits TRANSPORT_SWITCH and STATE_CHANGE(to ATTACHED). */
    method OnTransportRestored(nowMs: int)
      modifies this, machine
      ensures transportDeathTsMs == old(transportDeathTsMs)
      ensures !CanTransition(machine.table, old(machine.state), Attached) ==>
                transportAlive == old(transportAlive) && metrics == old(metrics) && events == old(events)
                && machine.state == old(machine.state) && machine.stateVersion == old(machine.stateVersion)
      ensures CanTransition(machine.table, old(machine.state), Attached) ==>
                var v := old(machine.stateVersion) + 1;
                transportAlive && machine.state == Attached && machine.stateVersion == v
                && metrics == old(metrics) + [RecoveryEndMark(nowMs)]
                && events == old(events) + [
                     Event(TransportSwitchEvent, sessionId, v, "REATTACH_SUCCESS", map["now_ms" := Errors.DInt(nowMs)]),
                     Event(StateChangeEvent, sessionId, v, "REATTACH_SUCCESS", map["to" := Errors.DStr("ATTACHED")])]
    {
      if !CanTransition(machine.table, machine.state, Attached) {
        return;
      }
      transportAlive := true;
      var r := machine.Transition(Attached, Value(ReattachSuccess));
      metrics := metrics + [RecoveryEndMark(nowMs)];
      events := events + [MakeEvent(TransportSwitchEvent, ReattachSuccess, map["now_ms" := Errors.DInt(nowMs)])];
      events := events + [MakeEvent(StateChangeEvent, ReattachSuccess, map["to" := Errors.DStr("ATTACHED")])];
    }

    /** The same three gates as RuntimeController.Controller.AttemptReattach,
        each outcome announced by one event. */
    method AttemptReattach(nonce: int, nowMs: int) returns (allowed: bool, raised: Option<string>)
      requires Valid()
      modifies this, replay, limiter, machine
      ensures Valid()
      ensures transportAlive == old(transportAlive) && transportDeathTsMs == old(transportDeathTsMs) && metrics == old(metrics)
      ensures allowed <==>
                ReplayAdmits(old(replay.sessions), replay.policy, sessionId, nonce)
                && RateAdmits(old(limiter.buckets), limiter.policy, sessionId, nowMs)
                && !WindowExpired(transportDeathTsMs, nowMs, maxRecoveryWindowMs)
      ensures ReplayAdmits(old(replay.sessions), replay.policy, sessionId, nonce) ==>
                ReplayRecorded(old(replay.sessions), replay.sessions, replay.policy, sessionId, nonce)
                && limiter.buckets == RateCharged(old(limiter.buckets), limiter.policy, sessionId, nowMs)
      ensures !ReplayAdmits(old(replay.sessions), replay.policy, sessionId, nonce) ==>
                replay.sessions == old(replay.sessions)[sessionId := AntiReplay.StateOf(old(replay.sessions), sessionId)]
                && raised.None? && limiter.buckets == old(limiter.buckets)
                && machine.state == old(machine.state) && machine.stateVersion == old(machine.stateVersion)
                && events == old(events) + [Event(SecurityRejectEvent, sessionId, old(machine.stateVersion),
                                                  "REPLAY_REJECTED", map["nonce" := Errors.DInt(nonce)])]
      ensures ReplayAdmits(old(replay.sessions), replay.policy, sessionId, nonce)
              && !RateAdmits(old(limiter.buckets), limiter.policy, sessionId, nowMs) ==>
                raised.None? && machine.state == old(machine.state) && machine.stateVersion == old(machine.stateVersion)
                && events == old(events) + [Event(PolicyRejectEvent, sessionId, old(machine.stateVersion),
                                                  "SWITCH_RATE_LIMIT", map["now_ms" := Errors.DInt(nowMs)])]
      ensures ReplayAdmits(old(replay.sessions), replay.policy, sessionId, nonce)
              && RateAdmits(old(limiter.buckets), limiter.policy, sessionId, nowMs)
              && WindowExpired(transportDeathTsMs, nowMs, maxRecoveryWindowMs) ==>
                var st := Step(machine.table, old(machine.state), old(machine.stateVersion), Terminated,
                               Value(RecoveryWindowExpired));
                machine.state == st.0 && machine.stateVersion == st.1
                && (st.2.Illegal? ==> raised == Some(st.2.message) && events == old(events))
                && (st.2.Moved? ==>
                      raised.None? && events == old(events) + [Event(StateChangeEvent, sessionId, st.1,
                                                                     "RECOVERY_WINDOW_EXPIRED", map["to" := Errors.DStr("TERMINATED")])])
      ensures allowed ==>
                raised.None? && machine.state == old(machine.state) && machine.stateVersion == old(machine.stateVersion)
                && events == old(events) + [Event(ReattachAllowedEvent, sessionId, old(machine.stateVersion), "REATTACH_ALLOWED",
                                                  map["nonce" := Errors.DInt(nonce), "now_ms" := Errors.DInt(nowMs)])]
    {
      var replayOk, rateOk := ReattachGates(replay, limiter, sessionId, nonce, nowMs);
      if !replayOk {
        events := events + [MakeEvent(SecurityRejectEvent, ReplayRejected, map["nonce" := Errors.DInt(nonce)])];
        return false, None;
      }
      if !rateOk {
        events := events + [MakeEvent(PolicyRejectEvent, SwitchRateLimit, map["now_ms" := Errors.DInt(nowMs)])];
        return false, None;
      }
      allowed, raised := WindowGate(nonce, nowMs);
    }

    /** The last gate of a reattach, reached after the replay and rate gates passed. */
    method WindowGate(nonce: int, nowMs: int) returns (allowed: bool, raised: Option<string>)
      modifies this, machine
      ensures transportAlive == old(transportAlive) && transportDeathTsMs == old(transportDeathTsMs) && metrics == old(metrics)
      ensures allowed <==> !WindowExpired(transportDeathTsMs, nowMs, maxRecoveryWindowMs)
      ensures WindowExpired(transportDeathTsMs, nowMs, maxRecoveryWindowMs) ==>
                var st := Step(machine.table, old(machine.state), old(machine.stateVersion), Terminated,
                               Value(RecoveryWindowExpired));
                machine.state == st.0 && machine.stateVersion == st.1
                && (st.2.Illegal? ==> raised == Some(st.2.message) && events == old(events))
                && (st.2.Moved? ==>
                      raised.None? && events == old(events) + [Event(StateChangeEvent, sessionId, st.1,
                                                                     "RECOVERY_WINDOW_EXPIRED", map["to" := Errors.DStr("TERMINATED")])])
      ensures allowed ==>
                raised.None? && machine.state == old(machine.state) && machine.stateVersion == old(machine.stateVersion)
                && events == old(events) + [Event(ReattachAllowedEvent, sessionId, old(machine.stateVersion), "REATTACH_ALLOWED",
                                                  map["nonce" := Errors.DInt(nonce), "now_ms" := Errors.DInt(nowMs)])]
    {
      if WindowExpired(transportDeathTsMs, nowMs, maxRecoveryWindowMs) {
        var r := machine.Transition(Terminated, Value(RecoveryWindowExpired));
        if r.Illegal? {
          return false, Some(r.message);
        }
        events := events + [MakeEvent(StateChangeEvent, RecoveryWindowExpired, map["to" := Errors.DStr("TERMINATED")])];
        return false, None;
      }
      events := events + [MakeEvent(ReattachAllowedEvent, ReattachAllowed,
                                    map["nonce" := Errors.DInt(nonce), "now_ms" := Errors.DInt(nowMs)])];
      return true, None;
    }

    /** As RuntimeController.Controller.EnforcePolicy, announcing the
        termination with STATE_CHANGE(to TERMINATED). */
    method EnforcePolicy(nowMs: int) returns (raised: Option<string>)
      modifies this, machine
      ensures transportAlive == old(transportAlive) && transportDeathTsMs == old(transportDeathTsMs) && metrics == old(metrics)
      ensures !(old(machine.state) == Recovering && WindowExpired(transportDeathTsMs, nowMs, maxRecoveryWindowMs)) ==>
                machine.state == old(machine.state) && machine.stateVersion == old(machine.stateVersion)
                && raised.None? && events == old(events)
      ensures old(machine.state) == Recovering && WindowExpired(transportDeathTsMs, nowMs, maxRecoveryWindowMs) ==>
                var st := Step(machine.table, Recovering, old(machine.stateVersion), Terminated, Value(RecoveryWindowExpired));
                machine.state == st.0 && machine.stateVersion == st.1
                && (st.2.Illegal? ==> raised == Some(st.2.message) && events == old(events))
                && (st.2.Moved? ==>
                      raised.None? && events == old(events) + [Event(StateChangeEvent, sessionId, st.1,
                                                                     "RECOVERY_WINDOW_EXPIRED", map["to" := Errors.DStr("TERMINATED")])])
    {
      if machine.state == Recovering && WindowExpired(transportDeathTsMs, nowMs, maxRecoveryWindowMs) {
        var r := machine.Transition(Terminated, Value(RecoveryWindowExpired));
        if r.Illegal? {
          return Some(r.message);
        }
        events := events + [MakeEvent(StateChangeEvent, RecoveryWindowExpired, map["to" := Errors.DStr("TERMINATED")])];
      }
      return None;
    }
  }

  function Kinds(es: seq<Event>): (ks: seq<EventType>)
    ensures |ks| == |es| && forall i :: 0 <= i < |es| ==> ks[i] == es[i].eventType
  {
    seq(|es|, i requires 0 <= i < |es| => es[i].eventType)
  }

  /** The evented lifecycle: created, attached, transport lost, one allowed
      reattach, a replay refused; seven events in that order. */
  method EventedScenario() returns (kinds: seq<EventType>)
    ensures kinds == [SessionCreatedEvent, TransportSwitchEvent, StateChangeEvent, TransportDeadEvent, StateChangeEvent,
                      ReattachAllowedEvent, SecurityRejectEvent]
  {
    var c := new EventedController("s1", 5000, RecoveryTable(), RateLimiter.Policy(1.0, 2.0), AntiReplay.Policy(8, 16));
    c.OnTransportRestored(0);
    assert |c.events| == 3;
    var raised := c.OnTransportDead(100);
    assert |c.events| == 5;
    assert AntiReplay.StateOf(c.replay.sessions, "s1") == AntiReplay.FreshState;
    assert RateLimiter.BucketOf(c.limiter.buckets, "s1", 200, c.limiter.policy) == RateLimiter.TokenBucket(2.0, 200);
    var ok;
    ok, raised := c.AttemptReattach(1, 200);
    assert |c.events| == 6 && c.events[5].eventType == ReattachAllowedEvent;
    assert c.replay.sessions["s1"].lastSeenNonce == 1;
    ok, raised := c.AttemptReattach(1, 300);
    assert |c.events| == 7 && c.events[6].eventType == SecurityRejectEvent;
    kinds := Kinds(c.events);
  }
}
