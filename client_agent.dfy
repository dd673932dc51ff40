// core/client/agent.py: the client side of a session.  The agent holds at
// most one session context, moves it through the lifecycle on health
// signals and reattach outcomes, enforces a local switch cooldown and
// numbers its reattach requests with a monotonic nonce.
//
// Every wall-clock read of the source is the explicit `nowMs` parameter.
// Event emission is a no-op in the source and is not modelled.  A call
// without a session raises; here it returns the error message and changes
// nothing.
module ClientAgent {
  import opened OptionType
  import opened Models
  import ReasonCodes

  const NoSessionMessage := "ClientAgent has no active session"

  /** The fields of a client session, as one value. */
  datatype SessionView = SessionView(
    sessionId: string,
    state: SessionState,
    stateVersion: int,
    policy: PolicySnapshot,
    activeTransport: Option<TransportBinding>,
    createdTsMs: int,
    lastActivityTsMs: int,
    lastSwitchTsMs: int,
    nonce: int)

  /** The candidate part of a reattach request. */
  datatype CandidatePayload = CandidatePayload(transportId: string, remoteIp: string, remotePort: int, proto: string)

  /** What `build_reattach_request` returns: a request, or the error payload
      of the local cooldown. */
  datatype Payload =
    | ReattachRequest(sessionId: string, nonce: int, proof: string, candidate: CandidatePayload)
    | ErrorPayload(reason: string, message: string)

  function CandidateOf(t: TransportBinding): CandidatePayload
  {
    CandidatePayload(t.transportId, t.remoteIp, t.remotePort, t.proto)
  }

  // ---------------------------------------------------------------
  // The operations on the session's fields.
  // ---------------------------------------------------------------

  function NewView(sessionId: string, policy: Option<PolicySnapshot>, nowMs: int): SessionView
  {
    SessionView(sessionId, Birth, 0, if policy.Some? then policy.value else DefaultPolicy(), None,
                nowMs, nowMs, 0, 0)
  }

  function AttachView(v: SessionView, t: TransportBinding, nowMs: int): SessionView
  {
    v.(activeTransport := Some(t), state := Attached, stateVersion := v.stateVersion + 1,
       lastActivityTsMs := nowMs)
  }

  /** Some quality figure reaches its threshold. */
  predicate Exceeds(p: PolicySnapshot, lossPct: real, latencyMs: int, jitterMs: int)
  {
    lossPct >= p.lossThresholdPct || latencyMs >= p.latencyThresholdMs || jitterMs >= p.jitterThresholdMs
  }

  function HealthView(v: SessionView, lossPct: real, latencyMs: int, jitterMs: int, nowMs: int): SessionView
  {
    if v.state != Attached then v
    else if Exceeds(v.policy, lossPct, latencyMs, jitterMs) then
      v.(state := Volatile, stateVersion := v.stateVersion + 1, lastActivityTsMs := nowMs)
    else v
  }

  function DeadView(v: SessionView, nowMs: int): SessionView
  {
    v.(activeTransport := None, state := Recovering, stateVersion := v.stateVersion + 1, lastActivityTsMs := nowMs)
  }

  /** `_cooldown_ok`: no switch yet (timestamp 0), or the cooldown has passed. */
  predicate CooldownOk(v: SessionView, nowMs: int)
  {
    v.lastSwitchTsMs == 0 || nowMs - v.lastSwitchTsMs >= v.policy.switchCooldownMs
  }

  function RequestView(v: SessionView, t: TransportBinding, nowMs: int): (SessionView, Payload)
  {
    if !CooldownOk(v, nowMs) then
      (v, ErrorPayload(ReasonCodes.Value(ReasonCodes.PolicyCooldownActive), "Cooldown active"))
    else
      var w := v.(nonce := v.nonce + 1);
      (w, ReattachRequest(w.sessionId, w.nonce, "POP_PLACEHOLDER", CandidateOf(t)))
  }

  function SuccessView(v: SessionView, t: TransportBinding, nowMs: int): SessionView
  {
    v.(activeTransport := Some(t), state := Attached, stateVersion := v.stateVersion + 1,
       lastActivityTsMs := nowMs, lastSwitchTsMs := nowMs)
  }

  function RejectedView(v: SessionView, nowMs: int): SessionView
  {
    v.(lastActivityTsMs := nowMs)
  }

  // ---------------------------------------------------------------
  // Runs of operations.
  // ---------------------------------------------------------------

  /** One call on the agent, with the instant it happens. */
  datatype Op =
    | AttachOp(t: TransportBinding, nowMs: int)
    | HealthOp(lossPct: real, latencyMs: int, jitterMs: int, nowMs: int)
    | DeadOp(nowMs: int)
    | RequestOp(t: TransportBinding, nowMs: int)
    | SuccessOp(t: TransportBinding, nowMs: int)
    | RejectedOp(reason: ReasonCodes.ReasonCode, nowMs: int)

  /** The view after one operation and the payload it returned, if any. */
  function StepView(v: SessionView, op: Op): (SessionView, Option<Payload>)
  {
    match op
    case AttachOp(t, now) => (AttachView(v, t, now), None)
    case HealthOp(l, lat, j, now) => (HealthView(v, l, lat, j, now), None)
    case DeadOp(now) => (DeadView(v, now), None)
    case RequestOp(t, now) => var (w, p) := RequestView(v, t, now); (w, Some(p))
    case SuccessOp(t, now) => (SuccessView(v, t, now), None)
    case RejectedOp(_, now) => (RejectedView(v, now), None)
  }

  /** The nonce a step put on the wire, if it sent a request. */
  function Issued(p: Option<Payload>): seq<int>
  {
    if p.Some? && p.value.ReattachRequest? then [p.value.nonce] else []
  }

  /** The final view and the nonces of every request sent, in order. */
  function Run(v: SessionView, ops: seq<Op>): (SessionView, seq<int>)
    decreases |ops|
  {
    if ops == [] then (v, [])
    else
      var (v1, p) := StepView(v, ops[0]);
      var (w, rest) := Run(v1, ops[1..]);
      (w, Issued(p) + rest)
  }

  /** The requests of a run carry the consecutive nonces after the starting
      one, so the server never sees a nonce twice or out of order; the
      version never goes down; identity, policy and creation time never
      change. */
  lemma {:induction false} RunNonces(v: SessionView, ops: seq<Op>)
    ensures var (w, issued) := Run(v, ops);
            w.nonce == v.nonce + |issued|
            && (forall i :: 0 <= i < |issued| ==> issued[i] == v.nonce + i + 1)
            && w.stateVersion >= v.stateVersion
            && w.sessionId == v.sessionId && w.policy == v.policy && w.createdTsMs == v.createdTsMs
    decreases |ops|
  {
    if ops != [] {
      var (v1, p) := StepView(v, ops[0]);
      RunNonces(v1, ops[1..]);
      var (w, rest) := Run(v1, ops[1..]);
      assert Run(v, ops) == (w, Issued(p) + rest);
      if p.Some? && p.value.ReattachRequest? {
        assert v1.nonce == v.nonce + 1 && p.value.nonce == v.nonce + 1;
      } else {
        assert v1.nonce == v.nonce;
      }
    }
  }

  /** Hence the nonces of a run are strictly increasing and all above the
      starting one. */
  lemma RunNoncesIncrease(v: SessionView, ops: seq<Op>)
    ensures var issued := Run(v, ops).1;
            (forall i, j :: 0 <= i < j < |issued| ==> v.nonce < issued[i] < issued[j])
  {
    RunNonces(v, ops);
  }

  /** The local cooldown: right after a successful reattach at a non-zero
      instant, a request is refused, with the nonce unchanged, exactly until
      `switch_cooldown_ms` has passed. */
  lemma CooldownAfterSuccess(v: SessionView, t: TransportBinding, successMs: int, c: TransportBinding, nowMs: int)
    requires successMs != 0
    ensures var (w, p) := RequestView(SuccessView(v, t, successMs), c, nowMs);
            (p.ErrorPayload? <==> nowMs - successMs < v.policy.switchCooldownMs)
            && (p.ErrorPayload? ==> p.reason == "POLICY_COOLDOWN_ACTIVE" && w.nonce == v.nonce)
            && (p.ReattachRequest? ==> p.nonce == v.nonce + 1 && p.candidate == CandidateOf(c))
  {
  }

  /** A health sample only ever moves an attached session, to VOLATILE, and
      only when a threshold is reached; a sample within all thresholds
      changes nothing. */
  lemma HealthSampleFacts(v: SessionView, lossPct: real, latencyMs: int, jitterMs: int, nowMs: int)
    ensures var w := HealthView(v, lossPct, latencyMs, jitterMs, nowMs);
            (w != v <==> v.state == Attached && Exceeds(v.policy, lossPct, latencyMs, jitterMs))
            && (w != v ==> w.state == Volatile && w.stateVersion == v.stateVersion + 1
                           && w.activeTransport == v.activeTransport && w.nonce == v.nonce)
  {
  }

  /** Only the activity timestamp follows a rejection; the state and the
      version stay as they were. */
  lemma RejectionKeepsLifecycle(v: SessionView, nowMs: int)
    ensures var w := RejectedView(v, nowMs);
            w.state == v.state && w.stateVersion == v.stateVersion && w.activeTransport == v.activeTransport
            && w.nonce == v.nonce && w.lastActivityTsMs == nowMs
  {
  }

  // ---------------------------------------------------------------
  // The session object and the agent.
  // ---------------------------------------------------------------

  class ClientSession {
    const sessionId: string
    var state: SessionState
    var stateVersion: int
    const policy: PolicySnapshot
    var activeTransport: Option<TransportBinding>
    var createdTsMs: int
    var lastActivityTsMs: int
    var lastSwitchTsMs: int
    var nonce: int

    function View(): SessionView
      reads this
    {
      SessionView(sessionId, state, stateVersion, policy, activeTransport, createdTsMs,
                  lastActivityTsMs, lastSwitchTsMs, nonce)
    }

    constructor (v: SessionView)
      ensures View() == v
    {
      sessionId := v.sessionId;
      state := v.state;
      stateVersion := v.stateVersion;
      policy := v.policy;
      activeTransport := v.activeTransport;
      createdTsMs := v.createdTsMs;
      lastActivityTsMs := v.lastActivityTsMs;
      lastSwitchTsMs := v.lastSwitchTsMs;
      nonce := v.nonce;
    }
  }

  class Agent {
    const clientId: string
    var session: Option<ClientSession>

    /** The objects a session operation may change. */
    function Live(): set<ClientSession>
      reads this
    {
      if session.Some? then {session.value} else {}
    }

    constructor (clientId: string)
      ensures this.clientId == clientId && session.None?
    {
      this.clientId := clientId;
      session := None;
    }

    /** A fresh session in BIRTH, version 0, nonce 0, no transport, created
        and active now; a missing policy means the defaults. */
    method NewSession(sessionId: string, policy: Option<PolicySnapshot>, nowMs: int) returns (s: ClientSession)
      modifies this
      ensures fresh(s) && session == Some(s)
      ensures s.View() == NewView(sessionId, policy, nowMs)
      ensures s.state == Birth && s.stateVersion == 0 && s.nonce == 0 && s.activeTransport.None?
    {
      s := new ClientSession(NewView(sessionId, policy, nowMs));
      session := Some(s);
    }

    method Attach(t: TransportBinding, nowMs: int) returns (raised: Option<string>)
      modifies Live()
      ensures raised.Some? <==> session.None?
      ensures raised.Some? ==> raised.value == NoSessionMessage
      ensures session.Some? ==> session.value.View() == AttachView(old(session.value.View()), t, nowMs)
    {
      if session.None? {
        return Some(NoSessionMessage);
      }
      var s := session.value;
      s.activeTransport := Some(t);
      s.state := Attached;
      s.stateVersion := s.stateVersion + 1;
      s.lastActivityTsMs := nowMs;
      raised := None;
    }

    method OnHealthSample(lossPct: real, latencyMs: int, jitterMs: int, nowMs: int) returns (raised: Option<string>)
      modifies Live()
      ensures raised.Some? <==> session.None?
      ensures raised.Some? ==> raised.value == NoSessionMessage
      ensures session.Some? ==>
                session.value.View() == HealthView(old(session.value.View()), lossPct, latencyMs, jitterMs, nowMs)
    {
      if session.None? {
        return Some(NoSessionMessage);
      }
      var s := session.value;
      raised := None;
      if s.state != Attached {
        return;
      }
      if lossPct >= s.policy.lossThresholdPct || latencyMs >= s.policy.latencyThresholdMs
         || jitterMs >= s.policy.jitterThresholdMs {
        s.state := Volatile;
        s.stateVersion := s.stateVersion + 1;
        s.lastActivityTsMs := nowMs;
      }
    }

    method OnTransportDead(nowMs: int) returns (raised: Option<string>)
      modifies Live()
      ensures raised.Some? <==> session.None?
      ensures raised.Some? ==> raised.value == NoSessionMessage
      ensures session.Some? ==> session.value.View() == DeadView(old(session.value.View()), nowMs)
    {
      if session.None? {
        return Some(NoSessionMessage);
      }
      var s := session.value;
      s.activeTransport := None;
      s.state := Recovering;
      s.stateVersion := s.stateVersion + 1;
      s.lastActivityTsMs := nowMs;
      raised := None;
    }

    /** `_cooldown_ok`; it only reads the session. */
    method CooldownOkNow(nowMs: int) returns (ok: bool, raised: Option<string>)
      ensures raised.Some? <==> session.None?
      ensures session.Some? ==> (ok <==> CooldownOk(session.value.View(), nowMs))
    {
      if session.None? {
        return false, Some(NoSessionMessage);
      }
      var s := session.value;
      raised := None;
      if s.lastSwitchTsMs == 0 {
        return true, None;
      }
      ok := nowMs - s.lastSwitchTsMs >= s.policy.switchCooldownMs;
    }

    method BuildReattachRequest(t: TransportBinding, nowMs: int) returns (payload: Option<Payload>, raised: Option<string>)
      modifies Live()
      ensures raised.Some? <==> session.None?
      ensures payload.Some? <==> raised.None?
      ensures session.Some? ==>
                (session.value.View(), payload.value) == RequestView(old(session.value.View()), t, nowMs)
    {
      if session.None? {
        return None, Some(NoSessionMessage);
      }
      var ok, _ := CooldownOkNow(nowMs);
      if !ok {
        return Some(ErrorPayload(ReasonCodes.Value(ReasonCodes.PolicyCooldownActive), "Cooldown active")), None;
      }
      var s := session.value;
      s.nonce := s.nonce + 1;
      payload := Some(ReattachRequest(s.sessionId, s.nonce, "POP_PLACEHOLDER",
                                      CandidatePayload(t.transportId, t.remoteIp, t.remotePort, t.proto)));
      raised := None;
    }

    method OnReattachSuccess(t: TransportBinding, nowMs: int) returns (raised: Option<string>)
      modifies Live()
      ensures raised.Some? <==> session.None?
      ensures raised.Some? ==> raised.value == NoSessionMessage
      ensures session.Some? ==> session.value.View() == SuccessView(old(session.value.View()), t, nowMs)
    {
      if session.None? {
        return Some(NoSessionMessage);
      }
      var s := session.value;
      s.activeTransport := Some(t);
      s.state := Attached;
      s.stateVersion := s.stateVersion + 1;
      s.lastActivityTsMs := nowMs;
      s.lastSwitchTsMs := nowMs;
      raised := None;
    }

    method OnReattachRejected(reason: ReasonCodes.ReasonCode, nowMs: int) returns (raised: Option<string>)
      modifies Live()
      ensures raised.Some? <==> session.None?
      ensures raised.Some? ==> raised.value == NoSessionMessage
      ensures session.Some? ==> session.value.View() == RejectedView(old(session.value.View()), nowMs)
    {
      if session.None? {
        return Some(NoSessionMessage);
      }
      session.value.lastActivityTsMs := nowMs;
      raised := None;
    }
  }
}
