// core/common/models.py: the session entity, its policy bounds and the
// transport binding it may hold.
module Models {
  import opened OptionType

  datatype SessionState = Birth | Attached | Volatile | Degraded | Recovering | Terminated

  /** The enumeration's string value (`SessionState.X.value`). */
  function StateValue(s: SessionState): string
  {
    match s
    case Birth => "BIRTH"
    case Attached => "ATTACHED"
    case Volatile => "VOLATILE"
    case Degraded => "DEGRADED"
    case Recovering => "RECOVERING"
    case Terminated => "TERMINATED"
  }

  /** Immutable policy bounds of one session (a frozen dataclass). */
  datatype PolicySnapshot = PolicySnapshot(
    sessionTtlMs: int,
    transportLossTtlMs: int,
    maxRecoveryWindowMs: int,
    maxSwitchesPerMin: int,
    switchCooldownMs: int,
    lossThresholdPct: real,
    latencyThresholdMs: int,
    jitterThresholdMs: int)

  /** `PolicySnapshot()`: every bound at its default. */
  function DefaultPolicy(): (p: PolicySnapshot)
    ensures p.sessionTtlMs == 3_600_000 && p.transportLossTtlMs == 10_000
    ensures p.maxRecoveryWindowMs == 5_000 && p.maxSwitchesPerMin == 10
    ensures p.switchCooldownMs == 500
    ensures p.lossThresholdPct == 20.0 && p.latencyThresholdMs == 300 && p.jitterThresholdMs == 80
  {
    PolicySnapshot(60 * 60 * 1000, 10 * 1000, 5 * 1000, 10, 500, 20.0, 300, 80)
  }

  /** A replaceable attachment; it is not identity.  `meta` is opaque. */
  datatype TransportBinding = TransportBinding(
    transportId: string,
    remoteIp: string,
    remotePort: int,
    proto: string,
    meta: map<string, string>)

  /** `TransportBinding(transport_id, remote_ip, remote_port)` with the defaults. */
  function NewBinding(transportId: string, remoteIp: string, remotePort: int): (b: TransportBinding)
    ensures b.transportId == transportId && b.remoteIp == remoteIp && b.remotePort == remotePort
    ensures b.proto == "UDP" && b.meta == map[]
  {
    TransportBinding(transportId, remoteIp, remotePort, "UDP", map[])
  }

  /** A binding is well formed iff its three identifying fields are non-empty. */
  predicate HasIdentity(b: TransportBinding)
  {
    |b.transportId| > 0 && |b.remoteIp| > 0 && |b.proto| > 0
  }

  function TransportIdOf(t: Option<TransportBinding>): Option<string>
  {
    if t.Some? then Some(t.value.transportId) else None
  }

  /** The transport summary the public view exposes (no `meta`). */
  datatype PublicTransport = PublicTransport(
    transportId: string,
    remoteIp: string,
    remotePort: int,
    proto: string)

  /** The redacted projection `to_public_dict` returns: no policy, no nonce. */
  datatype PublicRecord = PublicRecord(
    sessionId: string,
    state: string,
    stateVersion: int,
    activeTransport: Option<PublicTransport>,
    createdTsMs: int,
    lastStateChangeTsMs: int,
    lastActivityTsMs: int,
    lastSwitchTsMs: int,
    switchesInCurrentMin: int,
    switchesWindowStartTsMs: int,
    ownerNodeId: Option<string>)

  function PublicTransportOf(t: Option<TransportBinding>): (p: Option<PublicTransport>)
    ensures p.None? <==> t.None?
    ensures t.Some? ==> p.value.transportId == t.value.transportId && p.value.remoteIp == t.value.remoteIp
    ensures t.Some? ==> p.value.remotePort == t.value.remotePort && p.value.proto == t.value.proto
  {
    match t
    case None => None
    case Some(b) => Some(PublicTransport(b.transportId, b.remoteIp, b.remotePort, b.proto))
  }

  /** Two bindings that differ only in `meta` have the same public summary. */
  lemma PublicTransportDropsMeta(a: TransportBinding, b: TransportBinding)
    requires a.transportId == b.transportId && a.remoteIp == b.remoteIp
    requires a.remotePort == b.remotePort && a.proto == b.proto
    ensures PublicTransportOf(Some(a)) == PublicTransportOf(Some(b))
  {
  }

  /** Every field of a SessionRecord, as one value. */
  datatype RecordSnapshot = RecordSnapshot(
    sessionId: string,
    state: SessionState,
    stateVersion: int,
    activeTransport: Option<TransportBinding>,
    policy: PolicySnapshot,
    createdTsMs: int,
    lastStateChangeTsMs: int,
    lastActivityTsMs: int,
    lastSwitchTsMs: int,
    switchesInCurrentMin: int,
    switchesWindowStartTsMs: int,
    lastAcceptedNonce: int,
    ownerNodeId: Option<string>)

  /** Authoritative, versioned session state; both state machines and the
      store update its fields in place. */
  class SessionRecord {
    var sessionId: string
    var state: SessionState
    var stateVersion: int
    var activeTransport: Option<TransportBinding>
    var policy: PolicySnapshot
    var createdTsMs: int
    var lastStateChangeTsMs: int
    var lastActivityTsMs: int
    var lastSwitchTsMs: int
    var switchesInCurrentMin: int
    var switchesWindowStartTsMs: int
    var lastAcceptedNonce: int
    var ownerNodeId: Option<string>

    /** `SessionRecord(session_id)`: every other field at its default. */
    constructor (sessionId: string)
      ensures this.sessionId == sessionId
      ensures state == Birth && stateVersion == 0 && activeTransport == None
      ensures policy == DefaultPolicy()
      ensures createdTsMs == 0 && lastStateChangeTsMs == 0 && lastActivityTsMs == 0
      ensures lastSwitchTsMs == 0 && switchesInCurrentMin == 0 && switchesWindowStartTsMs == 0
      ensures lastAcceptedNonce == 0 && ownerNodeId == None
    {
      this.sessionId := sessionId;
      state := Birth;
      stateVersion := 0;
      activeTransport := None;
      policy := DefaultPolicy();
      createdTsMs := 0;
      lastStateChangeTsMs := 0;
      lastActivityTsMs := 0;
      lastSwitchTsMs := 0;
      switchesInCurrentMin := 0;
      switchesWindowStartTsMs := 0;
      lastAcceptedNonce := 0;
      ownerNodeId := None;
    }

    /** The record's whole state. */
    function Snapshot(): RecordSnapshot
      reads this
    {
      RecordSnapshot(sessionId, state, stateVersion, activeTransport, policy, createdTsMs,
                     lastStateChangeTsMs, lastActivityTsMs, lastSwitchTsMs, switchesInCurrentMin,
                     switchesWindowStartTsMs, lastAcceptedNonce, ownerNodeId)
    }

    /** Safe representation for audit logs. */
    function ToPublicDict(): (v: PublicRecord)
      reads this
      ensures v.sessionId == sessionId && v.state == StateValue(state) && v.stateVersion == stateVersion
      ensures v.activeTransport == PublicTransportOf(activeTransport)
      ensures v.createdTsMs == createdTsMs && v.lastStateChangeTsMs == lastStateChangeTsMs
      ensures v.lastActivityTsMs == lastActivityTsMs && v.lastSwitchTsMs == lastSwitchTsMs
      ensures v.switchesInCurrentMin == switchesInCurrentMin
      ensures v.switchesWindowStartTsMs == switchesWindowStartTsMs && v.ownerNodeId == ownerNodeId
    {
      PublicRecord(sessionId, StateValue(state), stateVersion, PublicTransportOf(activeTransport),
                   createdTsMs, lastStateChangeTsMs, lastActivityTsMs, lastSwitchTsMs,
                   switchesInCurrentMin, switchesWindowStartTsMs, ownerNodeId)
    }
  }

  /** The public view does not depend on the policy, the last accepted nonce
      or the binding's metadata: records that differ only there look alike. */
  lemma PublicDictHidesSecrets(a: SessionRecord, b: SessionRecord)
    requires a.sessionId == b.sessionId && a.state == b.state && a.stateVersion == b.stateVersion
    requires PublicTransportOf(a.activeTransport) == PublicTransportOf(b.activeTransport)
    requires a.createdTsMs == b.createdTsMs && a.lastStateChangeTsMs == b.lastStateChangeTsMs
    requires a.lastActivityTsMs == b.lastActivityTsMs && a.lastSwitchTsMs == b.lastSwitchTsMs
    requires a.switchesInCurrentMin == b.switchesInCurrentMin
    requires a.switchesWindowStartTsMs == b.switchesWindowStartTsMs && a.ownerNodeId == b.ownerNodeId
    ensures a.ToPublicDict() == b.ToPublicDict()
  {
  }
}
