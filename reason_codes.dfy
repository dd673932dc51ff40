// Reason codes of the control plane.  The enumeration itself
// (core/common/reason_codes.py) is not part of this model: the constructors
// below are exactly the codes its callers name, plus one the missing
// identity check needs.
module ReasonCodes {

  datatype ReasonCode =
    | None_
    | DualActiveBinding
    | IllegalStateTransition
    | VersionRollback
    | TransportSessionMismatch
    | TransportIdentityMissing
    | InvalidStateTransition
    | SessionNotFound
    | SessionTtlExpired
    | TransportTtlExpired
    | TransportSwitch
    | TransportDead
    | ReattachSuccess
    | ReattachAllowed
    | RecoveryWindowExpired
    | SessionCreated
    | ReplayRejected
    | SwitchRateLimit
    | HandshakeOk
    | QualityThresholdExceeded
    | RecoveryStart
    | PolicyCooldownActive

  /** The code's wire value, as `ReasonCode.X.value` gives it. */
  function Value(r: ReasonCode): string
  {
    match r
    case None_ => "NONE"
    case DualActiveBinding => "DUAL_ACTIVE_BINDING"
    case IllegalStateTransition => "ILLEGAL_STATE_TRANSITION"
    case VersionRollback => "VERSION_ROLLBACK"
    case TransportSessionMismatch => "TRANSPORT_SESSION_MISMATCH"
    case TransportIdentityMissing => "TRANSPORT_IDENTITY_MISSING"
    case InvalidStateTransition => "INVALID_STATE_TRANSITION"
    case SessionNotFound => "SESSION_NOT_FOUND"
    case SessionTtlExpired => "SESSION_TTL_EXPIRED"
    case TransportTtlExpired => "TRANSPORT_TTL_EXPIRED"
    case TransportSwitch => "TRANSPORT_SWITCH"
    case TransportDead => "TRANSPORT_DEAD"
    case ReattachSuccess => "REATTACH_SUCCESS"
    case ReattachAllowed => "REATTACH_ALLOWED"
    case RecoveryWindowExpired => "RECOVERY_WINDOW_EXPIRED"
    case SessionCreated => "SESSION_CREATED"
    case ReplayRejected => "REPLAY_REJECTED"
    case SwitchRateLimit => "SWITCH_RATE_LIMIT"
    case HandshakeOk => "HANDSHAKE_OK"
    case QualityThresholdExceeded => "QUALITY_THRESHOLD_EXCEEDED"
    case RecoveryStart => "RECOVERY_START"
    case PolicyCooldownActive => "POLICY_COOLDOWN_ACTIVE"
  }
}
