// core/session/state_machine.py: one operation per target state (attach,
// enter_recovering, degrade, terminate), each refused on a terminated record
// and otherwise raising the version by exactly one.
module SessionStateMachine {
  import opened OptionType
  import opened ReasonCodes
  import opened Errors
  import opened Models
  import opened Invariants

  datatype SessionTransition = SessionTransition(
    prevState: SessionState,
    newState: SessionState,
    reason: ReasonCode,
    prevVersion: int,
    newVersion: int,
    transportSwitched: bool)

  datatype Applied = Applied(after: RecordSnapshot, result: SessionTransition)

  /** A new transport is a switch when there was none before or its id differs. */
  predicate IsSwitch(prev: Option<TransportBinding>, t: TransportBinding)
  {
    prev.None? || prev.value.transportId != t.transportId
  }

  function AttachSpec(s: RecordSnapshot, t: TransportBinding, nowMs: int): (r: Result<Applied>)
    ensures s.state == Terminated ==> r.Err? && r.error.reason == IllegalStateTransition
    ensures s.state != Terminated && !HasIdentity(t) ==> r.Err? && r.error.reason == TransportIdentityMissing
    ensures r.Ok? <==> s.state != Terminated && HasIdentity(t)
    ensures r.Ok? ==> r.value.after == s.(state := Attached, stateVersion := s.stateVersion + 1, activeTransport := Some(t),
                                          lastActivityTsMs := nowMs, lastStateChangeTsMs := nowMs)
    ensures r.Ok? ==> r.value.result.prevState == s.state && r.value.result.newState == Attached
                      && r.value.result.prevVersion == s.stateVersion && r.value.result.newVersion == s.stateVersion + 1
    ensures r.Ok? ==> (r.value.result.transportSwitched <==> IsSwitch(s.activeTransport, t))
    ensures r.Ok? ==> r.value.result.reason == (if IsSwitch(s.activeTransport, t) then TransportSwitch else None_)
  {
    var notTerminated := AssertSessionNotTerminated(s.state);
    var identity := AssertTransportHasIdentity(t);
    if notTerminated.Fail? then Err(notTerminated.error)
    else if identity.Fail? then Err(identity.error)
    else
      var switched := s.activeTransport.None? || s.activeTransport.value.transportId != t.transportId;
      Ok(Applied(s.(stateVersion := s.stateVersion + 1, state := Attached, activeTransport := Some(t),
                    lastActivityTsMs := nowMs, lastStateChangeTsMs := nowMs),
                 SessionTransition(s.state, Attached, if switched then TransportSwitch else None_,
                                   s.stateVersion, s.stateVersion + 1, switched)))
  }

  /** The transport is lost: RECOVERING, no binding; only the state-change time moves. */
  function EnterRecoveringSpec(s: RecordSnapshot, nowMs: int, reason: ReasonCode): (r: Result<Applied>)
    ensures r.Err? <==> s.state == Terminated
    ensures r.Err? ==> r.error.reason == IllegalStateTransition
    ensures r.Ok? ==> r.value.after == s.(state := Recovering, stateVersion := s.stateVersion + 1, activeTransport := None,
                                          lastStateChangeTsMs := nowMs)
    ensures r.Ok? ==> r.value.result == SessionTransition(s.state, Recovering, reason, s.stateVersion, s.stateVersion + 1, false)
  {
    var notTerminated := AssertSessionNotTerminated(s.state);
    if notTerminated.Fail? then Err(notTerminated.error)
    else
      Ok(Applied(s.(stateVersion := s.stateVersion + 1, state := Recovering, activeTransport := None,
                    lastStateChangeTsMs := nowMs),
                 SessionTransition(s.state, Recovering, reason, s.stateVersion, s.stateVersion + 1, false)))
  }

  /** DEGRADED keeps whatever binding the record has. */
  function DegradeSpec(s: RecordSnapshot, nowMs: int, reason: ReasonCode): (r: Result<Applied>)
    ensures r.Err? <==> s.state == Terminated
    ensures r.Err? ==> r.error.reason == IllegalStateTransition
    ensures r.Ok? ==> r.value.after == s.(state := Degraded, stateVersion := s.stateVersion + 1, lastStateChangeTsMs := nowMs)
    ensures r.Ok? ==> r.value.after.activeTransport == s.activeTransport
    ensures r.Ok? ==> r.value.result == SessionTransition(s.state, Degraded, reason, s.stateVersion, s.stateVersion + 1, false)
  {
    var notTerminated := AssertSessionNotTerminated(s.state);
    if notTerminated.Fail? then Err(notTerminated.error)
    else
      Ok(Applied(s.(stateVersion := s.stateVersion + 1, state := Degraded, lastStateChangeTsMs := nowMs),
                 SessionTransition(s.state, Degraded, reason, s.stateVersion, s.stateVersion + 1, false)))
  }

  function TerminateSpec(s: RecordSnapshot, nowMs: int, reason: ReasonCode): (r: Result<Applied>)
    ensures r.Err? <==> s.state == Terminated
    ensures r.Err? ==> r.error.reason == IllegalStateTransition
    ensures r.Ok? ==> r.value.after == s.(state := Terminated, stateVersion := s.stateVersion + 1, activeTransport := None,
                                          lastStateChangeTsMs := nowMs)
    ensures r.Ok? ==> r.value.result == SessionTransition(s.state, Terminated, reason, s.stateVersion, s.stateVersion + 1, false)
  {
    var notTerminated := AssertSessionNotTerminated(s.state);
    if notTerminated.Fail? then Err(notTerminated.error)
    else
      Ok(Applied(s.(stateVersion := s.stateVersion + 1, state := Terminated, activeTransport := None,
                    lastStateChangeTsMs := nowMs),
                 SessionTransition(s.state, Terminated, reason, s.stateVersion, s.stateVersion + 1, false)))
  }

  /** The record went from `before` to `after` and `r` was returned, as `spec` prescribes. */
  predicate Done(spec: Result<Applied>, before: RecordSnapshot, after: RecordSnapshot, r: Result<SessionTransition>)
  {
    (spec.Err? ==> r == Err(spec.error) && after == before)
    && (spec.Ok? ==> r == Ok(spec.value.result) && after == spec.value.after)
  }

  method BumpVersion(rec: SessionRecord) returns (oldV: int, newV: int)
    modifies rec
    ensures oldV == old(rec.stateVersion) && newV == oldV + 1
    ensures rec.Snapshot() == old(rec.Snapshot()).(stateVersion := newV)
  {
    oldV := rec.stateVersion;
    newV := oldV + 1;
    BumpIsMonotonic(oldV);
    assert AssertStateVersionMonotonic(oldV, newV).Pass?;
    rec.stateVersion := newV;
  }

  method Attach(rec: SessionRecord, t: TransportBinding, nowMs: int) returns (r: Result<SessionTransition>)
    modifies rec
    ensures Done(AttachSpec(old(rec.Snapshot()), t, nowMs), old(rec.Snapshot()), rec.Snapshot(), r)
  {
    var notTerminated := AssertSessionNotTerminated(rec.state);
    if notTerminated.Fail? {
      return Err(notTerminated.error);
    }
    var identity := AssertTransportHasIdentity(t);
    if identity.Fail? {
      return Err(identity.error);
    }
    var prevState := rec.state;
    var prevTransport := rec.activeTransport;
    var oldV, newV := BumpVersion(rec);
    rec.state := Attached;
    rec.activeTransport := Some(t);
    rec.lastActivityTsMs := nowMs;
    rec.lastStateChangeTsMs := nowMs;
    RecordBindingNeverDual(rec.sessionId, rec.state, rec.activeTransport);
    var switched := prevTransport.None? || prevTransport.value.transportId != t.transportId;
    r := Ok(SessionTransition(prevState, Attached, if switched then TransportSwitch else None_, oldV, newV, switched));
  }

  method EnterRecovering(rec: SessionRecord, nowMs: int, reason: ReasonCode) returns (r: Result<SessionTransition>)
    modifies rec
    ensures Done(EnterRecoveringSpec(old(rec.Snapshot()), nowMs, reason), old(rec.Snapshot()), rec.Snapshot(), r)
  {
    var notTerminated := AssertSessionNotTerminated(rec.state);
    if notTerminated.Fail? {
      return Err(notTerminated.error);
    }
    var prevState := rec.state;
    var oldV, newV := BumpVersion(rec);
    rec.state := Recovering;
    rec.activeTransport := None;
    rec.lastStateChangeTsMs := nowMs;
    RecordBindingNeverDual(rec.sessionId, rec.state, rec.activeTransport);
    r := Ok(SessionTransition(prevState, Recovering, reason, oldV, newV, false));
  }

  method Degrade(rec: SessionRecord, nowMs: int, reason: ReasonCode) returns (r: Result<SessionTransition>)
    modifies rec
    ensures Done(DegradeSpec(old(rec.Snapshot()), nowMs, reason), old(rec.Snapshot()), rec.Snapshot(), r)
  {
    var notTerminated := AssertSessionNotTerminated(rec.state);
    if notTerminated.Fail? {
      return Err(notTerminated.error);
    }
    var prevState := rec.state;
    var oldV, newV := BumpVersion(rec);
    rec.state := Degraded;
    rec.lastStateChangeTsMs := nowMs;
    RecordBindingNeverDual(rec.sessionId, rec.state, rec.activeTransport);
    r := Ok(SessionTransition(prevState, Degraded, reason, oldV, newV, false));
  }

  method Terminate(rec: SessionRecord, nowMs: int, reason: ReasonCode) returns (r: Result<SessionTransition>)
    modifies rec
    ensures Done(TerminateSpec(old(rec.Snapshot()), nowMs, reason), old(rec.Snapshot()), rec.Snapshot(), r)
  {
    var notTerminated := AssertSessionNotTerminated(rec.state);
    if notTerminated.Fail? {
      return Err(notTerminated.error);
    }
    var prevState := rec.state;
    var oldV, newV := BumpVersion(rec);
    rec.state := Terminated;
    rec.activeTransport := None;
    rec.lastStateChangeTsMs := nowMs;
    RecordBindingNeverDual(rec.sessionId, rec.state, rec.activeTransport);
    r := Ok(SessionTransition(prevState, Terminated, reason, oldV, newV, false));
  }

  /** One call of the machine, with its arguments. */
  datatype Op =
    | AttachOp(transport: TransportBinding, nowMs: int)
    | RecoverOp(nowMs: int, reason: ReasonCode)
    | DegradeOp(nowMs: int, reason: ReasonCode)
    | TerminateOp(nowMs: int, reason: ReasonCode)

  function Apply(s: RecordSnapshot, op: Op): Result<Applied>
  {
    match op
    case AttachOp(t, now) => AttachSpec(s, t, now)
    case RecoverOp(now, reason) => EnterRecoveringSpec(s, now, reason)
    case DegradeOp(now, reason) => DegradeSpec(s, now, reason)
    case TerminateOp(now, reason) => TerminateSpec(s, now, reason)
  }

  /** The state after a run of calls, a failed call leaving the record as it was. */
  function Run(s: RecordSnapshot, ops: seq<Op>): RecordSnapshot
    decreases |ops|
  {
    if ops == [] then s
    else
      var r := Apply(s, ops[0]);
      Run(if r.Ok? then r.value.after else s, ops[1..])
  }

  /** How many calls of a run succeed. */
  function Successes(s: RecordSnapshot, ops: seq<Op>): nat
    decreases |ops|
  {
    if ops == [] then 0
    else
      var r := Apply(s, ops[0]);
      (if r.Ok? then 1 else 0) + Successes(if r.Ok? then r.value.after else s, ops[1..])
  }

  /** The version counts the successful calls. */
  lemma {:induction false} VersionCountsSuccesses(s: RecordSnapshot, ops: seq<Op>)
    ensures Run(s, ops).stateVersion == s.stateVersion + Successes(s, ops)
    decreases |ops|
  {
    if ops != [] {
      var r := Apply(s, ops[0]);
      VersionCountsSuccesses(if r.Ok? then r.value.after else s, ops[1..]);
    }
  }

  /** TERMINATED is final: from it every call fails and nothing changes. */
  lemma {:induction false} TerminatedIsFinal(s: RecordSnapshot, ops: seq<Op>)
    requires s.state == Terminated
    ensures Successes(s, ops) == 0 && Run(s, ops) == s
    decreases |ops|
  {
    if ops != [] {
      assert Apply(s, ops[0]).Err?;
      TerminatedIsFinal(s, ops[1..]);
    }
  }

  /** The binding rule the operations keep: ATTACHED always has a transport,
      RECOVERING and TERMINATED never do. */
  predicate BindingConsistent(s: RecordSnapshot)
  {
    (s.state == Attached ==> s.activeTransport.Some?)
    && (s.state in {Recovering, Terminated} ==> s.activeTransport.None?)
  }

  /** `degrade` on a bound ATTACHED record succeeds and leaves a DEGRADED
      record that is still bound: the code does not keep "bound exactly when
      ATTACHED", only the one-way rule of `BindingConsistent`. */
  lemma DegradeKeepsBindingOffAttached(s: RecordSnapshot, nowMs: int, reason: ReasonCode)
    requires s.state == Attached && s.activeTransport.Some?
    ensures BoundIffAttached(s.state, s.activeTransport)
    ensures DegradeSpec(s, nowMs, reason).Ok?
    ensures var a := DegradeSpec(s, nowMs, reason).value.after;
            a.state == Degraded && a.activeTransport == s.activeTransport
            && BindingConsistent(a) && !BoundIffAttached(a.state, a.activeTransport)
  {
  }

  lemma {:induction false} RunKeepsBindingConsistent(s: RecordSnapshot, ops: seq<Op>)
    requires BindingConsistent(s)
    ensures BindingConsistent(Run(s, ops))
    decreases |ops|
  {
    if ops != [] {
      var r := Apply(s, ops[0]);
      RunKeepsBindingConsistent(if r.Ok? then r.value.after else s, ops[1..]);
    }
  }
}
