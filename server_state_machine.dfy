// core/server/state_machine.py: the generic transition engine of the server
// and its TTL-forced terminations.  Which targets a state may reach is a
// parameter (a transition table); `ServerTable` is the rule the code
// hard-wires.
module ServerStateMachine {
  import opened OptionType
  import opened ReasonCodes
  import opened Errors
  import opened Models
  import opened Invariants

  datatype TransitionResult = TransitionResult(
    prevState: SessionState,
    newState: SessionState,
    reason: ReasonCode,
    prevVersion: int,
    newVersion: int,
    switchedTransport: bool,
    oldTransportId: Option<string>,
    newTransportId: Option<string>)

  /** For each state, the targets a transition from it may name; a state that
      is not a key has no successors. */
  type Table = map<SessionState, set<SessionState>>

  predicate Allowed(table: Table, from: SessionState, to: SessionState)
  {
    from in table && to in table[from]
  }

  const AllStates: set<SessionState> := {Birth, Attached, Volatile, Degraded, Recovering, Terminated}

  lemma AllStatesCover()
    ensures forall q: SessionState :: q in AllStates
  {
    forall q: SessionState ensures q in AllStates {
      match q
      case Birth => case Attached => case Volatile => case Degraded => case Recovering => case Terminated =>
    }
  }

  /** The server's own rule: only BIRTH restricts its targets, to ATTACHED or TERMINATED. */
  function ServerTable(): (t: Table)
    ensures forall from, to :: Allowed(t, from, to) <==> (from == Birth ==> to == Attached || to == Terminated)
  {
    AllStatesCover();
    map q | q in AllStates :: if q == Birth then {Attached, Terminated} else AllStates
  }

  /** The binding a successful transition leaves: ATTACHED takes the supplied
      transport, RECOVERING and TERMINATED drop it, any other target keeps the
      existing one and ignores a supplied transport. */
  function BindingAfter(prev: Option<TransportBinding>, newState: SessionState, newTransport: Option<TransportBinding>): Option<TransportBinding>
  {
    if newState == Attached then newTransport
    else if newState == Recovering || newState == Terminated then None
    else prev
  }

  datatype Applied = Applied(after: RecordSnapshot, result: TransitionResult)

  /** What `transition` does to a record's state, and what it returns or raises. */
  function TransitionSpec(table: Table, s: RecordSnapshot, newState: SessionState, reason: ReasonCode,
                          nowMs: int, newTransport: Option<TransportBinding>): (r: Result<Applied>)
    // A terminated record is refused before anything else is looked at.
    ensures s.state == Terminated ==> r.Err? && r.error.kind == InvariantKind && r.error.reason == IllegalStateTransition
    ensures r.Ok? <==> s.state != Terminated && Allowed(table, s.state, newState)
                       && (newState == Attached ==> newTransport.Some? && HasIdentity(newTransport.value))
    ensures s.state != Terminated && !Allowed(table, s.state, newState) ==>
              r.Err? && r.error.kind == RejectKind && r.error.reason == InvalidStateTransition
    ensures s.state != Terminated && Allowed(table, s.state, newState) && newState == Attached && newTransport.None? ==>
              r.Err? && r.error.kind == RejectKind && r.error.reason == InvalidStateTransition
    ensures s.state != Terminated && Allowed(table, s.state, newState) && newState == Attached && newTransport.Some?
            && !HasIdentity(newTransport.value) ==>
              r.Err? && r.error.kind == InvariantKind && r.error.reason == TransportIdentityMissing
    // Success: one version step, the new state, both timestamps at now.
    ensures r.Ok? ==> r.value.after.stateVersion == s.stateVersion + 1 && r.value.after.state == newState
    ensures r.Ok? ==> r.value.after.lastStateChangeTsMs == nowMs && r.value.after.lastActivityTsMs == nowMs
    ensures r.Ok? ==> r.value.result.prevState == s.state && r.value.result.newState == newState
                      && r.value.result.reason == reason
                      && r.value.result.prevVersion == s.stateVersion
                      && r.value.result.newVersion == r.value.after.stateVersion
    // Transport binding rules.
    ensures r.Ok? && newState == Attached ==> r.value.after.activeTransport == newTransport
    ensures r.Ok? && (newState == Recovering || newState == Terminated) ==> r.value.after.activeTransport.None?
    ensures r.Ok? && newState !in {Attached, Recovering, Terminated} ==> r.value.after.activeTransport == s.activeTransport
    ensures r.Ok? && newState == Attached ==> r.value.after.activeTransport.Some?
    ensures r.Ok? ==> r.value.result.oldTransportId == TransportIdOf(s.activeTransport)
                      && r.value.result.newTransportId == TransportIdOf(r.value.after.activeTransport)
                      && (r.value.result.switchedTransport <==> r.value.result.oldTransportId != r.value.result.newTransportId)
    // Nothing else changes.
    ensures r.Ok? ==> r.value.after.(state := s.state, stateVersion := s.stateVersion,
                                     activeTransport := s.activeTransport,
                                     lastStateChangeTsMs := s.lastStateChangeTsMs,
                                     lastActivityTsMs := s.lastActivityTsMs) == s
  {
    var notTerminated := AssertSessionNotTerminated(s.state);
    if notTerminated.Fail? then Err(notTerminated.error)
    else if !Allowed(table, s.state, newState) then
      Err(RejectError(InvalidStateTransition, "Illegal transition from " + StateValue(s.state),
                      Some(map["from" := DStr(StateValue(s.state)), "to" := DStr(StateValue(newState))])))
    else if newState == Attached && newTransport.None? then
      Err(RejectError(InvalidStateTransition, "ATTACHED requires a transport binding",
                      Some(map["session_id" := DStr(s.sessionId)])))
    else if newState == Attached && AssertTransportHasIdentity(newTransport.value).Fail? then
      Err(AssertTransportHasIdentity(newTransport.value).error)
    else
      var binding := BindingAfter(s.activeTransport, newState, newTransport);
      var after := s.(activeTransport := binding, stateVersion := s.stateVersion + 1, state := newState,
                      lastStateChangeTsMs := nowMs, lastActivityTsMs := nowMs);
      var oldId := TransportIdOf(s.activeTransport);
      var newId := TransportIdOf(binding);
      Ok(Applied(after, TransitionResult(s.state, newState, reason, s.stateVersion, s.stateVersion + 1,
                                         oldId != newId && (oldId.Some? || newId.Some?), oldId, newId)))
  }

  /** `before` became `after` and `r` was returned, as `transition` prescribes. */
  predicate TransitionDone(table: Table, before: RecordSnapshot, after: RecordSnapshot, newState: SessionState,
                           reason: ReasonCode, nowMs: int, newTransport: Option<TransportBinding>,
                           r: Result<TransitionResult>)
  {
    var spec := TransitionSpec(table, before, newState, reason, nowMs, newTransport);
    (spec.Err? ==> r == Err(spec.error) && after == before)
    && (spec.Ok? ==> r == Ok(spec.value.result) && after == spec.value.after)
  }

  /** Raises the record's version by one, after the monotonic check. */
  method BumpVersion(rec: SessionRecord) returns (oldV: int, newV: int)
    modifies rec
    ensures oldV == old(rec.stateVersion) && newV == oldV + 1
    ensures rec.Snapshot() == old(rec.Snapshot()).(stateVersion := newV)
  {
    oldV := rec.stateVersion;
    newV := oldV + 1;
    BumpIsMonotonic(oldV);
    assert AssertStateVersionMonotonic(oldV, newV).Pass?;
    rec.stateVersion := newV;
  }

  /** The mutations of a transition that passed its checks: the binding
      rule, the version step, the new state and both timestamps. */
  method ApplySuccess(rec: SessionRecord, newState: SessionState, nowMs: int, newTransport: Option<TransportBinding>)
    returns (oldV: int, newV: int)
    modifies rec
    ensures oldV == old(rec.stateVersion) && newV == oldV + 1
    ensures rec.Snapshot() == old(rec.Snapshot()).(activeTransport := BindingAfter(old(rec.activeTransport), newState, newTransport),
                                                   stateVersion := newV, state := newState,
                                                   lastStateChangeTsMs := nowMs, lastActivityTsMs := nowMs)
  {
    if newState == Attached {
      rec.activeTransport := newTransport;
    }
    if newState == Recovering {
      rec.activeTransport := None;
    }
    if newState == Terminated {
      rec.activeTransport := None;
    }
    oldV, newV := BumpVersion(rec);
    rec.state := newState;
    rec.lastStateChangeTsMs := nowMs;
    rec.lastActivityTsMs := nowMs;
  }

  /** Applies a transition to the record in place. */
  method Transition(table: Table, rec: SessionRecord, newState: SessionState, reason: ReasonCode,
                    nowMs: int, newTransport: Option<TransportBinding>) returns (r: Result<TransitionResult>)
    modifies rec
    ensures TransitionDone(table, old(rec.Snapshot()), rec.Snapshot(), newState, reason, nowMs, newTransport, r)
  {
    ghost var before := rec.Snapshot();
    ghost var spec := TransitionSpec(table, before, newState, reason, nowMs, newTransport);
    var notTerminated := AssertSessionNotTerminated(rec.state);
    if notTerminated.Fail? {
      assert spec == Err(notTerminated.error);
      return Err(notTerminated.error);
    }
    assert spec.Err? ==> spec.error.reason != IllegalStateTransition;
    var prevState := rec.state;
    var prevTransportId := TransportIdOf(rec.activeTransport);
    if !(prevState in table && newState in table[prevState]) {
      r := Err(RejectError(InvalidStateTransition, "Illegal transition from " + StateValue(prevState),
                           Some(map["from" := DStr(StateValue(prevState)), "to" := DStr(StateValue(newState))])));
      assert spec.Err? && spec.error == r.error;
      return;
    }
    if newState == Attached {
      if newTransport.None? {
        r := Err(RejectError(InvalidStateTransition, "ATTACHED requires a transport binding",
                             Some(map["session_id" := DStr(rec.sessionId)])));
        assert spec.Err? && spec.error == r.error;
        return;
      }
      var identity := AssertTransportHasIdentity(newTransport.value);
      if identity.Fail? {
        assert spec.Err? && spec.error == identity.error;
        return Err(identity.error);
      }
    }
    var oldV, newV := ApplySuccess(rec, newState, nowMs, newTransport);
    assert rec.Snapshot() == spec.value.after;
    // A record holds at most one binding, so the dual-binding check passes.
    RecordBindingNeverDual(rec.sessionId, rec.state, rec.activeTransport);
    var newTransportId := TransportIdOf(rec.activeTransport);
    var switched := prevTransportId != newTransportId && (prevTransportId.Some? || newTransportId.Some?);
    r := Ok(TransitionResult(prevState, newState, reason, oldV, newV, switched, prevTransportId, newTransportId));
  }

  /** The session has outlived its TTL; a zero creation time means "never set". */
  predicate SessionTtlExpiredAt(s: RecordSnapshot, nowMs: int)
  {
    s.createdTsMs != 0 && nowMs - s.createdTsMs > s.policy.sessionTtlMs
  }

  /** No transport, in a state that is waiting for one, for longer than the transport-loss TTL. */
  predicate TransportLossTtlExpiredAt(s: RecordSnapshot, nowMs: int)
  {
    s.activeTransport.None? && nowMs - s.lastActivityTsMs > s.policy.transportLossTtlMs
    && s.state in {Recovering, Volatile, Degraded}
  }

  method TerminateIfTtlExpired(table: Table, rec: SessionRecord, nowMs: int) returns (r: Option<Result<TransitionResult>>)
    modifies rec
    ensures r.None? <==> !SessionTtlExpiredAt(old(rec.Snapshot()), nowMs)
    ensures r.None? ==> rec.Snapshot() == old(rec.Snapshot())
    ensures r.Some? ==> TransitionDone(table, old(rec.Snapshot()), rec.Snapshot(), Terminated, SessionTtlExpired, nowMs, None, r.value)
  {
    if rec.createdTsMs != 0 && nowMs - rec.createdTsMs > rec.policy.sessionTtlMs {
      var t := Transition(table, rec, Terminated, SessionTtlExpired, nowMs, None);
      return Some(t);
    }
    return None;
  }

  method TerminateIfTransportLossTtlExpired(table: Table, rec: SessionRecord, nowMs: int) returns (r: Option<Result<TransitionResult>>)
    modifies rec
    ensures r.None? <==> !TransportLossTtlExpiredAt(old(rec.Snapshot()), nowMs)
    ensures r.None? ==> rec.Snapshot() == old(rec.Snapshot())
    ensures r.Some? ==> TransitionDone(table, old(rec.Snapshot()), rec.Snapshot(), Terminated, TransportTtlExpired, nowMs, None, r.value)
  {
    if rec.activeTransport.None? {
      var delta := nowMs - rec.lastActivityTsMs;
      if delta > rec.policy.transportLossTtlMs && rec.state in {Recovering, Volatile, Degraded} {
        var t := Transition(table, rec, Terminated, TransportTtlExpired, nowMs, None);
        return Some(t);
      }
    }
    return None;
  }

  /** Under the server's own table a TTL termination never fails on a live
      record, and afterwards every transition is refused. */
  lemma {:induction false} TtlTerminationIsFinal(s: RecordSnapshot, nowMs: int, next: SessionState,
                                                 reason: ReasonCode, later: int, t: Option<TransportBinding>)
    requires s.state != Terminated
    ensures TransitionSpec(ServerTable(), s, Terminated, SessionTtlExpired, nowMs, None).Ok?
    ensures var a := TransitionSpec(ServerTable(), s, Terminated, SessionTtlExpired, nowMs, None).value.after;
            a.activeTransport.None? && TransitionSpec(ServerTable(), a, next, reason, later, t).Err?
  {
    assert Allowed(ServerTable(), s.state, Terminated);
  }

  /** Under the server's table, a bound ATTACHED record moved to VOLATILE or
      DEGRADED keeps its binding, so the result is bound but not ATTACHED:
      `transition` does not keep "bound exactly when ATTACHED". */
  lemma KeptBindingOffAttached(s: RecordSnapshot, newState: SessionState, reason: ReasonCode, nowMs: int,
                               t: Option<TransportBinding>)
    requires s.state == Attached && s.activeTransport.Some?
    requires newState == Volatile || newState == Degraded
    ensures BoundIffAttached(s.state, s.activeTransport)
    ensures TransitionSpec(ServerTable(), s, newState, reason, nowMs, t).Ok?
    ensures var a := TransitionSpec(ServerTable(), s, newState, reason, nowMs, t).value.after;
            a.state == newState && a.activeTransport == s.activeTransport
            && !BoundIffAttached(a.state, a.activeTransport)
  {
  }

  /** Under the server's table, BIRTH may move only to ATTACHED (with a
      well-formed transport) or TERMINATED; any other target is a rejection. */
  lemma BirthTargets(s: RecordSnapshot, newState: SessionState, reason: ReasonCode, nowMs: int, t: Option<TransportBinding>)
    requires s.state == Birth
    ensures TransitionSpec(ServerTable(), s, newState, reason, nowMs, t).Ok? <==>
              newState == Terminated || (newState == Attached && t.Some? && HasIdentity(t.value))
  {
  }
}
