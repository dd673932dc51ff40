// core/common/invariants.py: hard invariants that fail closed with an
// InvariantError.  The two helpers the state machines import but the file
// does not define (not-terminated, transport identity) are modelled here by
// their evident intent.
module Invariants {
  import opened OptionType
  import opened ReasonCodes
  import opened Errors
  import opened Models

  /** A transport binding as the checks see it: owned by a session, possibly active. */
  datatype BindingEntry = BindingEntry(sessionId: string, transportId: string, active: bool)

  /** The session shape the checks are written against. */
  datatype Session = Session(sessionId: string, state: SessionState, transports: seq<BindingEntry>)

  function CountActive(ts: seq<BindingEntry>): (n: nat)
    ensures n <= |ts|
  {
    if ts == [] then 0 else (if ts[0].active then 1 else 0) + CountActive(ts[1..])
  }

  predicate AtMostOneActive(ts: seq<BindingEntry>)
  {
    forall i, j :: 0 <= i < |ts| && 0 <= j < |ts| && ts[i].active && ts[j].active ==> i == j
  }

  /** Counting at most one active binding is the same as no two distinct bindings both active. */
  lemma {:induction false} CountActiveAtMostOne(ts: seq<BindingEntry>)
    ensures CountActive(ts) <= 1 <==> AtMostOneActive(ts)
  {
    if ts != [] {
      CountActiveAtMostOne(ts[1..]);
      if ts[0].active {
        if CountActive(ts[1..]) >= 1 {
          var j := FirstActive(ts[1..]);
          assert ts[0].active && ts[j + 1].active && 0 != j + 1;
        } else {
          assert CountActive(ts[1..]) == 0;
          NoneActive(ts[1..]);
          assert forall k :: 0 < k < |ts| ==> ts[k] == ts[1..][k - 1];
        }
      } else {
        if AtMostOneActive(ts[1..]) {
          forall i, j | 0 <= i < |ts| && 0 <= j < |ts| && ts[i].active && ts[j].active ensures i == j {
            assert ts[1..][i - 1].active && ts[1..][j - 1].active;
          }
        }
        if AtMostOneActive(ts) {
          forall i, j | 0 <= i < |ts[1..]| && 0 <= j < |ts[1..]| && ts[1..][i].active && ts[1..][j].active ensures i == j {
            assert ts[i + 1].active && ts[j + 1].active;
          }
        }
      }
    }
  }

  lemma {:induction false} FirstActive(ts: seq<BindingEntry>) returns (j: nat)
    requires CountActive(ts) >= 1
    ensures j < |ts| && ts[j].active
  {
    if ts[0].active {
      j := 0;
    } else {
      var k := FirstActive(ts[1..]);
      j := k + 1;
    }
  }

  lemma {:induction false} NoneActive(ts: seq<BindingEntry>)
    requires CountActive(ts) == 0
    ensures forall i :: 0 <= i < |ts| ==> !ts[i].active
  {
    if ts != [] {
      NoneActive(ts[1..]);
      forall i | 0 < i < |ts| ensures !ts[i].active {
        assert ts[i] == ts[1..][i - 1];
      }
    }
  }

  /** Fails exactly when more than one binding is active, reporting the count. */
  function AssertSingleActiveBinding(s: Session): (o: Outcome)
    ensures o.Fail? <==> !AtMostOneActive(s.transports)
    ensures o.Fail? ==> o.error.kind == InvariantKind && o.error.reason == DualActiveBinding
    ensures o.Fail? ==> o.error.details == Some(map["active_count" := DInt(CountActive(s.transports))])
  {
    CountActiveAtMostOne(s.transports);
    var n := CountActive(s.transports);
    if n > 1 then
      Fail(InvariantError(DualActiveBinding, "Multiple active transport bindings detected",
                          Some(map["active_count" := DInt(n)])))
    else Pass
  }

  /** Fails exactly on a TERMINATED session. */
  function AssertSessionNotTerminated(state: SessionState): (o: Outcome)
    ensures o.Fail? <==> state == Terminated
    ensures o.Fail? ==> o.error.kind == InvariantKind && o.error.reason == IllegalStateTransition && o.error.details.None?
  {
    if state == Terminated then
      Fail(InvariantError(IllegalStateTransition, "Operation attempted on terminated session", None))
    else Pass
  }

  /** Fails exactly when the new version does not exceed the previous one. */
  function AssertStateVersionMonotonic(previousVersion: int, newVersion: int): (o: Outcome)
    ensures o.Pass? <==> previousVersion < newVersion
    ensures o.Fail? ==> o.error.kind == InvariantKind && o.error.reason == VersionRollback
    ensures o.Fail? ==> o.error.details == Some(map["previous_version" := DInt(previousVersion), "new_version" := DInt(newVersion)])
  {
    if newVersion <= previousVersion then
      Fail(InvariantError(VersionRollback, "State version rollback detected",
                          Some(map["previous_version" := DInt(previousVersion), "new_version" := DInt(newVersion)])))
    else Pass
  }

  /** Fails exactly when the binding names another session, reporting both ids. */
  function AssertTransportBelongsToSession(s: Session, t: BindingEntry): (o: Outcome)
    ensures o.Pass? <==> t.sessionId == s.sessionId
    ensures o.Fail? ==> o.error.kind == InvariantKind && o.error.reason == TransportSessionMismatch
    ensures o.Fail? ==> o.error.details == Some(map["session_id" := DStr(s.sessionId), "transport_session_id" := DStr(t.sessionId)])
  {
    if t.sessionId != s.sessionId then
      Fail(InvariantError(TransportSessionMismatch, "Transport binding does not belong to session",
                          Some(map["session_id" := DStr(s.sessionId), "transport_session_id" := DStr(t.sessionId)])))
    else Pass
  }

  /** Fails exactly when the transport id, remote address or protocol is empty. */
  function AssertTransportHasIdentity(b: TransportBinding): (o: Outcome)
    ensures o.Pass? <==> HasIdentity(b)
    ensures o.Fail? ==> o.error.kind == InvariantKind && o.error.reason == TransportIdentityMissing
  {
    if !HasIdentity(b) then
      Fail(InvariantError(TransportIdentityMissing, "Transport binding lacks identity", None))
    else Pass
  }

  /** A SessionRecord holds at most one binding, so the single-active-binding
      check applied to a record (its binding seen as the one active entry)
      can never fail. */
  function RecordBindings(sessionId: string, t: Option<TransportBinding>): seq<BindingEntry>
  {
    if t.Some? then [BindingEntry(sessionId, t.value.transportId, true)] else []
  }

  lemma RecordBindingNeverDual(sessionId: string, state: SessionState, t: Option<TransportBinding>)
    ensures AssertSingleActiveBinding(Session(sessionId, state, RecordBindings(sessionId, t))).Pass?
  {
  }

  /** The rule the single-binding helper evidently stands for: a record is
      bound exactly when it is ATTACHED.  The state machines keep only half
      of it (see `SessionStateMachine.DegradeKeepsBindingOffAttached` and
      `ServerStateMachine.KeptBindingOffAttached`). */
  predicate BoundIffAttached(state: SessionState, t: Option<TransportBinding>)
  {
    t.Some? <==> state == Attached
  }

  /** A bumped version always passes the monotonic check. */
  lemma BumpIsMonotonic(v: int)
    ensures AssertStateVersionMonotonic(v, v + 1).Pass?
  {
  }
}
