// core/server/session_store.py: the single-node authoritative store of
// session records, with compare-and-swap replacement, binding updates and a
// read-only TTL query.  The store holds references: a record fetched with
// Get and then mutated is mutated in the store too.
module SessionStore {
  import opened OptionType
  import opened ReasonCodes
  import opened Errors
  import opened Models
  import opened Invariants
  import ServerStateMachine

  class Store {
    var sessions: map<string, SessionRecord>

    constructor ()
      ensures sessions == map[]
    {
      sessions := map[];
    }

    function Get(sessionId: string): (r: Option<SessionRecord>)
      reads this
      ensures r.Some? <==> sessionId in sessions
      ensures r.Some? ==> r.value == sessions[sessionId]
    {
      if sessionId in sessions then Some(sessions[sessionId]) else None
    }

    /** Inserts under the record's own id; an id already present is refused. */
    method Create(record: SessionRecord) returns (o: Outcome)
      modifies this
      ensures old(record.sessionId in sessions) ==>
                o == Fail(RejectError(InvalidStateTransition, "Session already exists", None)) && sessions == old(sessions)
      ensures !old(record.sessionId in sessions) ==> o.Pass? && sessions == old(sessions)[record.sessionId := record]
    {
      if record.sessionId in sessions {
        return Fail(RejectError(InvalidStateTransition, "Session already exists", None));
      }
      sessions := sessions[record.sessionId := record];
      return Pass;
    }

    /** Removes the id if present; a missing id is not an error. */
    method Delete(sessionId: string)
      modifies this
      ensures sessions == old(sessions) - {sessionId}
    {
      sessions := sessions - {sessionId};
    }

    /** Replaces the record only if its current version is the expected one. */
    method CasUpdate(sessionId: string, expectedVersion: int, newRecord: SessionRecord) returns (o: Outcome)
      modifies this
      ensures sessionId !in old(sessions) ==>
                o == Fail(RejectError(SessionNotFound, "Session not found", None)) && sessions == old(sessions)
      ensures sessionId in old(sessions) && old(sessions[sessionId].stateVersion) != expectedVersion ==>
                o == Fail(RejectError(InvalidStateTransition, "Version mismatch (CAS failed)",
                                      Some(map["expected" := DInt(expectedVersion),
                                               "actual" := DInt(old(sessions[sessionId].stateVersion))])))
                && sessions == old(sessions)
      ensures sessionId in old(sessions) && old(sessions[sessionId].stateVersion) == expectedVersion ==>
                o.Pass? && sessions == old(sessions)[sessionId := newRecord]
    {
      var current := Get(sessionId);
      if current.None? {
        return Fail(RejectError(SessionNotFound, "Session not found", None));
      }
      if current.value.stateVersion != expectedVersion {
        return Fail(RejectError(InvalidStateTransition, "Version mismatch (CAS failed)",
                                Some(map["expected" := DInt(expectedVersion), "actual" := DInt(current.value.stateVersion)])));
      }
      sessions := sessions[sessionId := newRecord];
      return Pass;
    }

    /** Sets the addressed record's binding (`None` clears it, as the untyped
        argument allows); a terminated record is refused. */
    method BindTransport(sessionId: string, transport: Option<TransportBinding>) returns (o: Outcome)
      modifies if sessionId in sessions then {sessions[sessionId]} else {}
      ensures sessions == old(sessions)
      ensures sessionId !in sessions ==> o == Fail(RejectError(SessionNotFound, "Cannot bind transport: session not found", None))
      ensures sessionId in sessions && old(sessions[sessionId].state) == Terminated ==>
                o.Fail? && o.error.kind == InvariantKind && o.error.reason == IllegalStateTransition
                && sessions[sessionId].Snapshot() == old(sessions[sessionId].Snapshot())
      ensures sessionId in sessions && old(sessions[sessionId].state) != Terminated ==>
                o.Pass? && sessions[sessionId].Snapshot() == old(sessions[sessionId].Snapshot()).(activeTransport := transport)
    {
      var rec := Get(sessionId);
      if rec.None? {
        return Fail(RejectError(SessionNotFound, "Cannot bind transport: session not found", None));
      }
      var notTerminated := AssertSessionNotTerminated(rec.value.state);
      if notTerminated.Fail? {
        return notTerminated;
      }
      rec.value.activeTransport := transport;
      return Pass;
    }

    /** Clears the addressed record's binding, whatever its state. */
    method UnbindTransport(sessionId: string) returns (o: Outcome)
      modifies if sessionId in sessions then {sessions[sessionId]} else {}
      ensures sessions == old(sessions)
      ensures sessionId !in sessions ==> o == Fail(RejectError(SessionNotFound, "Cannot unbind: session not found", None))
      ensures sessionId in sessions ==>
                o.Pass? && sessions[sessionId].Snapshot() == old(sessions[sessionId].Snapshot()).(activeTransport := None)
    {
      var rec := Get(sessionId);
      if rec.None? {
        return Fail(RejectError(SessionNotFound, "Cannot unbind: session not found", None));
      }
      rec.value.activeTransport := None;
      return Pass;
    }

    /** Which termination, if any, the session is due: the session TTL is
        checked first, then the transport-loss TTL (no binding for longer than
        the loss TTL since the last state change).  A missing id is None. */
    function EnforceTtl(sessionId: string, nowMs: int): (r: Option<ReasonCode>)
      reads this, sessions.Values
      ensures sessionId !in sessions ==> r.None?
      ensures r == Some(SessionTtlExpired) <==>
                sessionId in sessions && nowMs - sessions[sessionId].createdTsMs > sessions[sessionId].policy.sessionTtlMs
      ensures r == Some(TransportTtlExpired) <==>
                sessionId in sessions && nowMs - sessions[sessionId].createdTsMs <= sessions[sessionId].policy.sessionTtlMs
                && sessions[sessionId].activeTransport.None?
                && nowMs - sessions[sessionId].lastStateChangeTsMs > sessions[sessionId].policy.transportLossTtlMs
      ensures r.None? || r == Some(SessionTtlExpired) || r == Some(TransportTtlExpired)
    {
      if sessionId !in sessions then None
      else
        var rec := sessions[sessionId];
        if nowMs - rec.createdTsMs > rec.policy.sessionTtlMs then Some(SessionTtlExpired)
        else if rec.activeTransport.None? && nowMs - rec.lastStateChangeTsMs > rec.policy.transportLossTtlMs then
          Some(TransportTtlExpired)
        else None
    }

    /** A shallow copy of the table: same ids, same record references. */
    function ListSessions(): (r: map<string, SessionRecord>)
      reads this
      ensures r.Keys == sessions.Keys && forall id :: id in r ==> r[id] == sessions[id]
    {
      sessions
    }
  }

  /** The store's session-TTL query agrees with the state machine's forced
      termination whenever a creation time has been set; with a zero creation
      time only the store reports expiry. */
  lemma StoreTtlAgreesWithStateMachine(st: Store, sessionId: string, nowMs: int)
    requires sessionId in st.sessions && st.sessions[sessionId].createdTsMs != 0
    ensures st.EnforceTtl(sessionId, nowMs) == Some(SessionTtlExpired) <==>
              ServerStateMachine.SessionTtlExpiredAt(st.sessions[sessionId].Snapshot(), nowMs)
  {
  }
}
