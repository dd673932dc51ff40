// core/server/cluster_owner.py: one node's registry of session owners.  An
// ownership transfer bumps the epoch; only the owner may bump the state
// version.
module ClusterOwner {
  import opened OptionType

  datatype OwnershipRecord = OwnershipRecord(sessionId: string, ownerNodeId: string, ownerEpoch: int, stateVersion: int)

  /** `record` is a copy of the table entry at the time of the call. */
  datatype OwnershipResult = OwnershipResult(ok: bool, reason: string, record: Option<OwnershipRecord>)

  /** Between two tables: no entry disappears, keeps its session id, and its
      epoch and state version do not decrease. */
  predicate NeverDecreases(before: map<string, OwnershipRecord>, after: map<string, OwnershipRecord>)
  {
    before.Keys <= after.Keys
    && forall id :: id in before ==>
         after[id].sessionId == before[id].sessionId
         && after[id].ownerEpoch >= before[id].ownerEpoch
         && after[id].stateVersion >= before[id].stateVersion
  }

  lemma NeverDecreasesTransitive(a: map<string, OwnershipRecord>, b: map<string, OwnershipRecord>, c: map<string, OwnershipRecord>)
    requires NeverDecreases(a, b) && NeverDecreases(b, c)
    ensures NeverDecreases(a, c)
  {
  }

  class Registry {
    const nodeId: string
    var table: map<string, OwnershipRecord>

    constructor (nodeId: string)
      ensures this.nodeId == nodeId && table == map[]
    {
      this.nodeId := nodeId;
      table := map[];
    }

    function Get(sessionId: string): (r: Option<OwnershipRecord>)
      reads this
      ensures r.Some? <==> sessionId in table
      ensures r.Some? ==> r.value == table[sessionId]
    {
      if sessionId in table then Some(table[sessionId]) else None
    }

    method CreateOwner(sessionId: string) returns (r: OwnershipResult)
      modifies this
      ensures NeverDecreases(old(table), table)
      ensures sessionId in old(table) ==>
                r == OwnershipResult(false, "OWNERSHIP_ALREADY_EXISTS", Some(old(table)[sessionId])) && table == old(table)
      ensures sessionId !in old(table) ==>
                r.ok && r.reason == "OWNERSHIP_CREATED"
                && table == old(table)[sessionId := OwnershipRecord(sessionId, nodeId, 0, 0)]
                && r.record == Some(table[sessionId])
    {
      if sessionId in table {
        return OwnershipResult(false, "OWNERSHIP_ALREADY_EXISTS", Some(table[sessionId]));
      }
      var rec := OwnershipRecord(sessionId, nodeId, 0, 0);
      table := table[sessionId := rec];
      return OwnershipResult(true, "OWNERSHIP_CREATED", Some(rec));
    }

    /** Read-only ownership test: NOT_FOUND, CONFLICT (another node owns it) or OK. */
    function AssertIsOwner(sessionId: string): (r: OwnershipResult)
      reads this
      ensures r.ok <==> sessionId in table && table[sessionId].ownerNodeId == nodeId
      ensures sessionId !in table ==> r == OwnershipResult(false, "OWNERSHIP_NOT_FOUND", None)
      ensures sessionId in table ==> r.record == Some(table[sessionId])
      ensures sessionId in table ==> r.reason == (if r.ok then "OWNERSHIP_OK" else "OWNERSHIP_CONFLICT")
    {
      if sessionId !in table then OwnershipResult(false, "OWNERSHIP_NOT_FOUND", None)
      else if table[sessionId].ownerNodeId != nodeId then OwnershipResult(false, "OWNERSHIP_CONFLICT", Some(table[sessionId]))
      else OwnershipResult(true, "OWNERSHIP_OK", Some(table[sessionId]))
    }

    /** Only the current owner may hand a session on; handing it to itself is
        a no-op, and any real transfer bumps the epoch by one. */
    method TransferOwner(sessionId: string, newOwnerNodeId: string) returns (r: OwnershipResult)
      modifies this
      ensures NeverDecreases(old(table), table)
      ensures sessionId !in old(table) ==> r == OwnershipResult(false, "OWNERSHIP_NOT_FOUND", None) && table == old(table)
      ensures sessionId in old(table) && old(table)[sessionId].ownerNodeId != nodeId ==>
                r == OwnershipResult(false, "OWNERSHIP_TRANSFER_DENIED_NOT_OWNER", Some(old(table)[sessionId])) && table == old(table)
      ensures sessionId in old(table) && old(table)[sessionId].ownerNodeId == nodeId && newOwnerNodeId == nodeId ==>
                r == OwnershipResult(true, "OWNERSHIP_NO_CHANGE", Some(old(table)[sessionId])) && table == old(table)
      ensures sessionId in old(table) && old(table)[sessionId].ownerNodeId == nodeId && newOwnerNodeId != nodeId ==>
                table == old(table)[sessionId := old(table)[sessionId].(ownerNodeId := newOwnerNodeId,
                                                                       ownerEpoch := old(table)[sessionId].ownerEpoch + 1)]
                && r == OwnershipResult(true, "OWNERSHIP_TRANSFERRED", Some(table[sessionId]))
    {
      if sessionId !in table {
        return OwnershipResult(false, "OWNERSHIP_NOT_FOUND", None);
      }
      var rec := table[sessionId];
      if rec.ownerNodeId != nodeId {
        return OwnershipResult(false, "OWNERSHIP_TRANSFER_DENIED_NOT_OWNER", Some(rec));
      }
      if newOwnerNodeId == rec.ownerNodeId {
        return OwnershipResult(true, "OWNERSHIP_NO_CHANGE", Some(rec));
      }
      rec := rec.(ownerNodeId := newOwnerNodeId, ownerEpoch := rec.ownerEpoch + 1);
      table := table[sessionId := rec];
      return OwnershipResult(true, "OWNERSHIP_TRANSFERRED", Some(rec));
    }

    /** Owner-only version increment; a failed ownership test is returned as is. */
    method BumpStateVersion(sessionId: string) returns (r: OwnershipResult)
      modifies this
      ensures NeverDecreases(old(table), table)
      ensures !old(AssertIsOwner(sessionId)).ok ==> r == old(AssertIsOwner(sessionId)) && table == old(table)
      ensures old(AssertIsOwner(sessionId)).ok ==>
                table == old(table)[sessionId := old(table)[sessionId].(stateVersion := old(table)[sessionId].stateVersion + 1)]
                && r == OwnershipResult(true, "STATE_VERSION_BUMPED", Some(table[sessionId]))
    {
      var res := AssertIsOwner(sessionId);
      if !res.ok || res.record.None? {
        return res;
      }
      var rec := res.record.value.(stateVersion := res.record.value.stateVersion + 1);
      table := table[sessionId := rec];
      return OwnershipResult(true, "STATE_VERSION_BUMPED", Some(rec));
    }
  }

  /** After this node hands a session to another node, this node's version
      bump on it is refused as a conflict and changes nothing, while the
      transfer itself raised the epoch by exactly one. */
  method TransferAwayThenBump(reg: Registry, sessionId: string, other: string)
      returns (transfer: OwnershipResult, bump: OwnershipResult)
    requires sessionId in reg.table && reg.table[sessionId].ownerNodeId == reg.nodeId && other != reg.nodeId
    modifies reg
    ensures transfer.ok && transfer.reason == "OWNERSHIP_TRANSFERRED"
    ensures !bump.ok && bump.reason == "OWNERSHIP_CONFLICT" && sessionId in reg.table
    ensures reg.table[sessionId].ownerEpoch == old(reg.table[sessionId].ownerEpoch) + 1
    ensures reg.table[sessionId].stateVersion == old(reg.table[sessionId].stateVersion)
  {
    transfer := reg.TransferOwner(sessionId, other);
    bump := reg.BumpStateVersion(sessionId);
  }
}
