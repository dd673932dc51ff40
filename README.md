# Session continuity control plane, modelled in Dafny

This project models the control plane of a VPN-style system that keeps a
logical session alive while its network transport dies, degrades or is
replaced. The session keeps its identity; only its transport binding changes.
The model gives each part of that control plane, and of the small
deterministic helpers and trace checkers around it, a Dafny form, and proves
what each promises.

- **Session entity** (`common_models.dfy`, `common_errors.dfy`,
  `common_versioning.dfy`, `common_invariants.dfy`). `SessionRecord` is a
  class whose fields the state machines update in place. Policy snapshots and
  transport bindings are immutable datatypes. Errors are a tagged datatype
  carrying their reason code. The invariant helpers and the version guard are
  functions returning a result.
- **Transition engines.**
  - `server_state_machine.dfy` has one generic `Transition`, with the
    legality table as a parameter, plus the two TTL-forced terminations.
  - `session_state_machine.dfy` has one operation per target state.
  - Both are methods on the record, proved against specification functions.
- **Session store** (`session_store.dfy`): a keyed map of records with
  compare-and-swap updates and a TTL query.
- **Ownership registry** (`cluster_owner.dfy`): one owner per session, with
  an epoch bumped on each transfer.
- **Anti-replay gate** (`anti_replay.dfy`): a per-session nonce window whose
  memory is bounded by pruning.
- **Rate limiter** (`rate_limiter.dfy`): one token bucket per key, with real
  token counts.
- **Transport selection** (`transport_manager.dfy`): a bounded candidate map
  with a total ranking order, and stale and overflow eviction.
- **Switch and failure policy** (`policy_engine.dfy`): a sliding-window
  switch counter and a consecutive-failure counter.
- **Recovery orchestration** (`runtime_controller.dfy`,
  `runtime_with_events.dfy`). In the source, the controllers call
  collaborators that do not exist as written. The model wires them to the
  modelled parts:
  - the state machine is the table machine of `table_machine.dfy`;
  - the replay gate is `AntiReplayWindow.ValidateAndRecord`;
  - the rate gate is `Limiter.Check`;
  - metrics are an appended log.

  Emitted events are an appended sequence.
- **Recovery metrics** (`recovery_metrics.dfy`): an event-driven recorder of
  recovery windows.
- **Client agent** (`client_agent.dfy`): the client-side session machine.
- **Smaller pieces:**
  - the demo transition table (`table_machine.dfy`);
  - the counter gates of the UDP prototype (`prototype_sessions.dfy`,
    `prototype_server.dfy`);
  - the proof-of-concept session and the alpha session manager
    (`poc_session.dfy`, `alpha_sessions.dfy`);
  - the tick counters and hysteresis margins (`demo_counters.dfy`).
- **Trace checkers** (`trace_events.dfy`, `replay.dfy`,
  `continuity_verifier.dfy`, `validator.dfy`, `spec_checker.dfy`,
  `invariants_checker.dfy`, `timeline_generator.dfy`, `phase_duration.dfy`).
  A trace event is a map from field names to JSON values. Each checker is a
  method or loop proved equal to a specification function. Each
  specification function is then characterised by an if-and-only-if lemma
  stating what the checks mean.

The clock is always an explicit `now` parameter. Random identifiers and keys
are parameters too.

Where the code's own comments and its behaviour part ways, the model follows
the behaviour:
- The docstring of `assert_single_active_binding` promises at most one active
  binding (core/common/invariants.py:8-11). The state machines call it after
  every mutation, yet they keep the binding on ATTACHED→VOLATILE and
  →DEGRADED (core/server/state_machine.py:80-85,
  core/session/state_machine.py:104-128). So "bound exactly when ATTACHED"
  does not hold of the code. The model proves the one-way rule the code
  keeps: ATTACHED has a binding, and TERMINATED and RECOVERING have none
  (`SessionStateMachine.RunKeepsBindingConsistent`). It also exhibits the
  break of the converse (`SessionStateMachine.DegradeKeepsBindingOffAttached`,
  `ServerStateMachine.KeptBindingOffAttached`).
- Two invariant helpers are imported by the server state machine but never
  defined: `assert_not_terminated` and `assert_transport_has_identity`.
  They are modelled by their evident intent: the state is not TERMINATED,
  and the transport has a non-empty id, address and protocol.
- `assert_single_active_binding` counts bindings on a field the record does
  not have. On a record with one optional binding it can never fail.
- The store's TTL check reads the two TTLs from the record's policy
  snapshot, where they live.
- The server state machine restricts only BIRTH's successors. The demo
  table forbids ATTACHED→RECOVERING and BIRTH→TERMINATED. So the legality
  table is a parameter.

Behaviour of the source that the model keeps as written:
- The demo validator's message says timestamps must be "strictly
  increasing", but equal timestamps pass.
- The continuity verifier's check for a switch that re-creates the session
  can never fire (`ContinuityVerifier.RecreationCheckIsDead`).
- The first hysteresis call records the current score, not the new one.
- The UDP prototype server binds the path before it rejects an unknown
  message type.
- The recovery-metrics recorder overwrites a first-request timestamp of 0,
  because the code tests it for truthiness.
- The rate limiter's retry hint `int(x + 0.999)`, commented as a ceiling, is
  one millisecond short of it whenever the fractional part of x lies in
  (0, 0.001) (`RateLimiter.RetryNearCeiling`,
  `RateLimiter.RetryUndershootExample`).

## Model

| member | source | states |
|---|---|---|
| Models.DefaultPolicy | core/common/models.py:17-42 | the policy defaults: session TTL 3,600,000 ms, transport-loss TTL 10,000 ms, recovery window 5,000 ms, 10 switches a minute, 500 ms cooldown, thresholds 20 % / 300 ms / 80 ms |
| Models.NewBinding | core/common/models.py:45-54 | a binding keeps the id, address and port it is given, with protocol "UDP" and empty metadata by default |
| Models.PublicTransportOf | core/common/models.py:96-103 | an absent binding is shown as None; a present one as exactly its id, address, port and protocol |
| Models.PublicTransportDropsMeta | core/common/models.py:96-103 | two bindings that differ only in their metadata look the same in the public view |
| Models.SessionRecord.constructor | core/common/models.py:57-88 | a fresh record is BIRTH at version 0, unbound, with the default policy, zero timestamps and counters, nonce 0 and no owner |
| Models.SessionRecord.ToPublicDict | core/common/models.py:90-111 | the public view carries the id, the state's name, the version, the projected binding, the timestamps, the switch counters and the owner |
| Models.PublicDictHidesSecrets | core/common/models.py:90-111 | records that differ only in policy and last accepted nonce have the same public view, so neither is exposed |
| Errors.HierarchyFacts | core/common/errors.py:9-45 | every error is a ProtocolError; an InvariantError is a TerminateError and never a RejectError; only RejectError is a RejectError, only TerminateError and InvariantError are TerminateErrors |
| Errors.AsDict | core/common/errors.py:19-24 | the serialised error carries the reason's value, the message, and the details or an empty map when there are none |
| Errors.AbsentAndEmptyDetailsAgree | core/common/errors.py:23 | leaving the details out and passing an empty map serialise identically |
| Versioning.RequireExact | core/common/versioning.py:29-40 | accepted exactly when the incoming version is non-negative and equals the current one; a negative one is VERSION_INVALID_NEGATIVE before any comparison, a lower one VERSION_STALE_REJECTED, a higher one VERSION_FUTURE_REJECTED |
| Versioning.NextVersion | core/common/versioning.py:43-49 | the next version is the current plus one, and there is none (the source raises) for a negative version |
| Versioning.BumpMakesOldStale | core/common/versioning.py:29-49 | after a bump the old version is rejected as stale and the new one matches itself |
| Invariants.CountActive | core/common/invariants.py:12 | the number of active bindings is at most the number of bindings |
| Invariants.CountActiveAtMostOne | core/common/invariants.py:12-13 | at most one active binding counted is the same as no two distinct bindings both active |
| Invariants.AssertSingleActiveBinding | core/common/invariants.py:8-18 | fails exactly when more than one binding is active, with DUAL_ACTIVE_BINDING and the active count in the details |
| Invariants.AssertSessionNotTerminated | core/common/invariants.py:21-29 | fails exactly on a TERMINATED session, with ILLEGAL_STATE_TRANSITION and no details |
| Invariants.AssertStateVersionMonotonic | core/common/invariants.py:32-44 | passes exactly when the new version exceeds the previous one; otherwise VERSION_ROLLBACK with both versions |
| Invariants.AssertTransportBelongsToSession | core/common/invariants.py:47-62 | passes exactly when the binding names the session; otherwise TRANSPORT_SESSION_MISMATCH with both ids |
| Invariants.AssertTransportHasIdentity | core/server/state_machine.py:7-12 | imported but not defined by the source; modelled as: passes exactly when transport id, remote address and protocol are non-empty |
| Invariants.RecordBindingNeverDual | core/common/invariants.py:8-18 | the single-binding check applied to a record, whose optional binding is its only entry, always passes |
| Invariants.BumpIsMonotonic | core/common/invariants.py:36 | a bump by one always passes the monotonic check |
| ServerStateMachine.ServerTable | core/server/state_machine.py:62-68 | the server's own rule: a transition is allowed exactly when the source is not BIRTH or the target is ATTACHED or TERMINATED |
| ServerStateMachine.TransitionSpec | core/server/state_machine.py:45-108 | a TERMINATED record is refused first; a target the table forbids, or ATTACHED without a transport, is INVALID_STATE_TRANSITION; a transport without identity fails; success raises the version by one, sets the state and both timestamps to now, binds on ATTACHED, unbinds on RECOVERING and TERMINATED, keeps the binding otherwise, reports a switch exactly when the transport id changed, and changes nothing else |
| ServerStateMachine.BumpVersion | core/server/state_machine.py:38-43 | returns the old version and the old plus one, and changes only the version |
| ServerStateMachine.Transition | core/server/state_machine.py:45-108 | the record and the result are those of the specification: unchanged on every error, the specified new snapshot on success |
| ServerStateMachine.ApplySuccess | core/server/state_machine.py:70-91 | after the checks pass, the record's binding follows the binding rule for the target, its version rises by one, and its state and both timestamps are set; nothing else changes |
| ServerStateMachine.TerminateIfTtlExpired | core/server/state_machine.py:110-123 | terminates exactly when the creation time is set and the session TTL is exceeded; otherwise returns None and changes nothing |
| ServerStateMachine.TerminateIfTransportLossTtlExpired | core/server/state_machine.py:125-138 | terminates exactly when there is no transport, the transport-loss TTL since the last activity is exceeded and the state is RECOVERING, VOLATILE or DEGRADED; otherwise returns None and changes nothing |
| ServerStateMachine.TtlTerminationIsFinal | core/server/state_machine.py:57-122 | a TTL termination of a live record succeeds, leaves no binding, and every later transition is refused |
| ServerStateMachine.BirthTargets | core/server/state_machine.py:63-78 | from BIRTH a transition succeeds exactly for TERMINATED, or for ATTACHED with a transport that has identity |
| ServerStateMachine.KeptBindingOffAttached | core/server/state_machine.py:70-94 | under the server table, `transition` of a bound ATTACHED record to VOLATILE or DEGRADED succeeds and keeps the binding: bound but not ATTACHED |
| SessionStateMachine.AttachSpec | core/session/state_machine.py:42-75 | refused on a TERMINATED record or a transport without identity; otherwise ATTACHED with the new binding, version plus one, both timestamps at now, and a switch (reason TRANSPORT_SWITCH, else NONE) exactly when there was no binding or its id differs |
| SessionStateMachine.EnterRecoveringSpec | core/session/state_machine.py:77-102 | refused exactly on a TERMINATED record; otherwise RECOVERING, no binding, version plus one, only the state-change time stamped, no switch reported |
| SessionStateMachine.DegradeSpec | core/session/state_machine.py:104-128 | refused exactly on a TERMINATED record; otherwise DEGRADED, version plus one, binding unchanged, only the state-change time stamped |
| SessionStateMachine.TerminateSpec | core/session/state_machine.py:130-155 | refused exactly on a TERMINATED record; otherwise TERMINATED, no binding, version plus one, only the state-change time stamped |
| SessionStateMachine.BumpVersion | core/session/state_machine.py:35-40 | returns the old version and the old plus one, and changes only the version |
| SessionStateMachine.Attach | core/session/state_machine.py:42-75 | the record and the result are those of AttachSpec; an error leaves the record unchanged |
| SessionStateMachine.EnterRecovering | core/session/state_machine.py:77-102 | the record and the result are those of EnterRecoveringSpec |
| SessionStateMachine.Degrade | core/session/state_machine.py:104-128 | the record and the result are those of DegradeSpec |
| SessionStateMachine.Terminate | core/session/state_machine.py:130-155 | the record and the result are those of TerminateSpec |
| SessionStateMachine.VersionCountsSuccesses | core/session/state_machine.py:35-40 | over any run of operations the version rises by exactly the number of operations that succeed |
| SessionStateMachine.TerminatedIsFinal | core/session/state_machine.py:48-136 | from TERMINATED no operation succeeds and the record never changes |
| SessionStateMachine.RunKeepsBindingConsistent | core/session/state_machine.py:56-143 | every run keeps the binding rule: ATTACHED has a transport, RECOVERING and TERMINATED have none |
| SessionStateMachine.DegradeKeepsBindingOffAttached | core/session/state_machine.py:104-128 | `degrade` on a bound ATTACHED record succeeds and leaves a DEGRADED record that keeps the binding: bound but not ATTACHED, so "bound exactly when ATTACHED" is broken while the one-way rule still holds |
| SessionStore.Store.constructor | core/server/session_store.py:22-24 | a new store is empty |
| SessionStore.Store.Get | core/server/session_store.py:30-32 | the stored record for the id, or None exactly when the id is absent |
| SessionStore.Store.Create | core/server/session_store.py:34-41 | an id already present is refused with INVALID_STATE_TRANSITION and nothing changes; otherwise the record is inserted under its id and no other entry changes |
| SessionStore.Store.Delete | core/server/session_store.py:43-45 | the id is removed if present and nothing else changes; a missing id is not an error |
| SessionStore.Store.CasUpdate | core/server/session_store.py:51-81 | a missing id is SESSION_NOT_FOUND; a version other than the expected one is refused with expected and actual in the details and the table unchanged; otherwise only that id's record is replaced |
| SessionStore.Store.BindTransport | core/server/session_store.py:87-106 | a missing id is SESSION_NOT_FOUND, a TERMINATED record is refused; otherwise only that record's binding changes, to the given transport, where `None` clears it |
| SessionStore.Store.UnbindTransport | core/server/session_store.py:108-120 | a missing id is SESSION_NOT_FOUND; otherwise only that record's binding changes, to none, whatever its state |
| SessionStore.Store.EnforceTtl | core/server/session_store.py:126-157 | None for a missing id; SESSION_TTL_EXPIRED exactly when the session TTL is exceeded; TRANSPORT_TTL_EXPIRED exactly when it is not, there is no binding and the transport-loss TTL since the last state change is exceeded; read-only |
| SessionStore.Store.ListSessions | core/server/session_store.py:163-165 | a copy with the same ids mapped to the same records |
| SessionStore.StoreTtlAgreesWithStateMachine | core/server/session_store.py:146-147 | for a record whose creation time is set, the store's session-TTL verdict is the state machine's forced-termination condition |
| ClusterOwner.NeverDecreasesTransitive | core/server/cluster_owner.py:93-104 | "no entry disappears and no epoch or version goes down" composes over successive calls |
| ClusterOwner.Registry.constructor | core/server/cluster_owner.py:41-43 | a registry starts empty for its node |
| ClusterOwner.Registry.Get | core/server/cluster_owner.py:45-46 | the entry for the id, or None exactly when it is absent |
| ClusterOwner.Registry.CreateOwner | core/server/cluster_owner.py:48-62 | an existing id returns OWNERSHIP_ALREADY_EXISTS with its record and changes nothing; otherwise adds a record owned by this node with epoch 0 and version 0 and changes no other entry |
| ClusterOwner.Registry.AssertIsOwner | core/server/cluster_owner.py:64-75 | OWNERSHIP_NOT_FOUND for a missing id, OWNERSHIP_CONFLICT when another node owns it, OWNERSHIP_OK exactly when this node owns it; read-only |
| ClusterOwner.Registry.TransferOwner | core/server/cluster_owner.py:77-94 | NOT_FOUND and unchanged for a missing id; denied and unchanged unless this node owns it; a transfer to the current owner is a no-op; any other transfer sets the new owner and raises the epoch by exactly one |
| ClusterOwner.Registry.BumpStateVersion | core/server/cluster_owner.py:96-105 | a failed ownership test is returned unchanged and nothing changes; for the owner the version rises by exactly one and nothing else changes |
| ClusterOwner.TransferAwayThenBump | core/server/cluster_owner.py:77-105 | after this node transfers a session away, the transfer raised the epoch by one and this node's bump fails with OWNERSHIP_CONFLICT, leaving the version as it was |
| AntiReplay.LowerBound | core/security/anti_replay.py:184-186 | the window's lower edge is `last_seen - track_window + 1` clamped at 0 |
| AntiReplay.Decide | core/security/anti_replay.py:108-146 | missing nonce iff REJECT_MISSING_NONCE; a tracked nonce is a duplicate; stale iff untracked and not above the last seen; window exceeded iff above it by more than max_gap after a first nonce; accepted only above the last seen and within the gap |
| AntiReplay.MinMax | core/security/anti_replay.py:199-201 | the least and greatest element of a non-empty set of nonces |
| AntiReplay.Prune | core/security/anti_replay.py:171-204 | keeps the last seen nonce, keeps exactly the tracked nonces at or above the lower edge (none when nothing was seen), and leaves min/max exact, 0/0 when empty |
| AntiReplay.TrackedAtMostWindow | core/security/anti_replay.py:171-177 | bounded memory: a state inside its window tracks at most track_window nonces |
| AntiReplay.AcceptedStateOk | core/security/anti_replay.py:148-162 | after an accept and prune every tracked nonce lies in the window and min/max are exact |
| AntiReplay.AntiReplayWindow.constructor | core/security/anti_replay.py:97-99 | the given policy or the default 256/512, and no sessions |
| AntiReplay.AntiReplayWindow.GetState | core/security/anti_replay.py:101-106 | returns the stored state or a fresh one (last seen -1, nothing tracked), stores it, and changes no other session |
| AntiReplay.AntiReplayWindow.ValidateAndRecord | core/security/anti_replay.py:108-169 | the decision is Decide's and the reason code matches it; a rejection reports the old last seen nonce and changes no state; an accept advances last seen to the nonce, tracks exactly the pruned window of the old set plus the nonce, reports the nonce and leaves other sessions alone; every state stays inside its window |
| AntiReplay.AntiReplayWindow.GetDebugSnapshot | core/security/anti_replay.py:206-215 | reports the session's last seen nonce, tracked count, min/max and the policy |
| AntiReplay.FirstNonceNeverTooFar | core/security/anti_replay.py:140 | a session's first non-negative nonce is accepted however large |
| AntiReplay.GapBoundary | core/security/anti_replay.py:139-140 | for any in-window state with a nonce seen, a gap of exactly max_gap is accepted and max_gap + 1 is refused |
| AntiReplay.ExampleUsage | core/security/anti_replay.py:218-233 | nonce 1 accepted, repeated 1 a duplicate, 0 stale, and the snapshot shows one tracked nonce |
| RateLimiter.Refill | core/security/rate_limiter.py:140-149 | a clock that has not moved changes nothing; otherwise the stamp moves to now and the tokens become the old count plus elapsed time times the rate, capped at burst; under a sane policy 0 <= tokens <= burst is kept and tokens never drop |
| RateLimiter.RetryAfterMs | core/security/rate_limiter.py:124-137 | the hint as computed, `max(0, int(x + 0.999))` for x the milliseconds the shortfall takes: 1000 ms when nothing refills; otherwise never negative and, for a real shortfall, the true ceiling or one millisecond less |
| RateLimiter.CeilRetryMs | core/security/rate_limiter.py:131 | the ceiling the `+ 0.999` rounding stands for: the least non-negative whole number of milliseconds after which the missing tokens have accrued; 1000 ms when nothing refills |
| RateLimiter.RetryNearCeiling | core/security/rate_limiter.py:131 | with a positive rate and a non-negative shortfall, `int(x + 0.999)` equals the ceiling of x, except that it is one less exactly when x's fractional part lies strictly between 0 and 0.001 |
| RateLimiter.RetryUndershootExample | core/security/rate_limiter.py:131 | at 999.5 tokens per second a one-token shortfall takes about 1.0005 ms: the hint is 1 ms, after which the token has not accrued, while the ceiling is 2 ms |
| RateLimiter.Limiter.constructor | core/security/rate_limiter.py:85-87 | the given policy or the default 2/s with burst 5, and no buckets |
| RateLimiter.Limiter.Check | core/security/rate_limiter.py:89-138 | a first check starts from a full bucket; after the refill a cost above burst is denied with BURST_EXCEEDED and nothing deducted, an affordable cost is allowed and deducted, otherwise denied with RATE_LIMIT_EXCEEDED and the retry hint; the new bucket table is stated exactly and 0 <= tokens <= burst is preserved |
| RateLimiter.Limiter.DebugSnapshot | core/security/rate_limiter.py:151-169 | reports the policy, a full bucket for an unknown key and otherwise the tokens a refill at now would give, changing nothing |
| RateLimiter.ExampleUsage | core/security/rate_limiter.py:172-187 | with 1 token/s and burst 2, at 1 ms steps: two allows, then a denial with a 998 ms hint |
| RateLimiter.SameInstantExample | core/security/rate_limiter.py:180-185 | the same three checks at a single instant: two allows, then a denial with no tokens and a 1000 ms hint |
| TransportManager.StrLessIrreflexive | core/orchestrator/transport_manager.py:151 | Python's string `<` never holds between a string and itself |
| TransportManager.StrLessTransitive | core/orchestrator/transport_manager.py:151 | Python's string `<` is transitive |
| TransportManager.StrLessTotal | core/orchestrator/transport_manager.py:151 | any two different strings are ordered one way or the other |
| TransportManager.RankLessIrreflexive | core/orchestrator/transport_manager.py:144-153 | the ranking key (priority, loss, rtt, id) is a strict order: irreflexive |
| TransportManager.RankLessTransitive | core/orchestrator/transport_manager.py:144-153 | the ranking key is transitive |
| TransportManager.RankLessTotal | core/orchestrator/transport_manager.py:144-153 | candidates with different ids are always ranked, so the sort is deterministic |
| TransportManager.SliceLen | core/orchestrator/transport_manager.py:174 | the length of `ranked[:n]`, with Python's slice rule for negative n, is at most the list length and at most a non-negative n |
| TransportManager.Manager.constructor | core/orchestrator/transport_manager.py:50-56 | the bounds as given, no candidates, nothing active, no switch yet |
| TransportManager.Manager.RemoveCandidate | core/orchestrator/transport_manager.py:70-73 | the candidate is gone (absent ids are fine), the active id is dropped exactly when it was the one removed, and the last switch time is kept |
| TransportManager.Manager.ActiveTransport | core/orchestrator/transport_manager.py:85-88 | None exactly when nothing is active or the active id has no candidate; otherwise that candidate |
| TransportManager.Manager.ClearActive | core/orchestrator/transport_manager.py:93-97 | nothing is active afterwards and the candidates are kept |
| TransportManager.Manager.BestAmong | core/orchestrator/transport_manager.py:144-153 | the id among the given ones whose candidate ranks before all the others |
| TransportManager.Manager.RankedCandidates | core/orchestrator/transport_manager.py:144-153 | a list of exactly the table's candidates, each once, in strictly increasing rank |
| TransportManager.Manager.EvictStale | core/orchestrator/transport_manager.py:159-165 | exactly the candidates last seen more than the TTL ago are removed, and the active id goes with its candidate |
| TransportManager.Manager.EvictOverflow | core/orchestrator/transport_manager.py:167-177 | within the bound nothing changes; over it exactly the `ranked[:max_candidates]` best candidates remain |
| TransportManager.Manager.RemoveAllBut | core/orchestrator/transport_manager.py:174-177 | exactly the candidates whose id is kept remain, and the active id survives only with its candidate |
| TransportManager.Manager.UpsertCandidate | core/orchestrator/transport_manager.py:62-68 | after inserting or replacing, the table is the fresh candidates, cut to the best max_candidates when too many; it never holds more than a non-negative bound |
| TransportManager.Manager.SelectActive | core/orchestrator/transport_manager.py:99-123 | after stale eviction: none left gives NO_CANDIDATES and nothing active; otherwise the best-ranked candidate becomes active, the count is the table size, and a change of active id records the switch time with ACTIVE_SELECTED_SWITCH while no change keeps it with ACTIVE_SELECTED_NO_CHANGE |
| TransportManager.Manager.PickBackup | core/orchestrator/transport_manager.py:125-138 | after stale eviction and without activating: with nothing active the best candidate (None iff no candidates); otherwise the best candidate that is not active (None iff the active one is alone) |
| TransportManager.RankingHeadIsBest | core/orchestrator/transport_manager.py:107-134 | the head of a ranking is the best candidate |
| TransportManager.RankingFirstOtherIsBest | core/orchestrator/transport_manager.py:135-137 | the first ranked candidate that is not active is the best among the non-active ones |
| TransportManager.RankingAllActive | core/orchestrator/transport_manager.py:138 | when every ranked candidate is the active one, it is the only candidate |
| TransportManager.OverflowKeepsBest | core/orchestrator/transport_manager.py:173-177 | keeping the ids of a ranking's first n entries keeps exactly n candidates, each ranked before every one dropped |
| TransportManager.BestIsUnique | core/orchestrator/transport_manager.py:46-47 | determinism: a table has at most one best candidate |
| TransportManager.BestKeptUnique | core/orchestrator/transport_manager.py:167-177 | determinism: the overflow eviction's result does not depend on the order of removals |
| TransportManager.NewDefaultManager | core/orchestrator/transport_manager.py:50 | the defaults are 8 candidates and a 15 000 ms TTL |
| PolicyEngine.DefaultConfig | core/policy/policy_engine.py:16-21 | 5 switches per minute, 5000 ms recovery window, 8000 ms transport-loss TTL, 3 consecutive failures |
| PolicyEngine.Recent | core/policy/policy_engine.py:64-68 | keeps exactly the timestamps less than 60 s before now, never more than it was given |
| PolicyEngine.RecentAppend | core/policy/policy_engine.py:64-68 | the filter keeps relative order: it distributes over concatenation |
| PolicyEngine.RecentKeepsAll | core/policy/policy_engine.py:64-68 | timestamps all inside the window are kept unchanged |
| PolicyEngine.RecentIdempotent | core/policy/policy_engine.py:64-68 | cleaning up twice at the same instant is cleaning up once |
| PolicyEngine.CheckRecoveryWindow | core/policy/policy_engine.py:54-57 | the only violation it reports is "Recovery window exceeded" |
| PolicyEngine.CheckTransportLossTtl | core/policy/policy_engine.py:59-62 | the only violation it reports is "Transport-loss TTL expired" |
| PolicyEngine.ChecksAreThresholds | core/policy/policy_engine.py:54-62 | each check fires exactly from window + 1 ms after its reference instant, and once fired stays fired as time goes on |
| PolicyEngine.Engine.constructor | core/policy/policy_engine.py:33-36 | the given config or the defaults, no switches and no failures |
| PolicyEngine.Engine.CleanupOldSwitches | core/policy/policy_engine.py:64-68 | the switch list becomes its recent part; the failure count is kept |
| PolicyEngine.Engine.RecordSwitch | core/policy/policy_engine.py:38-44 | the list becomes the old recent switches plus now, all inside the window; the anti-flap violation is raised exactly when more than the allowance remain, and the switch stays recorded either way |
| PolicyEngine.Engine.RecordFailure | core/policy/policy_engine.py:46-49 | the count rises by one and the violation is raised exactly when it reaches the maximum |
| PolicyEngine.Engine.ResetFailures | core/policy/policy_engine.py:51-52 | the count is zero and the switches are kept |
| PolicyEngine.AntiFlapExample | core/policy/policy_engine.py:38-68 | with one switch per minute allowed: a first switch passes, a second 30 s later is refused, and a third 90 s after that passes once the old ones have left the window |
| RuntimeController.WindowExpiryFacts | core/orchestrator/runtime_controller.py:120-127 | the recovery window never expires without a death timestamp, expires strictly after the window (not at it, but 1 ms later), and stays expired |
| RuntimeController.AcceptedNonceIsNotAdmittedAgain | core/orchestrator/runtime_controller.py:86-88 | a nonce the replay gate accepted is refused when presented again |
| RuntimeController.Controller.constructor | core/orchestrator/runtime_controller.py:24-34 | a fresh state machine, limiter and replay window, no metrics, the transport alive and no death timestamp |
| RuntimeController.Controller.OnTransportDead | core/orchestrator/runtime_controller.py:40-56 | a second report changes nothing; the first marks the transport dead and stamps now, then asks for RECOVERING with TRANSPORT_DEAD; the recovery start is marked only when that transition is legal, and a refusal is raised |
| RuntimeController.Controller.OnTransportRestored | core/orchestrator/runtime_controller.py:58-73 | nothing changes unless ATTACHED is reachable; then the transport is alive, the session ATTACHED with its version raised by one, and the recovery end is marked; the death timestamp stays |
| RuntimeController.Controller.AttemptReattach | core/orchestrator/runtime_controller.py:79-102 | allowed exactly when the replay gate, then the rate gate, then the open recovery window all pass; a replay refusal touches neither the limiter nor the state machine; once the replay gate accepts, only the session's replay entry changes (the nonce becomes the last seen, the tracked set is the pruned set with it added, with exact least and greatest) and the session's bucket is refilled and, when the rate gate admits, charged one token; an expired window asks for TERMINATED with RECOVERY_WINDOW_EXPIRED; an allowed attempt leaves the session state alone |
| RuntimeController.ReattachGates | core/orchestrator/runtime_controller.py:86-92 | the replay gate, then the rate gate only if it accepts: a refused nonce leaves the limiter untouched and only materialises the session's replay state; an accepted one records the nonce in the pruned window and charges the session's refilled bucket one token when the gate admits |
| RuntimeController.Controller.EnforcePolicy | core/orchestrator/runtime_controller.py:108-118 | only a RECOVERING session whose window has expired is sent to TERMINATED; anything else changes nothing |
| RuntimeController.RecoveryTable | core/orchestrator/runtime_controller.py:51-99 | a transition table under which every transition the controller asks for is legal and TERMINATED is final |
| RuntimeController.LifecycleScenario | core/orchestrator/runtime_controller.py:40-118 | attach, lose the transport, reattach with nonce 1, replay it, let the window run out: the first reattach is allowed, the replay refused, and the session ends TERMINATED at version 3 |
| RuntimeWithEvents.EventedController.constructor | core/orchestrator/runtime_with_events.py:22-36 | as the plain controller, and the bus has received exactly one SESSION_CREATED event at version 0 |
| RuntimeWithEvents.EventedController.OnTransportDead | core/orchestrator/runtime_with_events.py:42-53 | as the plain controller; an effective call whose transition is legal then emits TRANSPORT_DEAD with now_ms and STATE_CHANGE to RECOVERING, both at the new version; a repeated call or a refused transition emits nothing |
| RuntimeWithEvents.EventedController.OnTransportRestored | core/orchestrator/runtime_with_events.py:55-65 | as the plain controller; when ATTACHED is reachable it emits TRANSPORT_SWITCH and STATE_CHANGE to ATTACHED at the raised version, otherwise nothing |
| RuntimeWithEvents.EventedController.AttemptReattach | core/orchestrator/runtime_with_events.py:71-89 | the three gates of the plain controller, each outcome announced by exactly one event: SECURITY_REJECT with the nonce, POLICY_REJECT with now_ms, STATE_CHANGE to TERMINATED, or REATTACH_ALLOWED with both; the replay table and the buckets change exactly as in the plain controller |
| RuntimeWithEvents.EventedController.WindowGate | core/orchestrator/runtime_with_events.py:82-89 | the recovery-window gate: allowed iff the window is open; an expired window asks for TERMINATED and announces it when legal |
| RuntimeWithEvents.EventedController.EnforcePolicy | core/orchestrator/runtime_with_events.py:95-99 | as the plain controller, announcing a termination with STATE_CHANGE to TERMINATED and otherwise emitting nothing |
| RuntimeWithEvents.EventedScenario | core/orchestrator/runtime_with_events.py:36-89 | created, attached, transport lost, one allowed reattach, one replay: the bus receives exactly seven events in that order |
| RecoveryMetrics.NewWindow | core/metrics/recovery_metrics.py:55-78 | a window opened at ts is open, UNKNOWN, with no timestamps and every counter at 0 |
| RecoveryMetrics.DurationMs | core/metrics/recovery_metrics.py:80-83 | None exactly while the window is open; otherwise end - start clamped at 0 |
| RecoveryMetrics.ControlPlaneRttMs | core/metrics/recovery_metrics.py:85-92 | None exactly when the request or ack time is missing; otherwise ack - request clamped at 0 |
| RecoveryMetrics.FirstOr | core/metrics/recovery_metrics.py:205-214 | `x or ts`: a set non-zero timestamp is kept, None or 0 is replaced by ts |
| RecoveryMetrics.Close | core/metrics/recovery_metrics.py:175-181 | with no active window nothing changes; otherwise only the last window is stamped with the end time, outcome and reason, and nothing is active |
| RecoveryMetrics.Applied | core/metrics/recovery_metrics.py:183-261 | only the active window is ever open; TRANSPORT_DEAD opens a new window exactly when none is active and leaves one active; closed windows never change; with no active window other events leave the windows as they are |
| RecoveryMetrics.ActiveWindowEffects | core/metrics/recovery_metrics.py:203-240 | inside an active window: a request counts one attempt and keeps the first request time; replay and version-mismatch rejects count in their counter and in rejects; a received reject counts only in rejects; TTL_EXPIRED closes the window as TERMINATED with reason TTL_EXPIRED by default |
| RecoveryMetrics.StateChangeCloses | core/metrics/recovery_metrics.py:242-261 | a STATE_CHANGE closes the active window exactly for ATTACHED, DEGRADED and TERMINATED, with outcome RECOVERED, DEGRADED or TERMINATED, the event's time and its reason |
| RecoveryMetrics.TotalsCountClosed | core/metrics/recovery_metrics.py:277-302 | recovered + failed is exactly the number of closed windows and recovered those closed as RECOVERED; one non-negative duration per closed window, and never more rtts |
| RecoveryMetrics.SummaryOf | core/metrics/recovery_metrics.py:302-319 | total is recovered + failed, and the success rate is recovered / total, 0.0 with no windows, always within [0, 1] |
| RecoveryMetrics.Recorder.constructor | core/metrics/recovery_metrics.py:150-158 | no events, no windows, nothing active, no state |
| RecoveryMetrics.Recorder.Record | core/metrics/recovery_metrics.py:160-169 | the event is appended to the log and its effect is exactly Applied's |
| RecoveryMetrics.Recorder.StartWindow | core/metrics/recovery_metrics.py:171-173 | a new window is appended and becomes active |
| RecoveryMetrics.Recorder.CloseWindow | core/metrics/recovery_metrics.py:175-181 | the effect is exactly Close's |
| RecoveryMetrics.Recorder.Apply | core/metrics/recovery_metrics.py:183-261 | the effect is exactly Applied's, and the log is untouched |
| RecoveryMetrics.Recorder.Summary | core/metrics/recovery_metrics.py:263-319 | the summary is that of the totals of all windows in order, open ones skipped |
| RecoveryMetrics.ExampleRecorder | core/metrics/recovery_metrics.py:329-345 | after the example's six events there is one closed window: recovered after 350 ms, one attempt, one switch, request at 1100, ack at 1300 |
| RecoveryMetrics.ExampleTotals | core/metrics/recovery_metrics.py:277-300 | one window of the example's shape sums to one recovered window with duration 350 and rtt 200 |
| RecoveryMetrics.ExampleUsage | core/metrics/recovery_metrics.py:322-347 | the example's summary: one recovered window, durations [350], rtts [200], one switch, one attempt, success rate 1.0 |
| ClientAgent.RunNonces | core/client/agent.py:143-148 | over any run of agent calls the requests carry the consecutive nonces after the starting one, the version never goes down, and identity, policy and creation time never change |
| ClientAgent.RunNoncesIncrease | core/client/agent.py:143-148 | the nonces sent in a run are strictly increasing and all above the starting nonce |
| ClientAgent.CooldownAfterSuccess | core/client/agent.py:139-190 | after a successful reattach at a non-zero instant, a request is refused with POLICY_COOLDOWN_ACTIVE and the nonce unchanged exactly until switch_cooldown_ms has passed; afterwards it carries the next nonce and the candidate |
| ClientAgent.HealthSampleFacts | core/client/agent.py:85-111 | a health sample changes the session exactly when it is ATTACHED and some figure reaches its threshold, and then only to VOLATILE with the version raised by one |
| ClientAgent.RejectionKeepsLifecycle | core/client/agent.py:173-179 | a rejection only updates the activity time; state, version, transport and nonce stay |
| ClientAgent.ClientSession.constructor | core/client/agent.py:15-34 | the session object holds exactly the given fields |
| ClientAgent.Agent.constructor | core/client/agent.py:49-51 | an agent starts without a session |
| ClientAgent.Agent.NewSession | core/client/agent.py:57-68 | a fresh session in BIRTH, version 0, nonce 0, no transport, created and active now, with the given policy or the defaults |
| ClientAgent.Agent.Attach | core/client/agent.py:70-79 | raises exactly when there is no session; otherwise binds the transport, ATTACHED, version + 1, activity now |
| ClientAgent.Agent.OnHealthSample | core/client/agent.py:85-111 | raises exactly when there is no session; otherwise the effect of a health sample |
| ClientAgent.Agent.OnTransportDead | core/client/agent.py:113-126 | raises exactly when there is no session; otherwise drops the transport, RECOVERING, version + 1, activity now |
| ClientAgent.Agent.CooldownOkNow | core/client/agent.py:185-190 | raises exactly when there is no session; otherwise true iff no switch happened yet (timestamp 0) or the cooldown has passed |
| ClientAgent.Agent.BuildReattachRequest | core/client/agent.py:132-159 | raises exactly when there is no session, and otherwise returns a payload: the cooldown error with nothing changed, or the request with the nonce raised by one |
| ClientAgent.Agent.OnReattachSuccess | core/client/agent.py:161-171 | raises exactly when there is no session; otherwise binds the transport, ATTACHED, version + 1, activity and switch time now |
| ClientAgent.Agent.OnReattachRejected | core/client/agent.py:173-179 | raises exactly when there is no session; otherwise only the activity time changes |
| TableMachine.AllowedTransitions | demo_engine/state_machine.py:11-18 | the shipped table has an entry for every state except TERMINATED |
| TableMachine.AllowedTransitionsFacts | demo_engine/state_machine.py:11-18 | under the shipped table nothing leaves TERMINATED, BIRTH leads only to ATTACHED, ATTACHED may not go to RECOVERING, and every other state may terminate |
| TableMachine.Step | demo_engine/state_machine.py:26-39 | succeeds exactly when the table allows the move, and then moves to the new state with the version raised by one and returns the record; otherwise changes nothing and carries the "Illegal transition A -> B" message |
| TableMachine.Machine.constructor | demo_engine/state_machine.py:22-24 | BIRTH at version 0, with the given table |
| TableMachine.Machine.Transition | demo_engine/state_machine.py:26-39 | the new state, version and outcome are exactly Step's |
| TableMachine.VersionCountsSuccesses | demo_engine/state_machine.py:32 | after any sequence of requests the version has risen by exactly the number that succeeded |
| TableMachine.TerminatedStaysTerminated | demo_engine/state_machine.py:11-28 | under the shipped table no sequence of requests moves a terminated machine or its version |
| PrototypeSessions.Initial | prototype/session_manager.py:6-14 | a new record: counters 0 and -1, ATTACHED on path udp:A |
| PrototypeSessions.RunSent | prototype/session_manager.py:25-28 | over any run of calls on one session the sent counters are the consecutive numbers after the starting one, and the identity never changes |
| PrototypeSessions.StepAccepted | prototype/session_manager.py:30-38 | one call accepts at most its own counter, above the old maximum, which becomes the new maximum |
| PrototypeSessions.RunAccepted | prototype/session_manager.py:30-38 | over any run the accepted counters strictly increase, lie above the starting maximum, and the last is the final maximum |
| PrototypeSessions.RunCounters | prototype/session_manager.py:9-38 | both halves of the counter discipline over any run, stated together |
| PrototypeSessions.NoCounterAcceptedTwice | prototype/session_manager.py:31-36 | no counter is accepted twice in a run |
| PrototypeSessions.Manager.constructor | prototype/session_manager.py:17-18 | no sessions |
| PrototypeSessions.Manager.GetOrCreate | prototype/session_manager.py:20-23 | an existing record is returned with nothing changed; otherwise a default record is stored and returned |
| PrototypeSessions.Manager.NextTx | prototype/session_manager.py:25-28 | returns the old tx counter + 1 and stores it, changing nothing else |
| PrototypeSessions.Manager.AcceptRx | prototype/session_manager.py:30-38 | accepts exactly a counter above the highest accepted one, which then becomes the maximum; a refusal changes nothing but the record's creation |
| PrototypeSessions.Manager.SetState | prototype/session_manager.py:40-42 | only the session's state string changes |
| PrototypeSessions.Manager.SetActivePath | prototype/session_manager.py:44-46 | only the session's active path changes |
| PrototypeServer.Initial | prototype/server.py:25-49 | a new record: counter -1, path "unknown", no address, last seen now |
| PrototypeServer.ReceiveFacts | prototype/server.py:126-159 | a replayed or stale counter is refused with REPLAY_OR_STALE before the binding is touched; any other message binds its path, address and counter, reports a switch exactly when it moves a known path, and is acknowledged exactly for HELLO, DATA and REATTACH (an unknown type is refused after binding) |
| PrototypeServer.RunCountersIncrease | prototype/server.py:53-137 | over any run of arrivals the counters that pass strictly increase, all exceed the starting counter, the last is the record's counter, and a run where none passes changes nothing |
| PrototypeServer.SessionTable.constructor | prototype/server.py:41-43 | no sessions |
| PrototypeServer.SessionTable.GetOrCreate | prototype/server.py:45-51 | the existing record with nothing changed, or a new one stored and returned |
| PrototypeServer.SessionTable.BindActive | prototype/server.py:58-63 | only the session's record is rebound: path, address, counter and last-seen time |
| PrototypeServer.SessionTable.Handle | prototype/server.py:117-159 | one iteration of the receive loop: the table, reply and switch flag are exactly Receive's on the session's (possibly new) record |
| PocSession.DefaultPocPolicy | poc/policy.py:5-14 | the default policy: 3 consecutive drops, degrade after 1500 ms, 10 switches per minute |
| PocSession.SetState | poc/session.py:44-54 | the state becomes the requested one, a log entry is added exactly when it actually changes, and nothing else changes |
| PocSession.KeepSince | poc/session.py:57-58 | keeps exactly the switch times at or after the cutoff, never more |
| PocSession.FirstAliveExcept | poc/session.py:65-69 | the first alive position from `from` on that is not the skipped one, or None exactly when there is none |
| PocSession.SwitchRateOkFacts | poc/session.py:56-59 | the rate check keeps exactly the last minute's switches, allows a switch iff fewer than the limit remain, and changes nothing else |
| PocSession.ChooseNextFacts | poc/session.py:64-66 | the next transport is alive and not the active one and every earlier one is dead or active; there is none exactly when no other transport is alive |
| PocSession.AttachInitialFacts | poc/session.py:68-78 | with no alive transport the session terminates; otherwise it is attached to the first alive one with no drops and last good time now |
| PocSession.SwitchTransportFacts | poc/session.py:80-116 | a rate-limited switch degrades and keeps the active transport; with no candidate the session terminates; otherwise the candidate becomes active with no drops, the switch time is recorded, the session ends ATTACHED, and the last minute's count never exceeds the limit |
| PocSession.TickSendFacts | poc/session.py:118-158 | a delivery clears the drops and stabilises a VOLATILE or DEGRADED session; a drop is counted, and when the transport is alive and the limit not reached the only possible state change is the timeout degrading an ATTACHED session; otherwise a switch follows and ends DEGRADED, TERMINATED or ATTACHED |
| PocSession.TickWithoutTransport | poc/session.py:119-120 | a tick with no active transport changes nothing |
| PocSession.TickKeepsActiveInRange | poc/session.py:118-158 | every tick keeps the active transport one of the session's transports |
| PocSession.Session.constructor | poc/session.py:30-42 | BIRTH, nothing active, no drops, last good time now, no switches, empty log |
| PocSession.Session.SetStateTo | poc/session.py:44-54 | the effect is exactly SetState's |
| PocSession.Session.SwitchRateOkNow | poc/session.py:56-59 | the effect and result are exactly SwitchRateOk's |
| PocSession.Session.AttachInitialNow | poc/session.py:68-78 | the effect is exactly AttachInitial's |
| PocSession.Session.SwitchTransportNow | poc/session.py:80-116 | the effect is exactly SwitchTransport's |
| PocSession.Session.TickSendNow | poc/session.py:118-158 | the effect is exactly TickSend's, given whether the send was delivered |
| PocSession.Session.SetAlive | poc/transport.py:16 | setting the shared transport's mutable `alive` field changes that transport's aliveness at that position and nothing else of the session |
| PocSession.DeadTransportScenario | poc/session.py:146-149 | a transport marked dead after the initial attach makes the next failed send log VOLATILE "transport_dead" and switch to the other transport, ending ATTACHED |
| AlphaSessions.RunKeepsIdentity | session_manager.py:41-88 | identity is independent of transport: after any run of attach, degrade, detach and verify calls the session id, continuity key and creation time are unchanged, verification gives the same answer, and the trace keeps its entries and gains exactly one per call |
| AlphaSessions.CreatedTraceStart | session_manager.py:52-57 | a created session's trace always starts with its SESSION_CREATED entry, whatever happens to its transports |
| AlphaSessions.TransportOperations | session_manager.py:62-83 | attaching sets the label and ACTIVE and logs one entry; degrading keeps the label; detaching clears it and logs the label it had |
| AlphaSessions.Session.constructor | session_manager.py:18-32 | NEW, created and last event now, the given key, no transport, empty trace |
| AlphaSessions.Session.Log | session_manager.py:34-38 | the effect is exactly Logged's: the last event time moves to now and one entry is appended |
| AlphaSessions.Manager.constructor | session_manager.py:49-50 | no sessions |
| AlphaSessions.Manager.CreateSession | session_manager.py:52-57 | a fresh session filed under its id, with its SESSION_CREATED entry logged |
| AlphaSessions.Manager.Get | session_manager.py:59-60 | the session filed under the id, or None exactly when there is none |
| AlphaSessions.Manager.AttachTransport | session_manager.py:62-73 | the effect is exactly Attached's |
| AlphaSessions.Manager.MarkDegraded | session_manager.py:75-77 | the effect is exactly Degraded's |
| AlphaSessions.Manager.DetachTransport | session_manager.py:79-83 | the effect is exactly DetachedView's |
| AlphaSessions.Manager.ContinuityVerified | session_manager.py:85-88 | true exactly when the key matches, with the verification logged |
| SessionLifetime.SumNonNegative | demo_engine/session_lifetime.py:12-13 | a run of non-negative ticks adds a non-negative total to the elapsed time |
| SessionLifetime.Lifetime.constructor | demo_engine/session_lifetime.py:6-10 | a new lifetime keeps both limits, starts at zero elapsed, and schedules the first heartbeat one interval in |
| SessionLifetime.Lifetime.Default | demo_engine/session_lifetime.py:6-10 | `SessionLifetime()` with no arguments: a 30,000 ms lifetime, a 3,000 ms heartbeat interval, zero elapsed and the first heartbeat at 3,000 ms |
| SessionLifetime.Lifetime.Tick | demo_engine/session_lifetime.py:12-13 | the elapsed time grows by the tick; the heartbeat schedule is unchanged |
| SessionLifetime.Lifetime.ConsumeHeartbeat | demo_engine/session_lifetime.py:18-19 | the next heartbeat moves one interval later; the elapsed time is unchanged |
| SessionLifetime.Lifetime.TickAll | demo_engine/session_lifetime.py:12-13 | a run of ticks adds exactly their total to the elapsed time |
| SessionLifetime.ExpiryIsPermanent | demo_engine/session_lifetime.py:21-22 | once expired, a session stays expired under any run of non-negative ticks |
| SessionLifetime.HeartbeatsCatchUp | demo_engine/session_lifetime.py:15-19 | with a positive interval, after the due number of consumed heartbeats the next one lies in the future, and before the last of them a heartbeat was still due |
| RecoveryStability.StabilityWindow.constructor | demo_engine/recovery.py:6-8 | a new window keeps its length and starts at zero elapsed |
| RecoveryStability.StabilityWindow.Default | demo_engine/recovery.py:6-8 | `RecoveryWindow()` with no arguments: a 2,000 ms window at zero elapsed |
| RecoveryStability.StabilityWindow.Tick | demo_engine/recovery.py:10-11 | the elapsed time grows by the tick |
| RecoveryStability.StabilityIsPermanent | demo_engine/recovery.py:10-14 | a stable window stays stable under non-negative ticks, and an unstable one needs strictly positive time to become stable |
| Hysteresis.Allow | demo_engine/hysteresis.py:11-23 | the first call allows and records the current score; later calls allow exactly when the new score beats the record by the margin, and then record it, otherwise the record is kept; a score is always recorded afterwards, and with a non-negative margin the record never goes down |
| Hysteresis.AcceptedScoresIncrease | demo_engine/hysteresis.py:19-21 | with a non-negative margin, the scores of the switches allowed after the first call each beat the starting record by the margin, each beats the one before it by the margin, the final record is the last of them, and the record never goes down |
| Hysteresis.Gate.constructor | demo_engine/hysteresis.py:7-9 | a new gate keeps its margin and has no record |
| Hysteresis.Gate.Default | demo_engine/hysteresis.py:7-9 | `Hysteresis()` with no arguments: margin 5.0 and no record |
| Hysteresis.Gate.AllowSwitch | demo_engine/hysteresis.py:11-23 | the verdict and the new record are those of `Allow` on the old record |
| HysteresisDecay.Decayed | demo_engine/hysteresis_decay.py:12-16 | one decay never goes below the minimum, never raises a margin that is at or above the minimum, and yields either the minimum or the margin less the rate |
| HysteresisDecay.DecayClosedForm | demo_engine/hysteresis_decay.py:12-16 | after k >= 1 decays with a non-negative rate the margin is the initial one less k rates, floored at the minimum |
| HysteresisDecay.DecayNeverRises | demo_engine/hysteresis_decay.py:12-16 | starting at or above the minimum, any number of decays keeps the margin between the minimum and the initial margin |
| HysteresisDecay.Decay.constructor | demo_engine/hysteresis_decay.py:7-10 | a new decay keeps its initial margin, rate and minimum |
| HysteresisDecay.Decay.Default | demo_engine/hysteresis_decay.py:7-10 | `HysteresisDecay()` with no arguments: margin 5.0, rate 0.1 and minimum 1.0 |
| HysteresisDecay.Decay.Tick | demo_engine/hysteresis_decay.py:12-16 | the margin becomes its one-step decay |
| ProtocolInvariantChecks.SwitchViolationsCount | demo_engine/invariants_checker.py:28-34 | the switch-before-degraded violations number the switches before the first DEGRADED_ENTERED, or all the switches when the session never degraded |
| ProtocolInvariantChecks.NoSwitchViolationIff | demo_engine/invariants_checker.py:28-34 | there is no switch violation exactly when every TRANSPORT_SWITCH has a DEGRADED_ENTERED somewhere before it |
| ProtocolInvariantChecks.InvariantsIff | demo_engine/invariants_checker.py:18-41 | a trace yields no violation exactly when its timestamps never go down, SESSION_EXPIRED occurs exactly once, and every switch follows some DEGRADED_ENTERED |
| ProtocolInvariantChecks.InvariantsChecker.constructor | demo_engine/invariants_checker.py:8-11 | a new checker holds the loaded events and no errors |
| ProtocolInvariantChecks.InvariantsChecker.CheckMonotonicTimestamps | demo_engine/invariants_checker.py:18-21 | appends the monotonicity violation exactly when the timestamps differ from their sorted order |
| ProtocolInvariantChecks.InvariantsChecker.CheckSingleExpiry | demo_engine/invariants_checker.py:23-26 | appends the expiry violation exactly when SESSION_EXPIRED does not occur exactly once |
| ProtocolInvariantChecks.InvariantsChecker.CheckSwitchAfterDegraded | demo_engine/invariants_checker.py:28-34 | appends one violation per switch seen before any DEGRADED_ENTERED |
| ProtocolInvariantChecks.InvariantsChecker.Validate | demo_engine/invariants_checker.py:36-41 | returns the accumulated errors: the three checks' violations in order after any earlier ones |
| DemoSpecChecks.PhaseErrorsExact | demo_engine/spec_checker.py:35-39 | the phase errors name exactly the required phases that are absent, and are empty exactly when every required phase was seen |
| DemoSpecChecks.ProgressIndexable | demo_engine/spec_checker.py:41-47 | every RECOVERY_PROGRESS event carries an integer `elapsed_ms`, so the elapsed list can be read |
| DemoSpecChecks.Elapsed | demo_engine/spec_checker.py:47 | there is one elapsed time per RECOVERY_PROGRESS event |
| DemoSpecChecks.RecoveryCheckIff | demo_engine/spec_checker.py:41-52 | without progress events the check reports that alone; otherwise it passes exactly when the elapsed times never go down and the last is at least 2000 ms |
| DemoSpecChecks.PhaseCheckIff | demo_engine/spec_checker.py:8-39 | the phase check passes exactly when every one of the fourteen required phases occurs in the trace |
| DemoSpecChecks.SpecCheckIff | demo_engine/spec_checker.py:35-64 | a trace meets the demo specification exactly when every required phase occurs, progress events exist with non-decreasing elapsed times whose last reaches 2000 ms, and a transport switch occurs |
| DemoSpecChecks.DemoSpecChecker.constructor | demo_engine/spec_checker.py:25-28 | a new checker holds the loaded events and no errors |
| DemoSpecChecks.DemoSpecChecker.CheckRequiredPhases | demo_engine/spec_checker.py:35-39 | appends one missing-phase error per absent required phase, in the required order |
| DemoSpecChecks.DemoSpecChecker.CheckRecoveryWindow | demo_engine/spec_checker.py:41-52 | appends the recovery errors: missing progress alone, or not-increasing and too-short as they apply |
| DemoSpecChecks.DemoSpecChecker.CheckSwitchingLogic | demo_engine/spec_checker.py:54-57 | appends the missing-switch error exactly when no TRANSPORT_SWITCH occurs |
| DemoSpecChecks.DemoSpecChecker.Validate | demo_engine/spec_checker.py:59-64 | returns the accumulated errors: the three checks' errors in order after any earlier ones |
| PhaseDurations.LastStampsHas | demo_engine/phase_duration.py:29-32 | a phase is recorded exactly when some event carries its name |
| PhaseDurations.LastStampsLatest | demo_engine/phase_duration.py:29-32 | a recorded phase holds the timestamp of its last occurrence |
| PhaseDurations.LastStampsKeys | demo_engine/phase_duration.py:29-32 | only phases of the phase order are recorded |
| PhaseDurations.LabelsDistinct | demo_engine/phase_duration.py:8-39 | distinct consecutive pairs of phases have distinct duration keys |
| PhaseDurations.DurationsMeaning | demo_engine/phase_duration.py:34-39 | after the first k pairs, a pair's key is present exactly when both its phases were recorded, and its value is the later timestamp less the earlier |
| PhaseDurations.LabelNotYet | demo_engine/phase_duration.py:34-39 | the key of pair k is not written by the first k pairs |
| PhaseDurations.DurationsOnlyLabels | demo_engine/phase_duration.py:34-39 | the durations hold only keys of pairs already visited, at most one per pair |
| PhaseDurations.PhaseDurationsBound | demo_engine/phase_duration.py:34-39 | `generate` reports at most seven durations |
| PhaseDurations.PhaseDurationsMeaning | demo_engine/phase_duration.py:23-43 | the duration from a phase to the next is reported exactly when both occur in the trace, and equals the difference between the timestamps of their last occurrences |
| PhaseDurations.Generate | demo_engine/phase_duration.py:23-43 | the two loops produce exactly the durations of the trace, at most seven of them |
| Timeline.FilterKeepsKeyEvents | demo_engine/timeline_generator.py:9-31 | the filter keeps only key events of the input, keeps every key event of the input, holds each key event as often as the input does and no other event, and never grows the trace |
| Timeline.FilterIsKeySubsequence | demo_engine/timeline_generator.py:30-31 | the filter's result is the input's subsequence at the key-event positions, in input order: its k-th event is the input's event at the k-th key position, and a position is listed exactly when the input holds a key event there |
| Timeline.WithKeyAppend | demo_engine/timeline_generator.py:46 | the events of one timestamp in a concatenation are those of the first part followed by those of the second |
| Timeline.InsertSorted | demo_engine/timeline_generator.py:46 | inserting into a sorted sequence keeps it sorted by `ts_ms`, adds one element, and the last timestamp becomes the larger of the two |
| Timeline.InsertPermutes | demo_engine/timeline_generator.py:46 | inserting adds exactly the inserted event to the multiset |
| Timeline.InsertIsStable | demo_engine/timeline_generator.py:46 | inserting places the new event after every event with the same timestamp |
| Timeline.SortByTsSorted | demo_engine/timeline_generator.py:46 | the sort orders the events by `ts_ms` and keeps their number |
| Timeline.SortByTsPermutes | demo_engine/timeline_generator.py:46 | the sort is a permutation of its input |
| Timeline.SortByTsStable | demo_engine/timeline_generator.py:46 | the sort is stable: the events of each timestamp keep their input order |
| Timeline.Normalize | demo_engine/timeline_generator.py:33-41 | the normalized event holds exactly the timestamp, name and session id, each equal to the original's |
| Timeline.NormalizeAllAt | demo_engine/timeline_generator.py:49-50 | each written line is the normalized form of the event at the same place |
| Timeline.SortedKeyEventsNormalizable | demo_engine/timeline_generator.py:38-46 | every sorted key event carries the three fields that `normalize` reads |
| Timeline.GenerateFacts | demo_engine/timeline_generator.py:43-50 | the timeline has one line per key event, in non-decreasing `ts_ms` order, and line i is the normalized form (timestamp, name, session id) of the event at place i of the stable sort of the key events |
| ReplayChecks.WrongIf | demo_engine/replay.py:99-110 | a failed type test gives exactly one type error, a passed one none |
| ReplayChecks.EventErrorsFacts | demo_engine/replay.py:88-110 | an event has no errors exactly when it has every required key with the right types; the missing-keys error comes first with exactly the missing set, and every other error is a type error |
| ReplayChecks.FieldErrorsEmpty | demo_engine/replay.py:84-112 | the field check reports no error exactly when every event is well formed |
| ReplayChecks.FieldErrorsStep | demo_engine/replay.py:88-110 | the errors of a prefix are empty exactly when those of the shorter prefix and of the last event are |
| ReplayChecks.MissingKeysReported | demo_engine/replay.py:89-91 | an event lacking required keys is reported at its index with exactly the missing set |
| ReplayChecks.ErrorsNameTheirEvent | demo_engine/replay.py:88-110 | every field error names an event of the trace and is a type error or that event's missing keys, so unknown keys never cause an error |
| ReplayChecks.UnknownKeysWarned | demo_engine/replay.py:93-96 | an event with keys outside the required and optional ones gets a warning naming exactly them |
| ReplayChecks.ValidateRequiredFields | demo_engine/replay.py:84-112 | the loop returns exactly the per-event errors and warnings, in event order |
| ReplayChecks.TimeErrors | demo_engine/replay.py:122-123 | one time error per decrease found |
| ReplayChecks.VersionErrors | demo_engine/replay.py:152-153 | one state-version error per decrease found |
| ReplayChecks.ValidateMonotonicTime | demo_engine/replay.py:115-125 | reports each timestamp below the last one seen, skipping absent and null ones, and reports nothing exactly when the timestamps never go down |
| ReplayChecks.ValidateMonotonicStateVersion | demo_engine/replay.py:141-155 | reports each state version below the last one seen, and nothing exactly when the versions never go down |
| ReplayChecks.FirstSessionId | demo_engine/replay.py:130-131 | the first string session id is one of the trace's ids, and there is none only when the trace has no string id |
| ReplayChecks.SingleSession | demo_engine/replay.py:128-138 | a session id is returned exactly when the trace has exactly one distinct string id, with no error; no id gives the no-session error and several give the multiple-ids error naming them |
| ReplayChecks.CounterErrorsIffIncreasing | demo_engine/replay.py:174-183 | the counter scan reports nothing exactly when each counter exceeds the one before it |
| ReplayChecks.CounterErrorsGrow | demo_engine/replay.py:174-183 | an error found in a prefix stays among the errors of any longer prefix |
| ReplayChecks.DuplicateFlagged | demo_engine/replay.py:177-180 | every repetition of a counter value is reported as a replay at the repeating event |
| ReplayChecks.NoCounterNoValues | demo_engine/replay.py:169-172 | a trace without counters has no counter values |
| ReplayChecks.CounterAntiReplayFacts | demo_engine/replay.py:158-185 | without any counter only the warning is given; otherwise there is no error exactly when the counters strictly increase |
| ReplayChecks.ValidateCounterAntiReplay | demo_engine/replay.py:158-185 | the loop with its seen set and last counter returns exactly the anti-replay errors and warnings |
| ReplayChecks.AttachedMentions | demo_engine/replay.py:206-212 | the count of ATTACHED mentions is zero exactly when no event has state ATTACHED or is a STATE_CHANGE to ATTACHED |
| ReplayChecks.CoreClaim | demo_engine/replay.py:188-223 | there is no error exactly when some event is TRANSPORT_SWITCH and no event has state TERMINATED; each of the three warnings is given exactly when its mention is missing |
| ReplayChecks.ValidateCoreClaim | demo_engine/replay.py:188-223 | returns exactly the core-claim errors and warnings |
| ReplayChecks.Run | demo_engine/replay.py:230-263 | the runner returns the verdict, the errors of all the validators in order, their warnings and the session id |
| ReplayChecks.RunOkIff | demo_engine/replay.py:230-263 | a trace passes exactly when it has no errors, which holds exactly when every event is well formed, it names one session, timestamps and state versions never go down, counters strictly increase, a transport switch occurs and no state is TERMINATED; a passing trace reports its single session id |
| ContinuityVerifier.GetTs | demo_engine/continuity_verifier.py:26-32 | the timestamp is `ts_ms` when present, else `ts`, and absent exactly when neither key is there |
| ContinuityVerifier.GetSessionId | demo_engine/continuity_verifier.py:35-41 | the session id is the string form of `session_id` when present, else of `session`, and absent exactly when neither key is there |
| ContinuityVerifier.Upper | demo_engine/continuity_verifier.py:113 | upper-casing keeps the length |
| ContinuityVerifier.BrokenSticks | demo_engine/continuity_verifier.py:62-101 | once the scan has raised, later events do not change the failure |
| ContinuityVerifier.BrokenVerdict | demo_engine/continuity_verifier.py:62-101 | a failure raised within the first n events is the verdict |
| ContinuityVerifier.VerifyTrace | demo_engine/continuity_verifier.py:44-140 | the loop with its running state returns exactly the verdict of `verify` |
| ContinuityVerifier.SidsAfter | demo_engine/continuity_verifier.py:66-73 | appending an event's session id keeps the ids in agreement exactly when it does not differ from the base id, and the base becomes the first id seen |
| ContinuityVerifier.StepsAfter | demo_engine/continuity_verifier.py:76-97 | appending an optional value keeps a sequence non-decreasing exactly when it is not below the last value, which it then becomes |
| ContinuityVerifier.BreaksPersist | demo_engine/continuity_verifier.py:62-101 | disagreeing ids and a decrease persist when more values follow |
| ContinuityVerifier.AdvanceRecords | demo_engine/continuity_verifier.py:62-115 | an event that breaks nothing updates the base id, the last timestamp and state version, and the three counts to those of the longer prefix |
| ContinuityVerifier.ScanRunningStep | demo_engine/continuity_verifier.py:62-115 | on a running scan, one more event keeps it running exactly when the longer prefix is continuous, and the state then records that prefix |
| ContinuityVerifier.ContinuityBreakPersists | demo_engine/continuity_verifier.py:62-101 | a prefix that breaks continuity still breaks it with one more event |
| ContinuityVerifier.ScanMeaning | demo_engine/continuity_verifier.py:62-115 | the scan gets through the first n events exactly when their session ids agree, timestamps and state versions never go down and no identity-reset marker occurs; its state then holds the first id, the last timestamp and version and the counts |
| ContinuityVerifier.BrokenAtEvent | demo_engine/continuity_verifier.py:62-101 | a scan raises only at an event it has seen, numbered from 1, and only for a changed id, a backwards timestamp or state version, or an identity-reset marker |
| ContinuityVerifier.SidsAgree | demo_engine/continuity_verifier.py:66-73 | the ids seen agree exactly when every two events' session ids agree, and the base id is then the id of every event that carries one |
| ContinuityVerifier.SidsWitness | demo_engine/continuity_verifier.py:66-69 | the base id is the id of some event |
| ContinuityVerifier.VerifyPassIff | demo_engine/continuity_verifier.py:44-140 | a trace passes exactly when all its session ids agree, timestamps and state versions never go down, no identity-reset marker occurs, SESSION_CREATED occurs exactly once and no audit fails; the summary then reports that session, the event and switch counts, and the last timestamp and state version |
| ContinuityVerifier.RecreationCheckIsDead | demo_engine/continuity_verifier.py:117-127 | the session re-creation failure is never the verdict, because the creation count is already exactly one at that point |
| DemoValidation.RequiredErrorsExact | demo_engine/validator.py:34-38 | the required-event errors name only absent required events, name every absent one, are at most one per required event, and are empty exactly when every required event was seen |
| DemoValidation.Matched | demo_engine/validator.py:59-64 | the greedy scan never matches more names than are expected or events than it has read |
| DemoValidation.MatchedGrows | demo_engine/validator.py:59-64 | reading more events never loses a match, so the early `break` changes nothing |
| DemoValidation.GreedyIsComplete | demo_engine/validator.py:45-67 | the greedy scan matches the first k expected names exactly when they occur in order among the events, as a subsequence |
| DemoValidation.ValidationIff | demo_engine/validator.py:82-89 | a trace validates exactly when every required event occurs, the timestamps never go down (equal ones pass), the expected progression occurs in order and the first audit has truthy `identity_ok` and `dual_binding_ok` |
| DemoValidation.RequiredCheckIff | demo_engine/validator.py:9-38 | the required-event check passes exactly when each of the twelve required names occurs |
| DemoValidation.ProgressionCheckIff | demo_engine/validator.py:45-67 | the progression check passes exactly when the six expected names occur in order |
| DemoValidation.AuditErrorsIff | demo_engine/validator.py:69-80 | the audit check passes exactly when there is an audit event and the first one has both flags truthy |
| DemoValidation.DemoValidator.constructor | demo_engine/validator.py:24-27 | a new validator holds the loaded events and no errors |
| DemoValidation.DemoValidator.CheckRequiredEvents | demo_engine/validator.py:34-38 | appends one error per absent required event, in the required order |
| DemoValidation.DemoValidator.CheckTimestampOrder | demo_engine/validator.py:40-43 | appends the order error exactly when the timestamps differ from their sorted order |
| DemoValidation.DemoValidator.CheckStateProgression | demo_engine/validator.py:45-67 | appends the progression error exactly when the greedy scan does not match every expected name |
| DemoValidation.DemoValidator.CheckAudit | demo_engine/validator.py:69-80 | appends the missing-audit error alone when there is no audit, otherwise one error for each falsy flag of the first audit |
| DemoValidation.DemoValidator.Validate | demo_engine/validator.py:82-89 | returns the accumulated errors: the four checks' errors in order after any earlier ones |
| TraceEvents.Get | demo_engine/replay.py:119 | `ev.get(key)` is nothing exactly when the key is absent or null, and otherwise the stored value |
| TraceEvents.Digits | demo_engine/continuity_verifier.py:38 | the decimal text of a number is non-empty and made of digits |
| TraceEvents.StepsIffNonDecreasing | demo_engine/invariants_checker.py:19-20 | comparing neighbours is equivalent to every pair being in order, that is, to the list equalling its sorted form |
| TraceEvents.StepsIffIncreasing | demo_engine/replay.py:174-183 | neighbours strictly increasing is equivalent to every pair strictly increasing |
| TraceEvents.StepsIncreasingSnoc | demo_engine/replay.py:177-183 | appending a value keeps the neighbours strictly increasing exactly when it exceeds the previous last value |
| TraceEvents.CountedIntsLength | demo_engine/invariants_checker.py:19 | when every event has the key, one value is read per event |
| TraceEvents.CountedIntsContain | demo_engine/replay.py:177-180 | the value of every event that has the key is among the values read |
| TraceEvents.NoDecreasesIffSorted | demo_engine/replay.py:115-155 | no value is below the last compared one exactly when the compared values never go down between neighbours |
| TraceEvents.FindDecreases | demo_engine/replay.py:115-155 | the scan with its last compared value returns exactly the decreases, none exactly when the values never go down |
| TraceEvents.CountNamed | demo_engine/invariants_checker.py:24-25 | the count of events of a name is at most the number of events, and zero exactly when none has that name |
| TraceEvents.Named | demo_engine/invariants_checker.py:24 | the filtered events never outnumber the trace |
| TraceEvents.NamedFacts | demo_engine/invariants_checker.py:24 | the filter keeps exactly the events of that name, as many as are counted, is empty exactly when none occurs, and starts with the first such event |
| TraceEvents.Names | demo_engine/validator.py:35 | the set of names holds a name exactly when some event carries it |

## Left out

- Input and output: file and JSON-lines loading, JSON decoding, file writing, `print` and the `main` functions of the checkers. Each checker receives its events already decoded.
- Concurrency: the store's `RLock`, the prototype server's lock and thread, and the `async` of the proof-of-concept session. Every operation is a sequential call.
- Wall-clock reads: `time.time()` is replaced by an explicit `now` parameter everywhere.
- Sockets, wire formats and HMAC in `prototype/server.py`: the model keeps only the counter and path decision of its receive loop. Reply encoding and authentication are not modelled.
- Randomness: session ids and continuity keys in `session_manager.py` are parameters.
- `core/server/gateway.py` is not part of this model. It wraps state-machine entry points that do not exist in the code.
- `core/observability/event_bus.py` is not part of this model. Emitted events are an appended sequence in `RuntimeWithEvents`.
- `core/common/reason_codes.py` is not part of this model. `reason_codes.dfy` declares exactly the codes its callers name, plus one for the missing identity check.
- RateLimiter.RetryAfterMs: computes `int(x + 0.999)` in exact real arithmetic; the floating-point rounding of the division and the addition is not modelled.
- RecoveryMetrics.SummaryOf: the success rate is the exact real quotient recovered / total; its floating-point representation is not modelled.
- HysteresisDecay.Decay.GetMargin: `round(margin, 2)` is not modelled; the margin is returned exactly. Margins and scores are reals, not floats.
- Python's `int()` conversions and the KeyError and TypeError of direct indexing are preconditions: the requires of a checker demand the fields it indexes. Likewise, values it compares must be integers (a bool counts as one, as `isinstance` says).
- ContinuityVerifier.Upper: upper-cases ASCII letters only.
- TableMachine.Machine.Transition: takes a `DemoState`, where the source accepts any string. An unknown name is refused with the same `ValueError` in the source; the model cannot express such a call, and so does not capture that message's text for it.
- SessionStateMachine.RunKeepsBindingConsistent: keeps only "ATTACHED means bound" and "RECOVERING or TERMINATED means unbound". The converse "bound means ATTACHED" is not kept by the code, because `degrade` and the VOLATILE transition keep the binding (`SessionStateMachine.DegradeKeepsBindingOffAttached`).
- Invariants.RecordBindingNeverDual: shows only that the literal count check cannot fail on a record. The "bound exactly when ATTACHED" rule that the helper evidently stands for (`Invariants.BoundIffAttached`) is not kept by the code (`ServerStateMachine.KeptBindingOffAttached`).
- Aliasing: the source hands out live mutable records that callers then change: the ownership registry's records, the prototype server's and prototype session manager's session entries, and the proof-of-concept session's transport objects, whose `alive` field is shared with their creator. The model stores datatype values in maps and sequences, so a returned record is a snapshot, and a transport object listed twice is two independent entries. Each mutation the source makes through such a reference is a method of the owning class. Sequential behaviour is the same.
- PocSession.ChooseNext: skips the active transport by its position in the list. The source skips by object identity (`t is not self.active`), so an object listed twice is skipped at both positions there; the model skips only the active position.
- Python's `str()` of values other than integers, strings, booleans and null is the text carried in the value; JSON floats, lists and objects are not decoded further.
- PhaseDurations.Generate: the insertion order of the `durations` dictionary is not modelled; the result is a map.
- ReplayChecks.Run: the result's statistics other than the session id (path, event count, key presence, sorted names) are not modelled.
- Timeline.SortByTs: the sort key of an event without an integer `ts_ms` is 0. Every key event has one under the checker's precondition, so this case does not arise.
- Plain getters: TransportManager's `has_candidates`, `list_candidates` and `last_switch_ms`; the runtime controllers' `get_state`, `get_metrics` and `debug_snapshot`; RecoveryMetrics' `to_dict`; the proof-of-concept session's `summary`. Each returns a field or a copy.
- ClientAgent's `_emit` is a no-op in the source and is not modelled.
- SessionLifetime, RecoveryStability: `should_heartbeat`, `expired` and `is_stable` are predicates on the class, with no contract of their own; the lemmas beside them state their properties.
