// core/security/anti_replay.py: a per-session nonce gate.  Duplicates and
// stale nonces are refused, a nonce too far ahead of the last one is refused,
// and the set of remembered nonces is pruned to a bounded window.
module AntiReplay {
  import opened OptionType

  datatype Decision = Accept | RejectStale | RejectDuplicate | RejectWindowExceeded | RejectMissingNonce

  datatype NonceReason = NonceAccepted | NonceStale | NonceDuplicate | NonceWindowExceeded | NonceMissing

  datatype Policy = Policy(maxGap: int, trackWindow: int)

  const DefaultPolicy := Policy(256, 512)

  datatype ReplayState = ReplayState(lastSeenNonce: int, usedNonces: set<nat>, minTracked: int, maxTracked: int)

  /** The state of a session seen for the first time. */
  const FreshState := ReplayState(-1, {}, 0, 0)

  datatype AntiReplayResult = AntiReplayResult(
    decision: Decision,
    reasonCode: NonceReason,
    lastSeenNonce: int,
    acceptedNonce: Option<int>)

  datatype DebugSnapshot = DebugSnapshot(
    lastSeenNonce: int,
    trackedCount: int,
    minTracked: int,
    maxTracked: int,
    maxGap: int,
    trackWindow: int)

  /** The lowest nonce the pruned window keeps, never below 0. */
  function LowerBound(lastSeen: int, trackWindow: int): (lo: int)
    ensures lo >= 0 && lo >= lastSeen - trackWindow + 1
    ensures lo == 0 || lo == lastSeen - trackWindow + 1
  {
    if lastSeen - trackWindow + 1 < 0 then 0 else lastSeen - trackWindow + 1
  }

  /** The nonces of `used` that a prune at `lastSeen` keeps. */
  function Window(used: set<nat>, lastSeen: int, trackWindow: int): set<nat>
  {
    if lastSeen < 0 then {} else set n | n in used && n >= LowerBound(lastSeen, trackWindow)
  }

  /** `minTracked`/`maxTracked` are the least and greatest tracked nonce, or 0/0 when none is tracked. */
  predicate MinMaxExact(st: ReplayState)
  {
    (st.usedNonces == {} ==> st.minTracked == 0 && st.maxTracked == 0)
    && (st.usedNonces != {} ==>
          st.minTracked in st.usedNonces && st.maxTracked in st.usedNonces
          && forall n :: n in st.usedNonces ==> st.minTracked <= n <= st.maxTracked)
  }

  /** Every tracked nonce lies in `[LowerBound(lastSeen), lastSeen]`. */
  predicate InWindow(st: ReplayState, trackWindow: int)
  {
    st.lastSeenNonce >= -1
    && forall n :: n in st.usedNonces ==> LowerBound(st.lastSeenNonce, trackWindow) <= n <= st.lastSeenNonce
  }

  predicate StateOk(st: ReplayState, trackWindow: int)
  {
    InWindow(st, trackWindow) && MinMaxExact(st)
  }

  function StateOf(m: map<string, ReplayState>, sessionId: string): ReplayState
  {
    if sessionId in m then m[sessionId] else FreshState
  }

  /** The gate's verdict on a nonce, given the session's state. */
  function Decide(st: ReplayState, nonce: Option<int>, maxGap: int): (d: Decision)
    ensures nonce.None? <==> d == RejectMissingNonce
    ensures nonce.Some? && nonce.value in st.usedNonces ==> d == RejectDuplicate
    ensures d == RejectStale <==> nonce.Some? && nonce.value !in st.usedNonces && nonce.value <= st.lastSeenNonce
    ensures d == RejectWindowExceeded <==>
              nonce.Some? && nonce.value !in st.usedNonces && nonce.value > st.lastSeenNonce
              && st.lastSeenNonce >= 0 && nonce.value - st.lastSeenNonce > maxGap
    ensures d == Accept ==> nonce.Some? && nonce.value > st.lastSeenNonce && nonce.value !in st.usedNonces
    ensures d == Accept ==> st.lastSeenNonce < 0 || nonce.value - st.lastSeenNonce <= maxGap
  {
    if nonce.None? then RejectMissingNonce
    else if nonce.value in st.usedNonces then RejectDuplicate
    else if nonce.value <= st.lastSeenNonce then RejectStale
    else if st.lastSeenNonce >= 0 && nonce.value - st.lastSeenNonce > maxGap then RejectWindowExceeded
    else Accept
  }

  function ReasonFor(d: Decision): NonceReason
  {
    match d
    case Accept => NonceAccepted
    case RejectStale => NonceStale
    case RejectDuplicate => NonceDuplicate
    case RejectWindowExceeded => NonceWindowExceeded
    case RejectMissingNonce => NonceMissing
  }

  /** The least and greatest element of a non-empty set (`min(...)`, `max(...)`). */
  method MinMax(s: set<nat>) returns (lo: nat, hi: nat)
    requires s != {}
    ensures lo in s && hi in s && forall n :: n in s ==> lo <= n <= hi
  {
    var first :| first in s;
    lo, hi := first, first;
    var rest := s - {first};
    while rest != {}
      invariant rest <= s && lo in s && hi in s
      invariant forall n :: n in s && n !in rest ==> lo <= n <= hi
      decreases |rest|
    {
      var n :| n in rest;
      if n < lo { lo := n; }
      if n > hi { hi := n; }
      rest := rest - {n};
    }
  }

  /** Drops every tracked nonce below the window and recomputes min/max. */
  method Prune(st: ReplayState, trackWindow: int) returns (p: ReplayState)
    ensures p.lastSeenNonce == st.lastSeenNonce
    ensures p.usedNonces == Window(st.usedNonces, st.lastSeenNonce, trackWindow)
    ensures MinMaxExact(p)
  {
    if st.lastSeenNonce < 0 {
      return st.(usedNonces := {}, minTracked := 0, maxTracked := 0);
    }
    var lower := st.lastSeenNonce - trackWindow + 1;
    if lower < 0 {
      lower := 0;
    }
    if st.usedNonces == {} {
      return st.(minTracked := 0, maxTracked := 0);
    }
    var used := st.usedNonces;
    var toRemove := set n | n in used && n < lower;
    var pending := toRemove;
    while pending != {}
      invariant pending <= toRemove
      invariant used == st.usedNonces - (toRemove - pending)
      decreases |pending|
    {
      var n :| n in pending;
      used := used - {n};
      pending := pending - {n};
    }
    assert used == Window(st.usedNonces, st.lastSeenNonce, trackWindow);
    if used != {} {
      var lo, hi := MinMax(used);
      p := st.(usedNonces := used, minTracked := lo, maxTracked := hi);
    } else {
      p := st.(usedNonces := used, minTracked := 0, maxTracked := 0);
    }
  }

  /** A set of integers inside `[lo, hi]` has at most `hi - lo + 1` elements. */
  lemma {:induction false} BoundedSetSize(s: set<nat>, lo: nat, hi: int)
    requires forall n :: n in s ==> lo <= n <= hi
    ensures |s| <= if hi < lo then 0 else hi - lo + 1
    decreases hi - lo
  {
    if hi < lo {
      assert s == {};
    } else {
      BoundedSetSize(s - {hi}, lo, hi - 1);
    }
  }

  /** Bounded memory: a pruned state never tracks more than `trackWindow` nonces. */
  lemma {:induction false} TrackedAtMostWindow(st: ReplayState, trackWindow: int)
    requires InWindow(st, trackWindow) && trackWindow >= 0
    ensures |st.usedNonces| <= trackWindow
  {
    BoundedSetSize(st.usedNonces, LowerBound(st.lastSeenNonce, trackWindow), st.lastSeenNonce);
  }

  /** The state an accepted nonce leaves is again in its window with exact min/max. */
  lemma AcceptedStateOk(st0: ReplayState, n: int, trackWindow: int, p: ReplayState)
    requires InWindow(st0, trackWindow) && n > st0.lastSeenNonce
    requires p.lastSeenNonce == n && p.usedNonces == Window(st0.usedNonces + {n}, n, trackWindow) && MinMaxExact(p)
    ensures StateOk(p, trackWindow)
  {
  }

  predicate AllStatesOk(m: map<string, ReplayState>, trackWindow: int)
  {
    forall k :: k in m ==> StateOk(m[k], trackWindow)
  }

  /** Storing a well-formed state keeps every state of the table well formed. */
  lemma PutKeepsStatesOk(m: map<string, ReplayState>, id: string, st: ReplayState, trackWindow: int)
    requires AllStatesOk(m, trackWindow) && StateOk(st, trackWindow)
    ensures AllStatesOk(m[id := st], trackWindow)
  {
  }

  class AntiReplayWindow {
    const policy: Policy
    var sessions: map<string, ReplayState>

    ghost predicate Valid()
      reads this
    {
      AllStatesOk(sessions, policy.trackWindow)
    }

    /** `policy or AntiReplayPolicy()`: a policy object is always truthy. */
    constructor (policy: Option<Policy>)
      ensures this.policy == (if policy.Some? then policy.value else DefaultPolicy)
      ensures sessions == map[] && Valid()
    {
      this.policy := if policy.Some? then policy.value else DefaultPolicy;
      sessions := map[];
    }

    /** The session's state, created fresh on first use. */
    method GetState(sessionId: string) returns (st: ReplayState)
      requires Valid()
      modifies this
      ensures Valid()
      ensures st == StateOf(old(sessions), sessionId)
      ensures sessions == old(sessions)[sessionId := st]
    {
      if sessionId in sessions {
        st := sessions[sessionId];
        assert sessions == sessions[sessionId := st];
      } else {
        st := FreshState;
        PutKeepsStatesOk(sessions, sessionId, st, policy.trackWindow);
        sessions := sessions[sessionId := st];
      }
    }

    method ValidateAndRecord(sessionId: string, nonce: Option<int>) returns (r: AntiReplayResult)
      requires Valid()
      modifies this
      ensures Valid()
      ensures var st0 := StateOf(old(sessions), sessionId);
              r.decision == Decide(st0, nonce, policy.maxGap) && r.reasonCode == ReasonFor(r.decision)
      ensures var st0 := StateOf(old(sessions), sessionId);
              r.decision != Accept ==>
                r.lastSeenNonce == st0.lastSeenNonce && r.acceptedNonce.None? && sessions == old(sessions)[sessionId := st0]
      ensures var st0 := StateOf(old(sessions), sessionId);
              r.decision == Accept ==>
                sessionId in sessions && sessions.Keys == old(sessions).Keys + {sessionId}
                && (forall id :: id in old(sessions) && id != sessionId ==> sessions[id] == old(sessions)[id])
                && sessions[sessionId].lastSeenNonce == nonce.value
                && sessions[sessionId].usedNonces == Window(st0.usedNonces + {nonce.value}, nonce.value, policy.trackWindow)
                && r.lastSeenNonce == nonce.value && r.acceptedNonce == nonce
    {
      ghost var st0 := StateOf(sessions, sessionId);
      ghost var before := sessions;
      assert StateOk(st0, policy.trackWindow);
      if nonce.None? {
        var st := GetState(sessionId);
        return AntiReplayResult(RejectMissingNonce, NonceMissing, st.lastSeenNonce, None);
      }
      var n := nonce.value;
      var st := GetState(sessionId);
      if n in st.usedNonces {
        return AntiReplayResult(RejectDuplicate, NonceDuplicate, st.lastSeenNonce, None);
      }
      if n <= st.lastSeenNonce {
        return AntiReplayResult(RejectStale, NonceStale, st.lastSeenNonce, None);
      }
      var gap := n - st.lastSeenNonce;
      if st.lastSeenNonce >= 0 && gap > policy.maxGap {
        return AntiReplayResult(RejectWindowExceeded, NonceWindowExceeded, st.lastSeenNonce, None);
      }
      // Accept: advance, remember, update min/max, then prune.
      st := st.(lastSeenNonce := n, usedNonces := st.usedNonces + {n});
      if |st.usedNonces| == 1 {
        st := st.(minTracked := n, maxTracked := n);
      } else {
        if n < st.minTracked { st := st.(minTracked := n); }
        if n > st.maxTracked { st := st.(maxTracked := n); }
      }
      st := Prune(st, policy.trackWindow);
      assert Decide(st0, nonce, policy.maxGap) == Accept;
      AcceptedStateOk(st0, n, policy.trackWindow, st);
      PutKeepsStatesOk(sessions, sessionId, st, policy.trackWindow);
      sessions := sessions[sessionId := st];
      return AntiReplayResult(Accept, NonceAccepted, st.lastSeenNonce, Some(n));
    }

    method GetDebugSnapshot(sessionId: string) returns (d: DebugSnapshot)
      requires Valid()
      modifies this
      ensures Valid()
      ensures sessions == old(sessions)[sessionId := StateOf(old(sessions), sessionId)]
      ensures var st := StateOf(old(sessions), sessionId);
              d == DebugSnapshot(st.lastSeenNonce, |st.usedNonces|, st.minTracked, st.maxTracked, policy.maxGap, policy.trackWindow)
    {
      var st := GetState(sessionId);
      d := DebugSnapshot(st.lastSeenNonce, |st.usedNonces|, st.minTracked, st.maxTracked, policy.maxGap, policy.trackWindow);
    }
  }

  /** The first nonce of a session is never refused for its gap, however large. */
  lemma FirstNonceNeverTooFar(n: int, maxGap: int)
    requires n >= 0
    ensures Decide(FreshState, Some(n), maxGap) == Accept
  {
  }

  /** A gap of exactly `maxGap` is accepted; one more is not. */
  lemma GapBoundary(st: ReplayState, maxGap: int, trackWindow: int)
    requires InWindow(st, trackWindow) && st.lastSeenNonce >= 0 && maxGap > 0
    ensures Decide(st, Some(st.lastSeenNonce + maxGap), maxGap) == Accept
    ensures Decide(st, Some(st.lastSeenNonce + maxGap + 1), maxGap) == RejectWindowExceeded
  {
  }

  /** The example: with max_gap 8 and track window 16, nonce 1 is accepted,
      repeating it is a duplicate, and 0 afterwards is stale. */
  method ExampleUsage() returns (r1: AntiReplayResult, r2: AntiReplayResult, r3: AntiReplayResult, snap: DebugSnapshot)
    ensures r1 == AntiReplayResult(Accept, NonceAccepted, 1, Some(1))
    ensures r2 == AntiReplayResult(RejectDuplicate, NonceDuplicate, 1, None)
    ensures r3 == AntiReplayResult(RejectStale, NonceStale, 1, None)
    ensures snap == DebugSnapshot(1, 1, 1, 1, 8, 16)
  {
    var ar := new AntiReplayWindow(Some(Policy(8, 16)));
    r1 := ar.ValidateAndRecord("sess_demo_001", Some(1));
    assert Window({} + {1}, 1, 16) == {1};
    assert ar.sessions["sess_demo_001"].usedNonces == {1};
    r2 := ar.ValidateAndRecord("sess_demo_001", Some(1));
    r3 := ar.ValidateAndRecord("sess_demo_001", Some(0));
    snap := ar.GetDebugSnapshot("sess_demo_001");
  }
}
