// demo_engine/continuity_verifier.py: a single pass over a trace that fails
// at the first event breaking session continuity (a changed session id, a
// timestamp or state version going backwards, an identity-reset marker) and
// then checks the counts it gathered.  The raised ContinuityError is the
// `Fail` verdict; file loading is not modelled.
module ContinuityVerifier {
  import opened OptionType
  import opened TraceEvents

  const IdentityResetMarkers: set<string> :=
    {"IDENTITY_RESET", "REKEY", "RENEGOTIATE", "SESSION_RESTART", "HANDSHAKE_RESTART"}

  /** The values `verify` passes to `int()` are int-like. */
  predicate Convertible(ev: Event)
  {
    ("ts_ms" in ev ==> IsPyInt(ev["ts_ms"]))
    && ("ts_ms" !in ev && "ts" in ev ==> IsPyInt(ev["ts"]))
    && ("state_version" in ev ==> IsPyInt(ev["state_version"]))
  }

  predicate AllConvertible(events: seq<Event>)
  {
    forall i :: 0 <= i < |events| ==> Convertible(events[i])
  }

  /** `get_ts`: `ts_ms` when present, else `ts`, else nothing. */
  function GetTs(ev: Event): (r: Option<int>)
    requires Convertible(ev)
    ensures r.None? <==> "ts_ms" !in ev && "ts" !in ev
    ensures "ts_ms" in ev ==> r == Some(AsInt(ev["ts_ms"]))
    ensures "ts_ms" !in ev && "ts" in ev ==> r == Some(AsInt(ev["ts"]))
  {
    if "ts_ms" in ev then Some(AsInt(ev["ts_ms"]))
    else if "ts" in ev then Some(AsInt(ev["ts"]))
    else None
  }

  /** `get_session_id`: `session_id` when present, else `session`, else
      nothing, as a string. */
  function GetSessionId(ev: Event): (r: Option<string>)
    ensures r.None? <==> "session_id" !in ev && "session" !in ev
    ensures "session_id" in ev ==> r == Some(Render(ev["session_id"]))
    ensures "session_id" !in ev && "session" in ev ==> r == Some(Render(ev["session"]))
  {
    if "session_id" in ev then Some(Render(ev["session_id"]))
    else if "session" in ev then Some(Render(ev["session"]))
    else None
  }

  /** `str(ev.get("event", ""))`. */
  function Name(ev: Event): string
  {
    if "event" in ev then Render(ev["event"]) else ""
  }

  /** ASCII upper case. */
  function Upper(s: string): (r: string)
    ensures |r| == |s|
    decreases |s|
  {
    if s == [] then []
    else [if 'a' <= s[0] <= 'z' then (s[0] as int - 32) as char else s[0]] + Upper(s[1..])
  }

  /** An AUDIT_EVENT whose result, upper-cased, is neither empty nor PASS. */
  predicate AuditFails(ev: Event)
  {
    var result := Upper(if "result" in ev then Render(ev["result"]) else "");
    Name(ev) == "AUDIT_EVENT" && result != "" && result != "PASS"
  }

  /** Why a trace fails; event numbers start at 1. */
  datatype Failure =
    | SessionChanged(eventNo: nat, base: string, sid: string)
    | TimestampBackwards(eventNo: nat, ts: int, last: int)
    | StateVersionDecreased(eventNo: nat, sv: int, last: int)
    | IdentityReset(eventNo: nat, name: string)
    | NoSessionCreated
    | MultipleSessionCreated(count: nat)
    | SwitchRecreatedSession
    | AuditFailures(count: nat)

  /** What the scan remembers between events. */
  datatype ScanState = ScanState(
    base: Option<string>,
    lastTs: Option<int>,
    lastSv: Option<int>,
    created: nat,
    switches: nat,
    auditFails: nat)

  const Start := ScanState(None, None, None, 0, 0, 0)

  datatype Scanned = Broken(failure: Failure) | Running(state: ScanState)

  /** The state after an event that broke nothing. */
  function Advance(st: ScanState, ev: Event): ScanState
    requires Convertible(ev)
  {
    var sid := GetSessionId(ev);
    var ts := GetTs(ev);
    var name := Name(ev);
    ScanState(
      if st.base.None? then sid else st.base,
      if ts.Some? then ts else st.lastTs,
      if "state_version" in ev then Some(AsInt(ev["state_version"])) else st.lastSv,
      st.created + (if name == "SESSION_CREATED" then 1 else 0),
      st.switches + (if name == "TRANSPORT_SWITCH" then 1 else 0),
      st.auditFails + (if AuditFails(ev) then 1 else 0))
  }

  /** One iteration of the loop of `verify` on event number `no`.  The
      checks read different fields, so checking each against the state
      before the event is checking it as the source does, in its order. */
  function Step(st: ScanState, no: nat, ev: Event): Scanned
    requires Convertible(ev)
  {
    var sid := GetSessionId(ev);
    var ts := GetTs(ev);
    if sid.Some? && st.base.Some? && sid.value != st.base.value then
      Broken(SessionChanged(no, st.base.value, sid.value))
    else if ts.Some? && st.lastTs.Some? && ts.value < st.lastTs.value then
      Broken(TimestampBackwards(no, ts.value, st.lastTs.value))
    else if "state_version" in ev && st.lastSv.Some? && AsInt(ev["state_version"]) < st.lastSv.value then
      Broken(StateVersionDecreased(no, AsInt(ev["state_version"]), st.lastSv.value))
    else if Name(ev) in IdentityResetMarkers then
      Broken(IdentityReset(no, Name(ev)))
    else Running(Advance(st, ev))
  }

  /** The loop over the first `n` events. */
  function ScanUpTo(events: seq<Event>, n: nat): Scanned
    requires n <= |events| && AllConvertible(events)
    decreases n
  {
    if n == 0 then Running(Start)
    else
      match ScanUpTo(events, n - 1)
      case Broken(f) => Broken(f)
      case Running(st) => Step(st, n, events[n - 1])
  }

  /** The dictionary `verify` returns. */
  datatype Summary = Summary(
    sessionId: Option<string>,
    events: nat,
    transportSwitches: nat,
    sessionCreatedCount: nat,
    lastTs: Option<int>,
    lastStateVersion: Option<int>,
    auditFailures: nat)

  datatype Verdict = Fail(failure: Failure) | Pass(summary: Summary)

  function Verify(events: seq<Event>): Verdict
    requires AllConvertible(events)
  {
    match ScanUpTo(events, |events|)
    case Broken(f) => Fail(f)
    case Running(st) =>
      if st.created == 0 then Fail(NoSessionCreated)
      else if st.created > 1 then Fail(MultipleSessionCreated(st.created))
      else if st.switches > 0 && st.created != 1 then Fail(SwitchRecreatedSession)
      else if st.auditFails > 0 then Fail(AuditFailures(st.auditFails))
      else Pass(Summary(st.base, |events|, st.switches, st.created, st.lastTs, st.lastSv, st.auditFails))
  }

  /** Once broken, the scan stays broken with the same failure. */
  lemma {:induction false} BrokenSticks(events: seq<Event>, m: nat, n: nat)
    requires m <= n <= |events| && AllConvertible(events) && ScanUpTo(events, m).Broken?
    ensures ScanUpTo(events, n) == ScanUpTo(events, m)
    decreases n - m
  {
    if m < n {
      BrokenSticks(events, m, n - 1);
    }
  }

  /** A scan broken after `n` events is the verdict. */
  lemma BrokenVerdict(events: seq<Event>, n: nat)
    requires 0 < n <= |events| && AllConvertible(events) && ScanUpTo(events, n).Broken?
    ensures Verify(events) == Fail(ScanUpTo(events, n).failure)
  {
    BrokenSticks(events, n, |events|);
  }

  method VerifyTrace(events: seq<Event>) returns (v: Verdict)
    requires AllConvertible(events)
    ensures v == Verify(events)
  {
    var base: Option<string> := None;
    var lastTs: Option<int> := None;
    var lastSv: Option<int> := None;
    var created, switches, auditFails := 0, 0, 0;
    var i := 0;
    while i < |events|
      invariant 0 <= i <= |events|
      invariant ScanUpTo(events, i) == Running(ScanState(base, lastTs, lastSv, created, switches, auditFails))
    {
      var ev := events[i];
      var no := i + 1;
      ghost var st := ScanState(base, lastTs, lastSv, created, switches, auditFails);
      assert ScanUpTo(events, no) == Step(st, no, ev);
      var name := Name(ev);
      var sid := GetSessionId(ev);
      if sid.Some? {
        if base.None? {
          base := sid;
        } else if sid.value != base.value {
          BrokenVerdict(events, no);
          return Fail(SessionChanged(no, base.value, sid.value));
        }
      }
      var ts := GetTs(ev);
      if ts.Some? {
        if lastTs.Some? && ts.value < lastTs.value {
          BrokenVerdict(events, no);
          return Fail(TimestampBackwards(no, ts.value, lastTs.value));
        }
        lastTs := ts;
      }
      if "state_version" in ev {
        var sv := AsInt(ev["state_version"]);
        if lastSv.Some? && sv < lastSv.value {
          BrokenVerdict(events, no);
          return Fail(StateVersionDecreased(no, sv, lastSv.value));
        }
        lastSv := Some(sv);
      }
      if name in IdentityResetMarkers {
        BrokenVerdict(events, no);
        return Fail(IdentityReset(no, name));
      }
      assert Step(st, no, ev) == Running(Advance(st, ev));
      if name == "SESSION_CREATED" {
        created := created + 1;
      }
      if name == "TRANSPORT_SWITCH" {
        switches := switches + 1;
      }
      if name == "AUDIT_EVENT" {
        var result := Upper(if "result" in ev then Render(ev["result"]) else "");
        if result != "" && result != "PASS" {
          auditFails := auditFails + 1;
        }
      }
      assert Advance(st, ev) == ScanState(base, lastTs, lastSv, created, switches, auditFails);
      i := i + 1;
    }
    if created == 0 {
      return Fail(NoSessionCreated);
    }
    if created > 1 {
      return Fail(MultipleSessionCreated(created));
    }
    if switches > 0 && created != 1 {
      return Fail(SwitchRecreatedSession);
    }
    if auditFails > 0 {
      return Fail(AuditFailures(auditFails));
    }
    v := Pass(Summary(base, |events|, switches, created, lastTs, lastSv, auditFails));
  }

  // ---------------------------------------------------------------
  // What a pass means
  // ---------------------------------------------------------------

  /** The session ids, timestamps and state versions the first `n` events
      carry, in order. */
  function Sids(events: seq<Event>, n: nat): seq<string>
    requires n <= |events|
    decreases n
  {
    if n == 0 then []
    else
      var sid := GetSessionId(events[n - 1]);
      Sids(events, n - 1) + (if sid.Some? then [sid.value] else [])
  }

  function Stamps(events: seq<Event>, n: nat): seq<int>
    requires n <= |events| && AllConvertible(events)
    decreases n
  {
    if n == 0 then []
    else
      var ts := GetTs(events[n - 1]);
      Stamps(events, n - 1) + (if ts.Some? then [ts.value] else [])
  }

  function Versions(events: seq<Event>, n: nat): seq<int>
    requires n <= |events| && AllConvertible(events)
    decreases n
  {
    if n == 0 then []
    else
      Versions(events, n - 1)
      + (if "state_version" in events[n - 1] then [AsInt(events[n - 1]["state_version"])] else [])
  }

  /** How many of the first `n` events are named `name`, and how many are
      failed audits. */
  function NameCount(events: seq<Event>, n: nat, name: string): nat
    requires n <= |events|
    decreases n
  {
    if n == 0 then 0 else NameCount(events, n - 1, name) + (if Name(events[n - 1]) == name then 1 else 0)
  }

  function AuditFailCount(events: seq<Event>, n: nat): nat
    requires n <= |events|
    decreases n
  {
    if n == 0 then 0 else AuditFailCount(events, n - 1) + (if AuditFails(events[n - 1]) then 1 else 0)
  }

  predicate AllSame(xs: seq<string>)
  {
    forall i :: 0 <= i < |xs| ==> xs[i] == xs[0]
  }

  function FirstOf<T>(xs: seq<T>): Option<T>
  {
    if xs == [] then None else Some(xs[0])
  }

  function LastOf<T>(xs: seq<T>): Option<T>
  {
    if xs == [] then None else Some(xs[|xs| - 1])
  }

  /** The continuity the scan checks event by event, over the first `n`. */
  predicate Continuous(events: seq<Event>, n: nat)
    requires n <= |events| && AllConvertible(events)
  {
    AllSame(Sids(events, n))
    && StepsNonDecreasing(Stamps(events, n))
    && StepsNonDecreasing(Versions(events, n))
    && forall i :: 0 <= i < n ==> Name(events[i]) !in IdentityResetMarkers
  }

  /** The scan state records the first session id, the last timestamp and
      state version, and the counts, of the first `n` events. */
  predicate Records(events: seq<Event>, n: nat, st: ScanState)
    requires n <= |events| && AllConvertible(events)
  {
    st.base == FirstOf(Sids(events, n))
    && st.lastTs == LastOf(Stamps(events, n))
    && st.lastSv == LastOf(Versions(events, n))
    && st.created == NameCount(events, n, "SESSION_CREATED")
    && st.switches == NameCount(events, n, "TRANSPORT_SWITCH")
    && st.auditFails == AuditFailCount(events, n)
  }

  /** Appending an optional session id to ids that all agree. */
  lemma SidsAfter(xs: seq<string>, sid: Option<string>, base: Option<string>)
    requires AllSame(xs) && base == FirstOf(xs)
    ensures var ys := xs + (if sid.Some? then [sid.value] else []);
            (AllSame(ys) <==> !(sid.Some? && base.Some? && sid.value != base.value))
            && FirstOf(ys) == (if base.None? then sid else base)
  {
    var ys := xs + (if sid.Some? then [sid.value] else []);
    if sid.Some? && xs != [] && sid.value != xs[0] {
      assert ys[|xs|] != ys[0];
    }
    if sid.Some? && xs != [] {
      assert ys[0] == xs[0];
    }
  }

  /** Appending an optional value to a non-decreasing sequence. */
  lemma StepsAfter(xs: seq<int>, x: Option<int>, last: Option<int>)
    requires StepsNonDecreasing(xs) && last == LastOf(xs)
    ensures var ys := xs + (if x.Some? then [x.value] else []);
            (StepsNonDecreasing(ys) <==> !(x.Some? && last.Some? && x.value < last.value))
            && LastOf(ys) == (if x.Some? then x else last)
  {
    var ys := xs + (if x.Some? then [x.value] else []);
    if x.Some? && xs != [] && xs[|xs| - 1] > x.value {
      assert ys[|xs| - 1] > ys[|xs|];
    }
    if x.Some? && (xs == [] || xs[|xs| - 1] <= x.value) {
      forall k | 0 < k < |ys| ensures ys[k - 1] <= ys[k] {
        if k < |xs| {
          assert ys[k - 1] == xs[k - 1] && ys[k] == xs[k];
        }
      }
    }
  }

  /** A break in agreement or order persists in every longer sequence. */
  lemma BreaksPersist(xs: seq<string>, ps: seq<string>, ys: seq<int>, qs: seq<int>)
    ensures AllSame(xs + ps) ==> AllSame(xs)
    ensures StepsNonDecreasing(ys + qs) ==> StepsNonDecreasing(ys)
  {
    if AllSame(xs + ps) {
      forall k | 0 <= k < |xs| ensures xs[k] == xs[0] {
        assert (xs + ps)[k] == xs[k] && (xs + ps)[0] == xs[0];
      }
    }
    if StepsNonDecreasing(ys + qs) {
      forall k | 0 < k < |ys| ensures ys[k - 1] <= ys[k] {
        assert (ys + qs)[k] == ys[k] && (ys + qs)[k - 1] == ys[k - 1];
      }
    }
  }

  /** Advancing past one more event keeps the record. */
  lemma AdvanceRecords(events: seq<Event>, n: nat, st: ScanState)
    requires 0 < n <= |events| && AllConvertible(events) && Records(events, n - 1, st)
    ensures Records(events, n, Advance(st, events[n - 1]))
  {
    var ev := events[n - 1];
    var sid := GetSessionId(ev);
    var ts := GetTs(ev);
    var sids, stamps, versions := Sids(events, n - 1), Stamps(events, n - 1), Versions(events, n - 1);
    assert Sids(events, n) == sids + (if sid.Some? then [sid.value] else []);
    assert Stamps(events, n) == stamps + (if ts.Some? then [ts.value] else []);
    assert Versions(events, n) == versions
      + (if "state_version" in ev then [AsInt(ev["state_version"])] else []);
    if sid.Some? && sids != [] {
      assert Sids(events, n)[0] == sids[0];
    }
  }

  /** One more event on a running scan: it keeps running exactly when the
      longer prefix is continuous, and then keeps the record. */
  lemma ScanRunningStep(events: seq<Event>, n: nat)
    requires 0 < n <= |events| && AllConvertible(events) && ScanUpTo(events, n - 1).Running?
    requires Continuous(events, n - 1) && Records(events, n - 1, ScanUpTo(events, n - 1).state)
    ensures ScanUpTo(events, n).Running? <==> Continuous(events, n)
    ensures ScanUpTo(events, n).Running? ==> Records(events, n, ScanUpTo(events, n).state)
  {
    var ev := events[n - 1];
    var sid := GetSessionId(ev);
    var ts := GetTs(ev);
    var sv := if "state_version" in ev then Some(AsInt(ev["state_version"])) else None;
    var sids, stamps, versions := Sids(events, n - 1), Stamps(events, n - 1), Versions(events, n - 1);
    assert Sids(events, n) == sids + (if sid.Some? then [sid.value] else []);
    assert Stamps(events, n) == stamps + (if ts.Some? then [ts.value] else []);
    assert Versions(events, n) == versions + (if sv.Some? then [sv.value] else []);
    var st := ScanUpTo(events, n - 1).state;
    assert ScanUpTo(events, n) == Step(st, n, ev);
    SidsAfter(sids, sid, st.base);
    StepsAfter(stamps, ts, st.lastTs);
    StepsAfter(versions, sv, st.lastSv);
    if ScanUpTo(events, n).Running? {
      AdvanceRecords(events, n, st);
    }
  }

  /** A prefix that is not continuous stays so when it grows. */
  lemma ContinuityBreakPersists(events: seq<Event>, n: nat)
    requires 0 < n <= |events| && AllConvertible(events) && !Continuous(events, n - 1)
    ensures !Continuous(events, n)
  {
    var ev := events[n - 1];
    var sid := GetSessionId(ev);
    var ts := GetTs(ev);
    var sv := if "state_version" in ev then Some(AsInt(ev["state_version"])) else None;
    var sids, stamps, versions := Sids(events, n - 1), Stamps(events, n - 1), Versions(events, n - 1);
    assert Sids(events, n) == sids + (if sid.Some? then [sid.value] else []);
    assert Stamps(events, n) == stamps + (if ts.Some? then [ts.value] else []);
    assert Versions(events, n) == versions + (if sv.Some? then [sv.value] else []);
    BreaksPersist(sids, if sid.Some? then [sid.value] else [],
                  stamps, if ts.Some? then [ts.value] else []);
    BreaksPersist(sids, [], versions, if sv.Some? then [sv.value] else []);
  }

  /** The scan runs through the first `n` events exactly when they are
      continuous, and then its state records them. */
  lemma {:induction false} ScanMeaning(events: seq<Event>, n: nat)
    requires n <= |events| && AllConvertible(events)
    ensures ScanUpTo(events, n).Running? <==> Continuous(events, n)
    ensures ScanUpTo(events, n).Running? ==> Records(events, n, ScanUpTo(events, n).state)
    decreases n
  {
    if n > 0 {
      ScanMeaning(events, n - 1);
      if ScanUpTo(events, n - 1).Running? {
        ScanRunningStep(events, n);
      } else {
        ContinuityBreakPersists(events, n);
      }
    }
  }

  /** A scan stops only at an event of the first `n`, and only for one of
      the four per-event reasons. */
  lemma {:induction false} BrokenAtEvent(events: seq<Event>, n: nat)
    requires n <= |events| && AllConvertible(events) && ScanUpTo(events, n).Broken?
    ensures var f := ScanUpTo(events, n).failure;
            (f.SessionChanged? || f.TimestampBackwards? || f.StateVersionDecreased? || f.IdentityReset?)
            && 1 <= f.eventNo <= n
    decreases n
  {
    if ScanUpTo(events, n - 1).Broken? {
      BrokenAtEvent(events, n - 1);
    }
  }

  /** Every session id any event carries is the same. */
  predicate OneSession(events: seq<Event>)
  {
    forall i, j :: 0 <= i < |events| && 0 <= j < |events|
                   && GetSessionId(events[i]).Some? && GetSessionId(events[j]).Some? ==>
                   GetSessionId(events[i]) == GetSessionId(events[j])
  }

  /** The ids of the first `n` events agree exactly when the events' ids
      agree pairwise, and the first id among them is one of them. */
  lemma {:induction false} SidsAgree(events: seq<Event>, n: nat)
    requires n <= |events|
    ensures AllSame(Sids(events, n)) <==> OneSession(events[..n])
    ensures forall i :: 0 <= i < n && GetSessionId(events[i]).Some? ==> Sids(events, n) != []
    ensures OneSession(events[..n]) ==>
              forall i :: 0 <= i < n && GetSessionId(events[i]).Some? ==> FirstOf(Sids(events, n)) == GetSessionId(events[i])
    decreases n
  {
    if n > 0 {
      SidsAgree(events, n - 1);
      var sids := Sids(events, n - 1);
      var sid := GetSessionId(events[n - 1]);
      var pre, all := events[..n - 1], events[..n];
      assert pre == all[..n - 1];
      assert Sids(events, n) == sids + (if sid.Some? then [sid.value] else []);
      if AllSame(sids) {
        SidsAfter(sids, sid, FirstOf(sids));
      } else {
        BreaksPersist(sids, if sid.Some? then [sid.value] else [], [], []);
      }
      if sid.Some? && sids != [] {
        assert Sids(events, n)[0] == sids[0];
      }
      if OneSession(all) {
        assert OneSession(pre) by {
          forall i, j | 0 <= i < |pre| && 0 <= j < |pre| && GetSessionId(pre[i]).Some? && GetSessionId(pre[j]).Some?
            ensures GetSessionId(pre[i]) == GetSessionId(pre[j])
          {
            assert pre[i] == all[i] && pre[j] == all[j];
          }
        }
        if sid.Some? && sids != [] {
          var k :| 0 <= k < n - 1 && GetSessionId(events[k]).Some?
                   && FirstOf(sids) == GetSessionId(events[k]) by {
            SidsWitness(events, n - 1);
          }
          assert all[k] == events[k] && all[n - 1] == events[n - 1];
        }
      } else {
        var i, j :| 0 <= i < n && 0 <= j < n && GetSessionId(all[i]).Some? && GetSessionId(all[j]).Some?
                    && GetSessionId(all[i]) != GetSessionId(all[j]);
        assert all[i] == events[i] && all[j] == events[j];
        if i < n - 1 && j < n - 1 {
          assert pre[i] == events[i] && pre[j] == events[j];
          assert !OneSession(pre);
        } else if OneSession(pre) {
          var other := if i < n - 1 then i else j;
          if other < n - 1 {
            assert FirstOf(sids) == GetSessionId(events[other]);
          }
        }
      }
    }
  }

  /** A non-empty list of ids starts with the id of some event. */
  lemma {:induction false} SidsWitness(events: seq<Event>, n: nat)
    requires n <= |events| && Sids(events, n) != []
    ensures exists k :: 0 <= k < n && GetSessionId(events[k]).Some? && FirstOf(Sids(events, n)) == GetSessionId(events[k])
    decreases n
  {
    var sids := Sids(events, n - 1);
    var sid := GetSessionId(events[n - 1]);
    assert Sids(events, n) == sids + (if sid.Some? then [sid.value] else []);
    if sids != [] {
      SidsWitness(events, n - 1);
      assert Sids(events, n)[0] == sids[0];
    } else {
      assert GetSessionId(events[n - 1]).Some?;
    }
  }

  /** A trace passes exactly when all its session ids agree, its
      timestamps and state versions never go down, it has no identity-reset
      marker, exactly one SESSION_CREATED and no failed audit; the summary
      then reports that session, the last timestamp and state version, and
      the counts. */
  lemma VerifyPassIff(events: seq<Event>)
    requires AllConvertible(events)
    ensures var n := |events|;
            Verify(events).Pass? <==>
              OneSession(events)
              && NonDecreasing(Stamps(events, n))
              && NonDecreasing(Versions(events, n))
              && (forall i :: 0 <= i < n ==> Name(events[i]) !in IdentityResetMarkers)
              && NameCount(events, n, "SESSION_CREATED") == 1
              && AuditFailCount(events, n) == 0
    ensures var n := |events|;
            Verify(events).Pass? ==>
              Verify(events).summary == Summary(FirstOf(Sids(events, n)), n, NameCount(events, n, "TRANSPORT_SWITCH"), 1,
                                                LastOf(Stamps(events, n)), LastOf(Versions(events, n)), 0)
    ensures Verify(events).Pass? ==>
              forall i :: 0 <= i < |events| && GetSessionId(events[i]).Some? ==>
                Verify(events).summary.sessionId == GetSessionId(events[i])
  {
    var n := |events|;
    ScanMeaning(events, n);
    StepsIffNonDecreasing(Stamps(events, n));
    StepsIffNonDecreasing(Versions(events, n));
    SidsAgree(events, n);
    assert events[..n] == events;
  }

  /** The re-creation check after the counts can never fire: by then the
      creation count is exactly one. */
  lemma RecreationCheckIsDead(events: seq<Event>)
    requires AllConvertible(events)
    ensures Verify(events) != Fail(SwitchRecreatedSession)
  {
    if ScanUpTo(events, |events|).Broken? {
      BrokenAtEvent(events, |events|);
    }
  }
}
