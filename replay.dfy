// demo_engine/replay.py: the validators run over a recorded demo trace,
// and `run`, which combines them into a PASS/FAIL verdict.  Findings are
// values of one datatype instead of formatted strings; the statistics of
// the result other than the session id, and file loading, are not modelled.
module ReplayChecks {
  import opened OptionType
  import opened TraceEvents

  const RequiredKeys: set<string> := {"ts_ms", "event", "session_id"}

  const OptionalKeys: set<string> := {
    "state", "from", "to", "reason", "reason_code", "state_version", "counter", "active_path",
    "from_path", "to_path", "score", "observed", "bounded_by_policy", "check", "result"}

  /** What `validate_required_fields` finds wrong with one event. */
  datatype Problem = MissingKeys(keys: set<string>) | UnknownKeys(keys: set<string>) | WrongType(key: string)

  /** One error or warning of a validator. */
  datatype Finding =
    | AtEvent(index: nat, problem: Problem)
    | TimeNotMonotonic(decrease: Decrease)
    | NoSessionId
    | MultipleSessionIds(ids: set<string>)
    | VersionDecreased(decrease: Decrease)
    | NoCounters
    | DuplicateCounter(index: nat, counter: int)
    | CounterRollback(index: nat, counter: int, last: int)
    | MissingTransportSwitch
    | TerminatedState
    | NoAttached
    | NoVolatilitySignal
    | NoRecoverySignal

  // ---------------------------------------------------------------
  // validate_required_fields
  // ---------------------------------------------------------------

  /** The type tests applied to a key when it is present. */
  predicate StrOk(ev: Event, key: string)
  {
    key !in ev || ev[key].VStr?
  }

  predicate IntOk(ev: Event, key: string)
  {
    key !in ev || IsPyInt(ev[key])
  }

  /** `event` and `session_id` are strings, the other checked keys int-like. */
  predicate TypesOk(ev: Event)
  {
    IntOk(ev, "ts_ms") && StrOk(ev, "event") && StrOk(ev, "session_id")
    && IntOk(ev, "state_version") && IntOk(ev, "counter")
  }

  /** The required keys an event lacks, and its keys that are neither
      required nor optional. */
  function MissingOf(ev: Event): set<string>
  {
    RequiredKeys - ev.Keys
  }

  function UnknownOf(ev: Event): set<string>
  {
    ev.Keys - RequiredKeys - OptionalKeys
  }

  predicate WellFormed(ev: Event)
  {
    MissingOf(ev) == {} && TypesOk(ev)
  }

  /** A type error for `key` when its test failed. */
  function WrongIf(ok: bool, key: string): (r: seq<Problem>)
    ensures |r| == (if ok then 0 else 1)
    ensures forall p :: p in r ==> p.WrongType?
  {
    if ok then [] else [WrongType(key)]
  }

  function TypeErrors(ev: Event): seq<Problem>
  {
    WrongIf(IntOk(ev, "ts_ms"), "ts_ms")
    + WrongIf(StrOk(ev, "event"), "event")
    + WrongIf(StrOk(ev, "session_id"), "session_id")
    + WrongIf(IntOk(ev, "state_version"), "state_version")
    + WrongIf(IntOk(ev, "counter"), "counter")
  }

  /** The errors of one event: its missing required keys, then its type
      errors. */
  function EventErrors(ev: Event): seq<Problem>
  {
    (if MissingOf(ev) != {} then [MissingKeys(MissingOf(ev))] else []) + TypeErrors(ev)
  }

  /** An event has no errors exactly when it is well formed; missing keys
      come first, with exactly the missing set, and its other errors are
      type errors. */
  lemma EventErrorsFacts(ev: Event)
    ensures EventErrors(ev) == [] <==> WellFormed(ev)
    ensures forall p :: p in EventErrors(ev) ==> p.WrongType? || p == MissingKeys(MissingOf(ev))
    ensures MissingOf(ev) != {} ==> EventErrors(ev)[0] == MissingKeys(MissingOf(ev))
  {
    assert |TypeErrors(ev)| == 0 <==> TypesOk(ev);
  }

  /** The warning of one event, naming its unknown keys. */
  function EventWarnings(ev: Event): seq<Problem>
  {
    if UnknownOf(ev) != {} then [UnknownKeys(UnknownOf(ev))] else []
  }

  function Tagged(i: nat, ps: seq<Problem>): (r: seq<Finding>)
    ensures |r| == |ps|
  {
    seq(|ps|, k requires 0 <= k < |ps| => AtEvent(i, ps[k]))
  }

  /** The errors and the warnings for the first `n` events, in order. */
  function FieldErrors(events: seq<Event>, n: nat): seq<Finding>
    requires n <= |events|
    decreases n
  {
    if n == 0 then [] else FieldErrors(events, n - 1) + Tagged(n - 1, EventErrors(events[n - 1]))
  }

  function FieldWarnings(events: seq<Event>, n: nat): seq<Finding>
    requires n <= |events|
    decreases n
  {
    if n == 0 then [] else FieldWarnings(events, n - 1) + Tagged(n - 1, EventWarnings(events[n - 1]))
  }

  /** No errors exactly when every event has the required keys with the
      right types. */
  lemma {:induction false} FieldErrorsEmpty(events: seq<Event>, n: nat)
    requires n <= |events|
    ensures FieldErrors(events, n) == [] <==> forall i :: 0 <= i < n ==> WellFormed(events[i])
    decreases n
  {
    if n > 0 {
      FieldErrorsEmpty(events, n - 1);
      FieldErrorsStep(events, n);
      EventErrorsFacts(events[n - 1]);
      if FieldErrors(events, n) == [] {
        forall i | 0 <= i < n ensures WellFormed(events[i]) {
          if i < n - 1 {
            assert FieldErrors(events, n - 1) == [];
          }
        }
      } else if FieldErrors(events, n - 1) != [] {
        var i :| 0 <= i < n - 1 && !WellFormed(events[i]);
        assert !WellFormed(events[i]);
      }
    }
  }

  lemma FieldErrorsStep(events: seq<Event>, n: nat)
    requires 0 < n <= |events|
    ensures FieldErrors(events, n) == [] <==> FieldErrors(events, n - 1) == [] && EventErrors(events[n - 1]) == []
  {
    assert |FieldErrors(events, n)| == |FieldErrors(events, n - 1)| + |EventErrors(events[n - 1])|;
  }

  /** An event lacking a required key is reported with exactly the missing
      set. */
  lemma {:induction false} MissingKeysReported(events: seq<Event>, n: nat, i: nat)
    requires i < n <= |events| && MissingOf(events[i]) != {}
    ensures AtEvent(i, MissingKeys(MissingOf(events[i]))) in FieldErrors(events, n)
    decreases n
  {
    var before := FieldErrors(events, n - 1);
    if i == n - 1 {
      EventErrorsFacts(events[i]);
      assert FieldErrors(events, n)[|before|] == AtEvent(i, MissingKeys(MissingOf(events[i])));
    } else {
      MissingKeysReported(events, n - 1, i);
    }
  }

  /** Every error names an event before `n` and is a type error or that
      event's missing keys; so unknown keys never give an error. */
  lemma {:induction false} ErrorsNameTheirEvent(events: seq<Event>, n: nat, f: Finding)
    requires n <= |events| && f in FieldErrors(events, n)
    ensures f.AtEvent? && f.index < n
    ensures f.problem.WrongType? || f.problem == MissingKeys(MissingOf(events[f.index]))
    decreases n
  {
    var before := FieldErrors(events, n - 1);
    if f in before {
      ErrorsNameTheirEvent(events, n - 1, f);
    } else {
      var ps := EventErrors(events[n - 1]);
      var k :| 0 <= k < |ps| && Tagged(n - 1, ps)[k] == f;
      EventErrorsFacts(events[n - 1]);
      assert ps[k] in ps;
    }
  }

  /** An event with unknown keys gets a warning naming them. */
  lemma {:induction false} UnknownKeysWarned(events: seq<Event>, n: nat, i: nat)
    requires i < n <= |events| && UnknownOf(events[i]) != {}
    ensures AtEvent(i, UnknownKeys(UnknownOf(events[i]))) in FieldWarnings(events, n)
    decreases n
  {
    var before := FieldWarnings(events, n - 1);
    if i == n - 1 {
      assert FieldWarnings(events, n)[|before|] == AtEvent(i, UnknownKeys(UnknownOf(events[i])));
    } else {
      UnknownKeysWarned(events, n - 1, i);
    }
  }

  method ValidateRequiredFields(events: seq<Event>) returns (errors: seq<Finding>, warnings: seq<Finding>)
    ensures errors == FieldErrors(events, |events|) && warnings == FieldWarnings(events, |events|)
  {
    errors, warnings := [], [];
    var i := 0;
    while i < |events|
      invariant 0 <= i <= |events|
      invariant errors == FieldErrors(events, i) && warnings == FieldWarnings(events, i)
    {
      var ev := events[i];
      var own: seq<Problem> := [];
      var missing := RequiredKeys - ev.Keys;
      if missing != {} {
        own := [MissingKeys(missing)];
      }
      var unknown := ev.Keys - RequiredKeys - OptionalKeys;
      if unknown != {} {
        warnings := warnings + [AtEvent(i, UnknownKeys(unknown))];
      }
      assert [AtEvent(i, UnknownKeys(unknown))] == Tagged(i, [UnknownKeys(unknown)]);
      own := own + TypeErrors(ev);
      errors := errors + Tagged(i, own);
      i := i + 1;
    }
  }

  // ---------------------------------------------------------------
  // validate_monotonic_time and validate_monotonic_state_version
  // ---------------------------------------------------------------

  function TimeErrors(ds: seq<Decrease>): (r: seq<Finding>)
    ensures |r| == |ds|
  {
    seq(|ds|, i requires 0 <= i < |ds| => TimeNotMonotonic(ds[i]))
  }

  function VersionErrors(ds: seq<Decrease>): (r: seq<Finding>)
    ensures |r| == |ds|
  {
    seq(|ds|, i requires 0 <= i < |ds| => VersionDecreased(ds[i]))
  }

  /** `ts_ms` is skipped when absent or null; every other value below the
      last one seen is reported. */
  method ValidateMonotonicTime(events: seq<Event>) returns (errors: seq<Finding>)
    requires IntsWhereCounted(events, "ts_ms", true)
    ensures errors == TimeErrors(Decreases(events, "ts_ms", true, |events|))
    ensures errors == [] <==> NonDecreasing(CountedInts(events, "ts_ms", true, |events|))
  {
    var ds := FindDecreases(events, "ts_ms", true);
    errors := TimeErrors(ds);
  }

  /** `state_version` is looked at whenever the key is present. */
  method ValidateMonotonicStateVersion(events: seq<Event>) returns (errors: seq<Finding>)
    requires IntsWhereCounted(events, "state_version", false)
    ensures errors == VersionErrors(Decreases(events, "state_version", false, |events|))
    ensures errors == [] <==> NonDecreasing(CountedInts(events, "state_version", false, |events|))
  {
    var ds := FindDecreases(events, "state_version", false);
    errors := VersionErrors(ds);
  }

  // ---------------------------------------------------------------
  // validate_single_session
  // ---------------------------------------------------------------

  /** The distinct string values of `session_id`. */
  function SessionIds(events: seq<Event>): set<string>
    decreases |events|
  {
    if events == [] then {}
    else
      (if "session_id" in events[0] && events[0]["session_id"].VStr? then {events[0]["session_id"].s} else {})
      + SessionIds(events[1..])
  }

  /** The first string `session_id`, when there is one. */
  function FirstSessionId(events: seq<Event>): (r: Option<string>)
    ensures r.Some? ==> r.value in SessionIds(events)
    ensures r.None? ==> SessionIds(events) == {}
    decreases |events|
  {
    if events == [] then None
    else if "session_id" in events[0] && events[0]["session_id"].VStr? then Some(events[0]["session_id"].s)
    else FirstSessionId(events[1..])
  }

  /** The session id of the trace, and the error when there is not exactly
      one distinct string id. */
  function SingleSession(events: seq<Event>): (r: (Option<string>, seq<Finding>))
    ensures r.0.Some? <==> |SessionIds(events)| == 1
    ensures r.0.Some? ==> SessionIds(events) == {r.0.value} && r.1 == []
    ensures |SessionIds(events)| == 0 ==> r == (None, [NoSessionId])
    ensures |SessionIds(events)| > 1 ==> r == (None, [MultipleSessionIds(SessionIds(events))])
  {
    var ids := SessionIds(events);
    var first := FirstSessionId(events);
    if first.None? then (None, [NoSessionId])
    else if ids != {first.value} then
      assert |ids| > 1 by {
        var other :| other in ids && other != first.value;
        assert {first.value, other} <= ids;
        assert ids == (ids - {first.value, other}) + {first.value, other};
      }
      (None, [MultipleSessionIds(ids)])
    else (first, [])
  }

  // ---------------------------------------------------------------
  // validate_counter_anti_replay
  // ---------------------------------------------------------------

  /** The errors of the counter scan over the first `n` events: a counter
      seen before is a replay, one below the last is a rollback. */
  function CounterErrors(events: seq<Event>, n: nat): seq<Finding>
    requires n <= |events| && IntsWhereCounted(events, "counter", false)
    decreases n
  {
    if n == 0 then []
    else
      var before := CountedInts(events, "counter", false, n - 1);
      CounterErrors(events, n - 1)
      + (if "counter" in events[n - 1] then
           var c := AsInt(events[n - 1]["counter"]);
           (if c in before then [DuplicateCounter(n - 1, c)] else [])
           + (if before != [] && c < before[|before| - 1] then [CounterRollback(n - 1, c, before[|before| - 1])] else [])
         else [])
  }

  predicate HasCounter(events: seq<Event>)
  {
    exists i :: 0 <= i < |events| && "counter" in events[i]
  }

  function CounterAntiReplay(events: seq<Event>): (seq<Finding>, seq<Finding>)
    requires IntsWhereCounted(events, "counter", false)
  {
    if !HasCounter(events) then ([], [NoCounters]) else (CounterErrors(events, |events|), [])
  }

  /** The counter scan passes exactly when the counters strictly increase. */
  lemma {:induction false} CounterErrorsIffIncreasing(events: seq<Event>, n: nat)
    requires n <= |events| && IntsWhereCounted(events, "counter", false)
    ensures CounterErrors(events, n) == [] <==> StepsIncreasing(CountedInts(events, "counter", false, n))
    decreases n
  {
    if n > 0 {
      CounterErrorsIffIncreasing(events, n - 1);
      var before := CountedInts(events, "counter", false, n - 1);
      var now := CountedInts(events, "counter", false, n);
      if "counter" in events[n - 1] {
        var c := AsInt(events[n - 1]["counter"]);
        assert now == before + [c];
        var added := (if c in before then [DuplicateCounter(n - 1, c)] else [])
          + (if before != [] && c < before[|before| - 1] then [CounterRollback(n - 1, c, before[|before| - 1])] else []);
        assert CounterErrors(events, n) == CounterErrors(events, n - 1) + added;
        assert |CounterErrors(events, n)| == |CounterErrors(events, n - 1)| + |added|;
        StepsIncreasingSnoc(before, c);
        if StepsIncreasing(before) && before != [] && before[|before| - 1] < c {
          StepsIffIncreasing(before);
          forall k | 0 <= k < |before| ensures before[k] != c {
            if k < |before| - 1 {
              assert before[k] < before[|before| - 1];
            }
          }
        }
        if before != [] && before[|before| - 1] == c {
          assert c in before;
        }
      } else {
        assert now == before;
      }
    }
  }

  /** Errors found among the first `m` events stay reported. */
  lemma {:induction false} CounterErrorsGrow(events: seq<Event>, m: nat, n: nat)
    requires m <= n <= |events| && IntsWhereCounted(events, "counter", false)
    ensures forall f :: f in CounterErrors(events, m) ==> f in CounterErrors(events, n)
    decreases n - m
  {
    if m < n {
      CounterErrorsGrow(events, m, n - 1);
    }
  }

  /** Every repetition of a counter is reported at the repeating event. */
  lemma DuplicateFlagged(events: seq<Event>, i: nat, j: nat)
    requires i < j < |events| && IntsWhereCounted(events, "counter", false)
    requires "counter" in events[i] && "counter" in events[j]
    requires AsInt(events[i]["counter"]) == AsInt(events[j]["counter"])
    ensures DuplicateCounter(j, AsInt(events[j]["counter"])) in CounterAntiReplay(events).0
  {
    CountedIntsContain(events, "counter", false, i, j);
    assert DuplicateCounter(j, AsInt(events[j]["counter"])) in CounterErrors(events, j + 1);
    CounterErrorsGrow(events, j + 1, |events|);
  }

  /** With no counter at all only the warning is given; otherwise there are
      no errors exactly when the counters strictly increase. */
  lemma CounterAntiReplayFacts(events: seq<Event>)
    requires IntsWhereCounted(events, "counter", false)
    ensures !HasCounter(events) ==> CounterAntiReplay(events) == ([], [NoCounters])
    ensures CounterAntiReplay(events).0 == [] <==> StrictlyIncreasing(CountedInts(events, "counter", false, |events|))
  {
    CounterErrorsIffIncreasing(events, |events|);
    StepsIffIncreasing(CountedInts(events, "counter", false, |events|));
    if !HasCounter(events) {
      NoCounterNoValues(events, |events|);
    }
  }

  lemma {:induction false} NoCounterNoValues(events: seq<Event>, n: nat)
    requires n <= |events| && IntsWhereCounted(events, "counter", false) && !HasCounter(events)
    ensures CountedInts(events, "counter", false, n) == []
    decreases n
  {
    if n > 0 {
      NoCounterNoValues(events, n - 1);
    }
  }

  method ValidateCounterAntiReplay(events: seq<Event>) returns (errors: seq<Finding>, warnings: seq<Finding>)
    requires IntsWhereCounted(events, "counter", false)
    ensures (errors, warnings) == CounterAntiReplay(events)
  {
    errors, warnings := [], [];
    if !HasCounter(events) {
      warnings := [NoCounters];
      return;
    }
    var seen: set<int> := {};
    var last: Option<int> := None;
    var i := 0;
    while i < |events|
      invariant 0 <= i <= |events|
      invariant errors == CounterErrors(events, i)
      invariant var before := CountedInts(events, "counter", false, i);
                (forall c :: c in seen <==> c in before)
                && (last.None? <==> before == []) && (last.Some? ==> last.value == before[|before| - 1])
    {
      var ev := events[i];
      if "counter" in ev {
        var c := AsInt(ev["counter"]);
        if c in seen {
          errors := errors + [DuplicateCounter(i, c)];
        }
        seen := seen + {c};
        if last.Some? && c < last.value {
          errors := errors + [CounterRollback(i, c, last.value)];
        }
        last := Some(c);
      }
      i := i + 1;
    }
  }

  // ---------------------------------------------------------------
  // validate_core_claim
  // ---------------------------------------------------------------

  predicate StateIs(ev: Event, state: string)
  {
    Get(ev, "state") == Some(VStr(state))
  }

  predicate ChangesToAttached(ev: Event)
  {
    Get(ev, "event") == Some(VStr("STATE_CHANGE")) && Get(ev, "to") == Some(VStr("ATTACHED"))
  }

  /** Mentions of ATTACHED among the first `n` events: one for a state of
      ATTACHED, one for a STATE_CHANGE to ATTACHED. */
  function AttachedMentions(events: seq<Event>, n: nat): (c: nat)
    requires n <= |events|
    ensures c == 0 <==> forall i :: 0 <= i < n ==> !StateIs(events[i], "ATTACHED") && !ChangesToAttached(events[i])
    decreases n
  {
    if n == 0 then 0
    else
      AttachedMentions(events, n - 1)
      + (if StateIs(events[n - 1], "ATTACHED") then 1 else 0)
      + (if ChangesToAttached(events[n - 1]) then 1 else 0)
  }

  predicate HasTerminatedState(events: seq<Event>)
  {
    exists i :: 0 <= i < |events| && "state" in events[i] && events[i]["state"] == VStr("TERMINATED")
  }

  function CoreClaim(events: seq<Event>): (r: (seq<Finding>, seq<Finding>))
    ensures r.0 == [] <==> HasNamed(events, "TRANSPORT_SWITCH") && !HasTerminatedState(events)
    ensures NoAttached in r.1 <==> AttachedMentions(events, |events|) == 0
    ensures NoVolatilitySignal in r.1 <==> !HasNamed(events, "VOLATILITY_SIGNAL")
    ensures NoRecoverySignal in r.1 <==> !HasNamed(events, "RECOVERY_SIGNAL")
    ensures forall f :: f in r.1 ==> f.NoAttached? || f.NoVolatilitySignal? || f.NoRecoverySignal?
  {
    ((if HasNamed(events, "TRANSPORT_SWITCH") then [] else [MissingTransportSwitch])
     + (if HasTerminatedState(events) then [TerminatedState] else []),
     (if AttachedMentions(events, |events|) == 0 then [NoAttached] else [])
     + (if HasNamed(events, "VOLATILITY_SIGNAL") then [] else [NoVolatilitySignal])
     + (if HasNamed(events, "RECOVERY_SIGNAL") then [] else [NoRecoverySignal]))
  }

  method ValidateCoreClaim(events: seq<Event>) returns (errors: seq<Finding>, warnings: seq<Finding>)
    ensures (errors, warnings) == CoreClaim(events)
  {
    errors, warnings := [], [];
    if !HasNamed(events, "TRANSPORT_SWITCH") {
      errors := errors + [MissingTransportSwitch];
    }
    if HasTerminatedState(events) {
      errors := errors + [TerminatedState];
    }
    var mentions := 0;
    var i := 0;
    while i < |events|
      invariant 0 <= i <= |events|
      invariant mentions == AttachedMentions(events, i)
    {
      var ev := events[i];
      if Get(ev, "state") == Some(VStr("ATTACHED")) {
        mentions := mentions + 1;
      }
      if Get(ev, "event") == Some(VStr("STATE_CHANGE")) && Get(ev, "to") == Some(VStr("ATTACHED")) {
        mentions := mentions + 1;
      }
      i := i + 1;
    }
    if mentions == 0 {
      warnings := warnings + [NoAttached];
    }
    if !HasNamed(events, "VOLATILITY_SIGNAL") {
      warnings := warnings + [NoVolatilitySignal];
    }
    if !HasNamed(events, "RECOVERY_SIGNAL") {
      warnings := warnings + [NoRecoverySignal];
    }
    assert errors == CoreClaim(events).0;
    assert warnings == CoreClaim(events).1;
  }

  // ---------------------------------------------------------------
  // run
  // ---------------------------------------------------------------

  /** The verdict, the findings and the trace's session id. */
  datatype ReplayResult = ReplayResult(ok: bool, errors: seq<Finding>, warnings: seq<Finding>, sessionId: Option<string>)

  /** The values the monotonicity checks compare are int-like. */
  predicate Comparable(events: seq<Event>)
  {
    IntsWhereCounted(events, "ts_ms", true)
    && IntsWhereCounted(events, "state_version", false)
    && IntsWhereCounted(events, "counter", false)
  }

  function RunChecks(events: seq<Event>): ReplayResult
    requires Comparable(events)
  {
    var e1 := FieldErrors(events, |events|);
    var w1 := FieldWarnings(events, |events|);
    var (sid, e2) := SingleSession(events);
    var e5 := TimeErrors(Decreases(events, "ts_ms", true, |events|));
    var e6 := VersionErrors(Decreases(events, "state_version", false, |events|));
    var (e3, w3) := CounterAntiReplay(events);
    var (e4, w4) := CoreClaim(events);
    var errors := e1 + e2 + e5 + e6 + e3 + e4;
    ReplayResult(errors == [], errors, w1 + w3 + w4, sid)
  }

  method Run(events: seq<Event>) returns (r: ReplayResult)
    requires Comparable(events)
    ensures r == RunChecks(events)
  {
    var errors, warnings := ValidateRequiredFields(events);
    var (sid, e2) := SingleSession(events);
    errors := errors + e2;
    var e := ValidateMonotonicTime(events);
    errors := errors + e;
    e := ValidateMonotonicStateVersion(events);
    errors := errors + e;
    var e3, w3 := ValidateCounterAntiReplay(events);
    errors, warnings := errors + e3, warnings + w3;
    var e4, w4 := ValidateCoreClaim(events);
    errors, warnings := errors + e4, warnings + w4;
    r := ReplayResult(|errors| == 0, errors, warnings, sid);
  }

  /** A trace passes exactly when every event is well formed, it names one
      session, its timestamps and state versions never go down, its
      counters strictly increase, it switches transport and it never reaches
      TERMINATED; warnings never affect the verdict. */
  lemma RunOkIff(events: seq<Event>)
    requires Comparable(events)
    ensures var r := RunChecks(events);
            (r.ok <==> r.errors == [])
            && (r.ok <==>
                  (forall i :: 0 <= i < |events| ==> WellFormed(events[i]))
                  && |SessionIds(events)| == 1
                  && NonDecreasing(CountedInts(events, "ts_ms", true, |events|))
                  && NonDecreasing(CountedInts(events, "state_version", false, |events|))
                  && StrictlyIncreasing(CountedInts(events, "counter", false, |events|))
                  && HasNamed(events, "TRANSPORT_SWITCH") && !HasTerminatedState(events))
            && (r.ok ==> r.sessionId.Some? && SessionIds(events) == {r.sessionId.value})
  {
    var r := RunChecks(events);
    var e1 := FieldErrors(events, |events|);
    var e2 := SingleSession(events).1;
    var ts := Decreases(events, "ts_ms", true, |events|);
    var vs := Decreases(events, "state_version", false, |events|);
    var e3 := CounterAntiReplay(events).0;
    var e4 := CoreClaim(events).0;
    assert r.errors == e1 + e2 + TimeErrors(ts) + VersionErrors(vs) + e3 + e4;
    assert |r.errors| == |e1| + |e2| + |ts| + |vs| + |e3| + |e4|;
    assert e1 == [] <==> forall i :: 0 <= i < |events| ==> WellFormed(events[i]) by {
      FieldErrorsEmpty(events, |events|);
    }
    assert ts == [] <==> NonDecreasing(CountedInts(events, "ts_ms", true, |events|)) by {
      NoDecreasesIffSorted(events, "ts_ms", true, |events|);
      StepsIffNonDecreasing(CountedInts(events, "ts_ms", true, |events|));
    }
    assert vs == [] <==> NonDecreasing(CountedInts(events, "state_version", false, |events|)) by {
      NoDecreasesIffSorted(events, "state_version", false, |events|);
      StepsIffNonDecreasing(CountedInts(events, "state_version", false, |events|));
    }
    assert e3 == [] <==> StrictlyIncreasing(CountedInts(events, "counter", false, |events|)) by {
      CounterAntiReplayFacts(events);
    }
  }
}
