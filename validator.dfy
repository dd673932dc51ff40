// demo_engine/validator.py: `DemoValidator` checks a loaded demo trace for
// the required event names, timestamp order, the expected state
// progression and the first audit, appending one error per finding to its
// error list.  Loading the JSON-lines file is not modelled: the loaded
// events are given to the constructor.
module DemoValidation {
  import opened OptionType
  import opened TraceEvents

  const RequiredEvents: seq<string> := [
    "SESSION_CREATED", "VOLATILITY_SIGNAL", "DEGRADED_ENTERED", "CANDIDATE_SCORES",
    "BEST_CANDIDATE_SELECTED", "AUDIT_EVENT", "REATTACH_REQUEST", "REATTACH_PROOF",
    "TRANSPORT_SWITCH", "RECOVERY_SIGNAL", "RECOVERY_PROGRESS", "ATTACHED_RESTORED"]

  const ExpectedProgression: seq<string> := [
    "SESSION_CREATED", "VOLATILITY_SIGNAL", "DEGRADED_ENTERED",
    "REATTACH_REQUEST", "RECOVERY_SIGNAL", "ATTACHED_RESTORED"]

  datatype ValidationError =
    | MissingRequiredEvent(name: string)
    | TimestampsNotStrictlyIncreasing
    | ProgressionMismatch
    | MissingAudit
    | AuditIdentityReset
    | AuditDualBinding

  /** Every event has the fields the checks index directly; the source
      raises KeyError otherwise, and cannot sort timestamps that are not
      numbers. */
  predicate Indexable(events: seq<Event>)
  {
    (forall i :: 0 <= i < |events| ==> "event" in events[i] && "ts_ms" in events[i])
    && IntsWhereCounted(events, "ts_ms", false)
  }

  /** One error per name of `reqs` absent from `seen`, in the order of
      `reqs`. */
  function RequiredErrors(reqs: seq<string>, seen: set<Value>): seq<ValidationError>
    decreases |reqs|
  {
    if reqs == [] then []
    else
      RequiredErrors(reqs[..|reqs| - 1], seen)
      + (if VStr(reqs[|reqs| - 1]) !in seen then [MissingRequiredEvent(reqs[|reqs| - 1])] else [])
  }

  /** The required-event errors are exactly the absent names, each named
      once for each time it is required. */
  lemma {:induction false} RequiredErrorsExact(reqs: seq<string>, seen: set<Value>)
    ensures var errs := RequiredErrors(reqs, seen);
            (forall e :: e in errs ==> e.MissingRequiredEvent? && e.name in reqs && VStr(e.name) !in seen)
            && (forall k :: 0 <= k < |reqs| && VStr(reqs[k]) !in seen ==> MissingRequiredEvent(reqs[k]) in errs)
            && |errs| <= |reqs|
            && (errs == [] <==> forall k :: 0 <= k < |reqs| ==> VStr(reqs[k]) in seen)
    decreases |reqs|
  {
    if reqs != [] {
      var init := reqs[..|reqs| - 1];
      RequiredErrorsExact(init, seen);
      forall k | 0 <= k < |init| ensures init[k] == reqs[k] {
      }
      var errs := RequiredErrors(reqs, seen);
      var before := RequiredErrors(init, seen);
      forall e | e in errs ensures e.MissingRequiredEvent? && e.name in reqs && VStr(e.name) !in seen {
        if e in before {
          var k :| 0 <= k < |init| && init[k] == e.name;
          assert reqs[k] == e.name;
        }
      }
      if errs == [] {
        assert |before| == 0;
      }
    }
  }

  function TimestampErrors(events: seq<Event>): seq<ValidationError>
    requires Indexable(events)
  {
    if NonDecreasing(CountedInts(events, "ts_ms", false, |events|)) then [] else [TimestampsNotStrictlyIncreasing]
  }

  /** How many of the expected names the greedy scan has matched after the
      first `n` events; the scan moves on only at the next expected name. */
  function Matched(events: seq<Event>, expected: seq<string>, n: nat): (m: nat)
    requires n <= |events|
    ensures m <= |expected| && m <= n
    decreases n
  {
    if n == 0 then 0
    else
      var m := Matched(events, expected, n - 1);
      if m < |expected| && IsNamed(events[n - 1], expected[m]) then m + 1 else m
  }

  /** `names` occur, in order, among the names of the first `n` events
      (matched from the back, independently of the greedy scan). */
  predicate Embeds(events: seq<Event>, names: seq<string>, n: nat)
    requires n <= |events|
    decreases n
  {
    if names == [] then true
    else if n == 0 then false
    else (IsNamed(events[n - 1], names[|names| - 1]) && Embeds(events, names[..|names| - 1], n - 1))
         || Embeds(events, names, n - 1)
  }

  lemma {:induction false} MatchedGrows(events: seq<Event>, expected: seq<string>, m: nat, n: nat)
    requires m <= n <= |events|
    ensures Matched(events, expected, m) <= Matched(events, expected, n)
    decreases n - m
  {
    if m < n {
      MatchedGrows(events, expected, m, n - 1);
    }
  }

  /** The greedy scan matches the first `k` expected names exactly when
      they occur in order: greedy matching is complete. */
  lemma {:induction false} GreedyIsComplete(events: seq<Event>, expected: seq<string>, k: nat, n: nat)
    requires k <= |expected| && n <= |events|
    ensures Matched(events, expected, n) >= k <==> Embeds(events, expected[..k], n)
    decreases n
  {
    if n > 0 && k > 0 {
      var m := Matched(events, expected, n - 1);
      GreedyIsComplete(events, expected, k, n - 1);
      GreedyIsComplete(events, expected, k - 1, n - 1);
      assert expected[..k][..k - 1] == expected[..k - 1];
      assert expected[..k][k - 1] == expected[k - 1];
    }
  }

  function ProgressionErrors(events: seq<Event>): seq<ValidationError>
  {
    if Matched(events, ExpectedProgression, |events|) != |ExpectedProgression| then [ProgressionMismatch] else []
  }

  /** Python truthiness of a JSON value; for other values, of the text
      `str()` gives them (0.0, -0.0, empty list and empty object are
      falsy). */
  predicate Truthy(v: Value)
  {
    match v
    case VInt(i) => i != 0
    case VStr(s) => s != ""
    case VBool(b) => b
    case VNull => false
    case VOther(text) => text !in {"0.0", "-0.0", "[]", "{}"}
  }

  /** `not ev.get(key, False)`. */
  predicate Falsy(ev: Event, key: string)
  {
    !(key in ev && Truthy(ev[key]))
  }

  function AuditErrors(events: seq<Event>): seq<ValidationError>
  {
    var audits := Named(events, "AUDIT_EVENT");
    if audits == [] then [MissingAudit]
    else
      (if Falsy(audits[0], "identity_ok") then [AuditIdentityReset] else [])
      + (if Falsy(audits[0], "dual_binding_ok") then [AuditDualBinding] else [])
  }

  /** All the errors `validate` appends, in the order of its checks. */
  function ValidationErrors(events: seq<Event>): seq<ValidationError>
    requires Indexable(events)
  {
    RequiredErrors(RequiredEvents, Names(events)) + TimestampErrors(events)
    + ProgressionErrors(events) + AuditErrors(events)
  }

  /** A trace validates exactly when every required event occurs, the
      timestamps never go down (equal ones pass), the expected progression
      occurs in order, and the first audit has a truthy `identity_ok` and
      `dual_binding_ok`. */
  lemma ValidationIff(events: seq<Event>)
    requires Indexable(events)
    ensures ValidationErrors(events) == [] <==>
              (forall k :: 0 <= k < |RequiredEvents| ==> HasNamed(events, RequiredEvents[k]))
              && NonDecreasing(CountedInts(events, "ts_ms", false, |events|))
              && Embeds(events, ExpectedProgression, |events|)
              && FirstAuditPasses(events)
  {
    RequiredCheckIff(events);
    ProgressionCheckIff(events);
    AuditErrorsIff(events);
    assert |ValidationErrors(events)| == |RequiredErrors(RequiredEvents, Names(events))| + |TimestampErrors(events)|
                                         + |ProgressionErrors(events)| + |AuditErrors(events)|;
  }

  /** The required-event check passes exactly when every required name
      occurs. */
  lemma RequiredCheckIff(events: seq<Event>)
    requires forall i :: 0 <= i < |events| ==> "event" in events[i]
    ensures RequiredErrors(RequiredEvents, Names(events)) == [] <==>
              forall k :: 0 <= k < |RequiredEvents| ==> HasNamed(events, RequiredEvents[k])
  {
    RequiredErrorsExact(RequiredEvents, Names(events));
  }

  /** The progression check passes exactly when the expected names occur
      in order. */
  lemma ProgressionCheckIff(events: seq<Event>)
    ensures ProgressionErrors(events) == [] <==> Embeds(events, ExpectedProgression, |events|)
  {
    GreedyIsComplete(events, ExpectedProgression, |ExpectedProgression|, |events|);
    assert ExpectedProgression[..|ExpectedProgression|] == ExpectedProgression;
  }

  /** The first audit exists and has a truthy `identity_ok` and
      `dual_binding_ok`. */
  predicate FirstAuditPasses(events: seq<Event>)
  {
    exists i :: 0 <= i < |events| && IsNamed(events[i], "AUDIT_EVENT")
                && (forall j :: 0 <= j < i ==> !IsNamed(events[j], "AUDIT_EVENT"))
                && !Falsy(events[i], "identity_ok") && !Falsy(events[i], "dual_binding_ok")
  }

  /** The audit check passes exactly when the first audit event passes. */
  lemma AuditErrorsIff(events: seq<Event>)
    ensures AuditErrors(events) == [] <==> FirstAuditPasses(events)
  {
    NamedFacts(events, "AUDIT_EVENT");
    if Named(events, "AUDIT_EVENT") != [] {
      var i :| 0 <= i < |events| && events[i] == Named(events, "AUDIT_EVENT")[0] && IsNamed(events[i], "AUDIT_EVENT")
               && forall j :: 0 <= j < i ==> !IsNamed(events[j], "AUDIT_EVENT");
      forall i' | 0 <= i' < |events| && IsNamed(events[i'], "AUDIT_EVENT")
                  && (forall j :: 0 <= j < i' ==> !IsNamed(events[j], "AUDIT_EVENT"))
        ensures i' == i
      {
      }
    }
  }

  class DemoValidator {
    const events: seq<Event>
    var errors: seq<ValidationError>

    /** A validator over loaded events, with no errors yet. */
    constructor (events: seq<Event>)
      ensures this.events == events && errors == []
    {
      this.events := events;
      errors := [];
    }

    method CheckRequiredEvents()
      requires Indexable(events)
      modifies this
      ensures errors == old(errors) + RequiredErrors(RequiredEvents, Names(events))
    {
      var seen := Names(events);
      var i := 0;
      while i < |RequiredEvents|
        invariant 0 <= i <= |RequiredEvents|
        invariant errors == old(errors) + RequiredErrors(RequiredEvents[..i], seen)
      {
        var req := RequiredEvents[i];
        assert RequiredEvents[..i + 1][..i] == RequiredEvents[..i];
        if VStr(req) !in seen {
          errors := errors + [MissingRequiredEvent(req)];
        }
        i := i + 1;
      }
      assert RequiredEvents[..i] == RequiredEvents;
    }

    method CheckTimestampOrder()
      requires Indexable(events)
      modifies this
      ensures errors == old(errors) + TimestampErrors(events)
    {
      var timestamps := CountedInts(events, "ts_ms", false, |events|);
      if !NonDecreasing(timestamps) {
        errors := errors + [TimestampsNotStrictlyIncreasing];
      }
    }

    method CheckStateProgression()
      modifies this
      ensures errors == old(errors) + ProgressionErrors(events)
    {
      var expected := ExpectedProgression;
      var idx := 0;
      var i := 0;
      while i < |events|
        invariant 0 <= i <= |events|
        invariant idx == Matched(events, expected, i) && idx < |expected|
      {
        if IsNamed(events[i], expected[idx]) {
          idx := idx + 1;
          if idx == |expected| {
            MatchedGrows(events, expected, i + 1, |events|);
            break;
          }
        }
        i := i + 1;
      }
      if idx != |expected| {
        errors := errors + [ProgressionMismatch];
      }
    }

    method CheckAudit()
      modifies this
      ensures errors == old(errors) + AuditErrors(events)
    {
      var audits := Named(events, "AUDIT_EVENT");
      if audits == [] {
        errors := errors + [MissingAudit];
        return;
      }
      var audit := audits[0];
      if Falsy(audit, "identity_ok") {
        errors := errors + [AuditIdentityReset];
      }
      if Falsy(audit, "dual_binding_ok") {
        errors := errors + [AuditDualBinding];
      }
    }

    /** Runs every check, none cutting the others short, and returns the
        accumulated errors. */
    method Validate() returns (errs: seq<ValidationError>)
      requires Indexable(events)
      modifies this
      ensures errs == errors == old(errors) + ValidationErrors(events)
    {
      ghost var e0 := errors;
      ghost var a, b, c, d :=
        RequiredErrors(RequiredEvents, Names(events)), TimestampErrors(events), ProgressionErrors(events), AuditErrors(events);
      CheckRequiredEvents();
      assert errors == e0 + a;
      CheckTimestampOrder();
      assert errors == e0 + a + b;
      CheckStateProgression();
      assert errors == e0 + a + b + c;
      CheckAudit();
      assert errors == e0 + a + b + c + d;
      assert ValidationErrors(events) == a + b + c + d;
      errs := errors;
    }
  }
}
