// demo_engine/invariants_checker.py: `InvariantsChecker` checks three
// protocol invariants of a loaded trace: timestamps never go down, the
// session expires exactly once, and no transport switch happens before the
// session has degraded.  Loading the JSON-lines file is not modelled: the
// loaded events are given to the constructor.
module ProtocolInvariantChecks {
  import opened TraceEvents

  datatype InvariantViolation =
    | TimestampsNotMonotonic
    | ExpiryNotUnique
    | SwitchBeforeDegraded

  /** Every event has a name and an int-like `ts_ms`; the source raises
      KeyError or cannot sort otherwise. */
  predicate Indexable(events: seq<Event>)
  {
    (forall i :: 0 <= i < |events| ==> "event" in events[i] && "ts_ms" in events[i])
    && IntsWhereCounted(events, "ts_ms", false)
  }

  function Timestamps(events: seq<Event>): (ts: seq<int>)
    requires Indexable(events)
    ensures |ts| == |events|
  {
    CountedIntsLength(events, "ts_ms", |events|);
    CountedInts(events, "ts_ms", false, |events|)
  }

  function TimestampViolations(events: seq<Event>): seq<InvariantViolation>
    requires Indexable(events)
  {
    if NonDecreasing(Timestamps(events)) then [] else [TimestampsNotMonotonic]
  }

  function ExpiryViolations(events: seq<Event>): seq<InvariantViolation>
  {
    if |Named(events, "SESSION_EXPIRED")| != 1 then [ExpiryNotUnique] else []
  }

  /** Some event before `n` is DEGRADED_ENTERED. */
  predicate DegradedBefore(events: seq<Event>, n: nat)
    requires n <= |events|
  {
    exists j :: 0 <= j < n && IsNamed(events[j], "DEGRADED_ENTERED")
  }

  /** One violation per TRANSPORT_SWITCH among the first `n` events that no
      DEGRADED_ENTERED precedes. */
  function SwitchViolations(events: seq<Event>, n: nat): seq<InvariantViolation>
    requires n <= |events|
    decreases n
  {
    if n == 0 then []
    else
      SwitchViolations(events, n - 1)
      + (if IsNamed(events[n - 1], "TRANSPORT_SWITCH") && !DegradedBefore(events, n - 1)
         then [SwitchBeforeDegraded] else [])
  }

  /** The switch violations among the first `n` events are as many as the
      switches before the first DEGRADED_ENTERED, or all the switches when
      the session never degraded. */
  lemma {:induction false} SwitchViolationsCount(events: seq<Event>, n: nat)
    requires n <= |events|
    ensures !DegradedBefore(events, n) ==> |SwitchViolations(events, n)| == CountNamed(events[..n], "TRANSPORT_SWITCH")
    ensures forall d :: 0 <= d < n && IsNamed(events[d], "DEGRADED_ENTERED") && !DegradedBefore(events, d) ==>
              |SwitchViolations(events, n)| == CountNamed(events[..d], "TRANSPORT_SWITCH")
    decreases n
  {
    if n > 0 {
      SwitchViolationsCount(events, n - 1);
      assert events[..n][..n - 1] == events[..n - 1];
      assert events[..n][n - 1] == events[n - 1];
      forall d | 0 <= d < n && IsNamed(events[d], "DEGRADED_ENTERED") && !DegradedBefore(events, d)
        ensures |SwitchViolations(events, n)| == CountNamed(events[..d], "TRANSPORT_SWITCH")
      {
        if d == n - 1 {
          assert !IsNamed(events[n - 1], "TRANSPORT_SWITCH");
        } else {
          assert DegradedBefore(events, n - 1);
          assert !IsNamed(events[n - 1], "TRANSPORT_SWITCH") || DegradedBefore(events, n - 1);
        }
      }
    }
  }

  /** No switch violation exactly when every switch has some degraded event
      before it. */
  lemma {:induction false} NoSwitchViolationIff(events: seq<Event>, n: nat)
    requires n <= |events|
    ensures SwitchViolations(events, n) == [] <==>
              forall i :: 0 <= i < n && IsNamed(events[i], "TRANSPORT_SWITCH") ==> DegradedBefore(events, i)
    decreases n
  {
    if n > 0 {
      NoSwitchViolationIff(events, n - 1);
      assert |SwitchViolations(events, n)| >= |SwitchViolations(events, n - 1)|;
    }
  }

  /** All the violations `validate` reports, in the order of its checks. */
  function Violations(events: seq<Event>): seq<InvariantViolation>
    requires Indexable(events)
  {
    TimestampViolations(events) + ExpiryViolations(events) + SwitchViolations(events, |events|)
  }

  /** A trace keeps the invariants exactly when its timestamps never go
      down, exactly one SESSION_EXPIRED occurs, and every transport switch
      comes after some DEGRADED_ENTERED. */
  lemma InvariantsIff(events: seq<Event>)
    requires Indexable(events)
    ensures Violations(events) == [] <==>
              NonDecreasing(Timestamps(events))
              && CountNamed(events, "SESSION_EXPIRED") == 1
              && forall i :: 0 <= i < |events| && IsNamed(events[i], "TRANSPORT_SWITCH") ==> DegradedBefore(events, i)
  {
    NamedFacts(events, "SESSION_EXPIRED");
    NoSwitchViolationIff(events, |events|);
    assert |Violations(events)| == |TimestampViolations(events)| + |ExpiryViolations(events)|
                                   + |SwitchViolations(events, |events|)|;
  }

  class InvariantsChecker {
    const events: seq<Event>
    var errors: seq<InvariantViolation>

    constructor (events: seq<Event>)
      ensures this.events == events && errors == []
    {
      this.events := events;
      errors := [];
    }

    method CheckMonotonicTimestamps()
      requires Indexable(events)
      modifies this
      ensures errors == old(errors) + TimestampViolations(events)
    {
      var ts := Timestamps(events);
      if !NonDecreasing(ts) {
        errors := errors + [TimestampsNotMonotonic];
      }
    }

    method CheckSingleExpiry()
      modifies this
      ensures errors == old(errors) + ExpiryViolations(events)
    {
      var expiry := Named(events, "SESSION_EXPIRED");
      if |expiry| != 1 {
        errors := errors + [ExpiryNotUnique];
      }
    }

    method CheckSwitchAfterDegraded()
      modifies this
      ensures errors == old(errors) + SwitchViolations(events, |events|)
    {
      var degradedSeen := false;
      var i := 0;
      while i < |events|
        invariant 0 <= i <= |events|
        invariant degradedSeen <==> DegradedBefore(events, i)
        invariant errors == old(errors) + SwitchViolations(events, i)
      {
        var e := events[i];
        if IsNamed(e, "DEGRADED_ENTERED") {
          degradedSeen := true;
        }
        if IsNamed(e, "TRANSPORT_SWITCH") && !degradedSeen {
          errors := errors + [SwitchBeforeDegraded];
        }
        i := i + 1;
      }
    }

    /** Runs every check and returns the accumulated violations. */
    method Validate() returns (errs: seq<InvariantViolation>)
      requires Indexable(events)
      modifies this
      ensures errs == errors == old(errors) + Violations(events)
    {
      ghost var e0 := errors;
      CheckMonotonicTimestamps();
      CheckSingleExpiry();
      CheckSwitchAfterDegraded();
      assert errors == e0 + TimestampViolations(events) + ExpiryViolations(events) + SwitchViolations(events, |events|);
      errs := errors;
    }
  }
}
