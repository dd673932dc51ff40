// demo_engine/spec_checker.py: `DemoSpecChecker` checks a loaded demo
// trace against the demo specification: every required phase occurs, the
// recovery progress events report a non-decreasing elapsed time reaching
// 2000 ms, and a transport switch happens.  Loading the JSON-lines file is
// not modelled: the loaded events are given to the constructor.
module DemoSpecChecks {
  import opened TraceEvents

  const RequiredPhases: seq<string> := [
    "SESSION_CREATED", "VOLATILITY_SIGNAL", "DEGRADED_ENTERED", "CANDIDATE_SCORES_RAW",
    "CANDIDATE_SCORES_WEIGHTED", "BEST_CANDIDATE_SELECTED", "AUDIT_EVENT", "REATTACH_REQUEST",
    "REATTACH_PROOF", "TRANSPORT_SWITCH", "RECOVERY_SIGNAL", "RECOVERY_PROGRESS",
    "ATTACHED_RESTORED", "SESSION_EXPIRED"]

  /** The shortest recovery window the specification accepts, in ms. */
  const MinRecoveryWindowMs := 2000

  datatype SpecError =
    | MissingPhase(name: string)
    | MissingRecoveryProgress
    | RecoveryNotIncreasing
    | RecoveryTooShort
    | MissingTransportSwitch

  /** Every event has a name, and every progress event an int-like
      `elapsed_ms`; the source raises KeyError or cannot sort otherwise. */
  predicate Indexable(events: seq<Event>)
  {
    forall i :: 0 <= i < |events| ==>
      "event" in events[i]
      && (IsNamed(events[i], "RECOVERY_PROGRESS") ==> "elapsed_ms" in events[i] && IsPyInt(events[i]["elapsed_ms"]))
  }

  /** One error per phase of `phases` absent from `seen`, in order. */
  function PhaseErrors(phases: seq<string>, seen: set<Value>): seq<SpecError>
    decreases |phases|
  {
    if phases == [] then []
    else
      PhaseErrors(phases[..|phases| - 1], seen)
      + (if VStr(phases[|phases| - 1]) !in seen then [MissingPhase(phases[|phases| - 1])] else [])
  }

  /** The phase errors name exactly the absent phases. */
  lemma {:induction false} PhaseErrorsExact(phases: seq<string>, seen: set<Value>)
    ensures var errs := PhaseErrors(phases, seen);
            (forall e :: e in errs ==> e.MissingPhase? && e.name in phases && VStr(e.name) !in seen)
            && (forall k :: 0 <= k < |phases| && VStr(phases[k]) !in seen ==> MissingPhase(phases[k]) in errs)
            && (errs == [] <==> forall k :: 0 <= k < |phases| ==> VStr(phases[k]) in seen)
    decreases |phases|
  {
    if phases != [] {
      var init := phases[..|phases| - 1];
      PhaseErrorsExact(init, seen);
      forall k | 0 <= k < |init| ensures init[k] == phases[k] {
      }
      var errs := PhaseErrors(phases, seen);
      var before := PhaseErrors(init, seen);
      forall e | e in errs ensures e.MissingPhase? && e.name in phases && VStr(e.name) !in seen {
        if e in before {
          var k :| 0 <= k < |init| && init[k] == e.name;
          assert phases[k] == e.name;
        }
      }
      if errs == [] {
        assert |before| == 0;
      }
    }
  }

  /** The progress events carry an int-like `elapsed_ms`. */
  lemma ProgressIndexable(events: seq<Event>)
    requires Indexable(events)
    ensures var progress := Named(events, "RECOVERY_PROGRESS");
            (forall i :: 0 <= i < |progress| ==> "elapsed_ms" in progress[i] && IsPyInt(progress[i]["elapsed_ms"]))
            && IntsWhereCounted(progress, "elapsed_ms", false)
  {
    NamedFacts(events, "RECOVERY_PROGRESS");
    var progress := Named(events, "RECOVERY_PROGRESS");
    forall i | 0 <= i < |progress| ensures "elapsed_ms" in progress[i] && IsPyInt(progress[i]["elapsed_ms"]) {
      assert progress[i] in progress;
    }
  }

  /** The elapsed times of the progress events, in order. */
  function Elapsed(events: seq<Event>): (r: seq<int>)
    requires Indexable(events)
    ensures |r| == |Named(events, "RECOVERY_PROGRESS")|
  {
    ProgressIndexable(events);
    var progress := Named(events, "RECOVERY_PROGRESS");
    CountedIntsLength(progress, "elapsed_ms", |progress|);
    CountedInts(progress, "elapsed_ms", false, |progress|)
  }

  function RecoveryErrors(events: seq<Event>): seq<SpecError>
    requires Indexable(events)
  {
    var elapsed := Elapsed(events);
    if Named(events, "RECOVERY_PROGRESS") == [] then [MissingRecoveryProgress]
    else
      (if !NonDecreasing(elapsed) then [RecoveryNotIncreasing] else [])
      + (if elapsed == [] || elapsed[|elapsed| - 1] < MinRecoveryWindowMs then [RecoveryTooShort] else [])
  }

  /** With no progress event the recovery check reports that alone;
      otherwise it passes exactly when the elapsed times never go down and
      the last reaches 2000 ms. */
  lemma RecoveryCheckIff(events: seq<Event>)
    requires Indexable(events)
    ensures Elapsed(events) == [] <==> !HasNamed(events, "RECOVERY_PROGRESS")
    ensures !HasNamed(events, "RECOVERY_PROGRESS") ==> RecoveryErrors(events) == [MissingRecoveryProgress]
    ensures RecoveryErrors(events) == [] <==>
              Elapsed(events) != []
              && NonDecreasing(Elapsed(events))
              && Elapsed(events)[|Elapsed(events)| - 1] >= MinRecoveryWindowMs
  {
    NamedFacts(events, "RECOVERY_PROGRESS");
  }

  function SwitchErrors(events: seq<Event>): seq<SpecError>
  {
    if Named(events, "TRANSPORT_SWITCH") == [] then [MissingTransportSwitch] else []
  }

  /** All the errors `validate` appends, in the order of its checks. */
  function SpecErrors(events: seq<Event>): seq<SpecError>
    requires Indexable(events)
  {
    PhaseErrors(RequiredPhases, Names(events)) + RecoveryErrors(events) + SwitchErrors(events)
  }

  lemma PhaseCheckIff(events: seq<Event>)
    requires Indexable(events)
    ensures PhaseErrors(RequiredPhases, Names(events)) == [] <==>
              forall k :: 0 <= k < |RequiredPhases| ==> HasNamed(events, RequiredPhases[k])
  {
    PhaseErrorsExact(RequiredPhases, Names(events));
  }

  /** A trace meets the specification exactly when every required phase
      occurs, a recovery progress event exists (so there are elapsed
      times), the elapsed times never go down and the last reaches 2000 ms,
      and a transport switch occurs. */
  lemma SpecCheckIff(events: seq<Event>)
    requires Indexable(events)
    ensures SpecErrors(events) == [] <==>
              (forall k :: 0 <= k < |RequiredPhases| ==> HasNamed(events, RequiredPhases[k]))
              && Elapsed(events) != []
              && NonDecreasing(Elapsed(events))
              && Elapsed(events)[|Elapsed(events)| - 1] >= MinRecoveryWindowMs
              && HasNamed(events, "TRANSPORT_SWITCH")
  {
    PhaseCheckIff(events);
    RecoveryCheckIff(events);
    NamedFacts(events, "TRANSPORT_SWITCH");
    assert |SpecErrors(events)| == |PhaseErrors(RequiredPhases, Names(events))| + |RecoveryErrors(events)|
                                   + |SwitchErrors(events)|;
  }

  class DemoSpecChecker {
    const events: seq<Event>
    var errors: seq<SpecError>

    constructor (events: seq<Event>)
      ensures this.events == events && errors == []
    {
      this.events := events;
      errors := [];
    }

    method CheckRequiredPhases()
      requires Indexable(events)
      modifies this
      ensures errors == old(errors) + PhaseErrors(RequiredPhases, Names(events))
    {
      var seen := Names(events);
      var i := 0;
      while i < |RequiredPhases|
        invariant 0 <= i <= |RequiredPhases|
        invariant errors == old(errors) + PhaseErrors(RequiredPhases[..i], seen)
      {
        var phase := RequiredPhases[i];
        assert RequiredPhases[..i + 1][..i] == RequiredPhases[..i];
        if VStr(phase) !in seen {
          errors := errors + [MissingPhase(phase)];
        }
        i := i + 1;
      }
      assert RequiredPhases[..i] == RequiredPhases;
    }

    method CheckRecoveryWindow()
      requires Indexable(events)
      modifies this
      ensures errors == old(errors) + RecoveryErrors(events)
    {
      var progress := Named(events, "RECOVERY_PROGRESS");
      if progress == [] {
        errors := errors + [MissingRecoveryProgress];
        return;
      }
      var elapsed := Elapsed(events);
      if !NonDecreasing(elapsed) {
        errors := errors + [RecoveryNotIncreasing];
      }
      if elapsed[|elapsed| - 1] < MinRecoveryWindowMs {
        errors := errors + [RecoveryTooShort];
      }
    }

    method CheckSwitchingLogic()
      modifies this
      ensures errors == old(errors) + SwitchErrors(events)
    {
      var switches := Named(events, "TRANSPORT_SWITCH");
      if switches == [] {
        errors := errors + [MissingTransportSwitch];
      }
    }

    /** Runs every check and returns the accumulated errors. */
    method Validate() returns (errs: seq<SpecError>)
      requires Indexable(events)
      modifies this
      ensures errs == errors == old(errors) + SpecErrors(events)
    {
      ghost var e0 := errors;
      ghost var a, b, c := PhaseErrors(RequiredPhases, Names(events)), RecoveryErrors(events), SwitchErrors(events);
      CheckRequiredPhases();
      assert errors == e0 + a;
      CheckRecoveryWindow();
      assert errors == e0 + a + b;
      CheckSwitchingLogic();
      assert errors == e0 + a + b + c;
      assert SpecErrors(events) == a + b + c;
      errs := errors;
    }
  }
}
