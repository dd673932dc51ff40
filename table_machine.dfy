// demo_engine/state_machine.py: a state machine driven by an explicit
// transition table, with a version that counts successful transitions.
// The table is a constructor parameter; AllowedTransitions is the table the
// source ships.
module TableMachine {

  datatype DemoState = Birth | Attached | Volatile | Degraded | Reattaching | Recovering | Terminated

  function Name(s: DemoState): string
  {
    match s
    case Birth => "BIRTH"
    case Attached => "ATTACHED"
    case Volatile => "VOLATILE"
    case Degraded => "DEGRADED"
    case Reattaching => "REATTACHING"
    case Recovering => "RECOVERING"
    case Terminated => "TERMINATED"
  }

  /** Each state's allowed successors; a state without an entry has none. */
  type Table = map<DemoState, seq<DemoState>>

  /** `new_state in ALLOWED_TRANSITIONS.get(state, [])` */
  predicate CanTransition(table: Table, from: DemoState, to: DemoState)
  {
    from in table && to in table[from]
  }

  function AllowedTransitions(): (t: Table)
    ensures Terminated !in t
    ensures t.Keys == {Birth, Attached, Volatile, Degraded, Reattaching, Recovering}
  {
    map[
      Birth := [Attached],
      Attached := [Volatile, Terminated],
      Volatile := [Degraded, Attached, Terminated],
      Degraded := [Reattaching, Terminated],
      Reattaching := [Recovering, Terminated],
      Recovering := [Attached, Terminated]]
  }

  /** The shipped table: nothing leaves TERMINATED, BIRTH leads only to
      ATTACHED (so not straight to TERMINATED), ATTACHED may not go to
      RECOVERING, and every other state may terminate. */
  lemma AllowedTransitionsFacts()
    ensures forall to :: !CanTransition(AllowedTransitions(), Terminated, to)
    ensures forall to :: CanTransition(AllowedTransitions(), Birth, to) <==> to == Attached
    ensures !CanTransition(AllowedTransitions(), Attached, Recovering)
    ensures forall s :: s != Birth && s != Terminated ==> CanTransition(AllowedTransitions(), s, Terminated)
  {
    var t := AllowedTransitions();
    assert t[Birth] == [Attached];
    assert t[Attached] == [Volatile, Terminated];
  }

  /** The record `transition` returns. */
  datatype TransitionRecord = TransitionRecord(from: DemoState, to: DemoState, reason: string, stateVersion: int)

  /** `transition` either returns its record or raises `ValueError`. */
  datatype Outcome = Moved(record: TransitionRecord) | Illegal(message: string)

  function IllegalMessage(from: DemoState, to: DemoState): string
  {
    "Illegal transition " + Name(from) + " -> " + Name(to)
  }

  /** One transition on a (state, version) pair. */
  function Step(table: Table, state: DemoState, version: int, to: DemoState, reason: string): (r: (DemoState, int, Outcome))
    ensures CanTransition(table, state, to) <==> r.2.Moved?
    ensures r.2.Moved? ==> r.0 == to && r.1 == version + 1 && r.2.record == TransitionRecord(state, to, reason, version + 1)
    ensures r.2.Illegal? ==> r.0 == state && r.1 == version && r.2.message == IllegalMessage(state, to)
  {
    if !CanTransition(table, state, to) then (state, version, Illegal(IllegalMessage(state, to)))
    else (to, version + 1, Moved(TransitionRecord(state, to, reason, version + 1)))
  }

  class Machine {
    const table: Table
    var state: DemoState
    var stateVersion: int

    constructor (table: Table)
      ensures this.table == table && state == Birth && stateVersion == 0
    {
      this.table := table;
      state := Birth;
      stateVersion := 0;
    }

    method Transition(newState: DemoState, reason: string) returns (r: Outcome)
      modifies this
      ensures (state, stateVersion, r) == Step(table, old(state), old(stateVersion), newState, reason)
    {
      if newState !in (if state in table then table[state] else []) {
        return Illegal(IllegalMessage(state, newState));
      }
      var oldState := state;
      state := newState;
      stateVersion := stateVersion + 1;
      return Moved(TransitionRecord(oldState, newState, reason, stateVersion));
    }
  }

  /** A sequence of transition requests, each with its reason. */
  function Run(table: Table, state: DemoState, version: int, requests: seq<(DemoState, string)>): (DemoState, int)
    decreases |requests|
  {
    if requests == [] then (state, version)
    else
      var r := Step(table, state, version, requests[0].0, requests[0].1);
      Run(table, r.0, r.1, requests[1..])
  }

  /** How many of the requests succeed. */
  function Successes(table: Table, state: DemoState, requests: seq<(DemoState, string)>): nat
    decreases |requests|
  {
    if requests == [] then 0
    else
      var next := if CanTransition(table, state, requests[0].0) then requests[0].0 else state;
      (if CanTransition(table, state, requests[0].0) then 1 else 0) + Successes(table, next, requests[1..])
  }

  /** From any state and version, a run raises the version by exactly the
      number of its successful transitions. */
  lemma {:induction false} VersionCountsSuccesses(table: Table, state: DemoState, version: int, requests: seq<(DemoState, string)>)
    ensures Run(table, state, version, requests).1 == version + Successes(table, state, requests)
    decreases |requests|
  {
    if requests != [] {
      var r := Step(table, state, version, requests[0].0, requests[0].1);
      VersionCountsSuccesses(table, r.0, r.1, requests[1..]);
    }
  }

  /** Under the shipped table, a terminated machine stays terminated. */
  lemma {:induction false} TerminatedStaysTerminated(version: int, requests: seq<(DemoState, string)>)
    ensures Run(AllowedTransitions(), Terminated, version, requests) == (Terminated, version)
    decreases |requests|
  {
    if requests != [] {
      TerminatedStaysTerminated(version, requests[1..]);
    }
  }
}
