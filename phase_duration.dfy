// demo_engine/phase_duration.py: `PhaseDurationCalculator.generate`
// records the timestamp of the last occurrence of each protocol phase, then
// takes the duration between every two consecutive phases of PHASE_ORDER
// that both occurred.  Reading the trace and writing the JSON file are not
// modelled.
module PhaseDurations {
  import opened TraceEvents

  const PhaseOrder: seq<string> := [
    "SESSION_CREATED", "VOLATILITY_SIGNAL", "DEGRADED_ENTERED", "BEST_CANDIDATE_SELECTED",
    "TRANSPORT_SWITCH", "RECOVERY_SIGNAL", "ATTACHED_RESTORED", "SESSION_EXPIRED"]

  /** `e["event"] in PHASE_ORDER`. */
  predicate IsPhase(ev: Event)
    requires "event" in ev
  {
    ev["event"].VStr? && ev["event"].s in PhaseOrder
  }

  /** Every event has a name, and every phase event an int-like `ts_ms`;
      the source raises KeyError otherwise, and cannot subtract other
      values. */
  predicate Indexable(events: seq<Event>)
  {
    forall i :: 0 <= i < |events| ==>
      "event" in events[i] && (IsPhase(events[i]) ==> "ts_ms" in events[i] && IsPyInt(events[i]["ts_ms"]))
  }

  /** The `timestamps` dictionary after the first `n` events: each phase
      seen is mapped to the timestamp of the latest event of that phase. */
  function LastStamps(events: seq<Event>, n: nat): map<string, int>
    requires n <= |events| && Indexable(events)
    decreases n
  {
    if n == 0 then map[]
    else
      var ev := events[n - 1];
      if IsPhase(ev) then LastStamps(events, n - 1)[ev["event"].s := AsInt(ev["ts_ms"])]
      else LastStamps(events, n - 1)
  }

  /** The latest event before `n` named `p`. */
  predicate LatestOf(events: seq<Event>, n: nat, p: string, i: nat)
    requires n <= |events|
  {
    i < n && IsNamed(events[i], p) && forall j :: i < j < n ==> !IsNamed(events[j], p)
  }

  /** A phase is recorded exactly when some event has that name. */
  lemma {:induction false} LastStampsHas(events: seq<Event>, n: nat, p: string)
    requires n <= |events| && Indexable(events) && p in PhaseOrder
    ensures p in LastStamps(events, n) <==> exists i :: 0 <= i < n && IsNamed(events[i], p)
    decreases n
  {
    if n > 0 {
      LastStampsHas(events, n - 1, p);
      if IsNamed(events[n - 1], p) {
        assert p in LastStamps(events, n);
      } else if exists i :: 0 <= i < n && IsNamed(events[i], p) {
        var i :| 0 <= i < n && IsNamed(events[i], p);
        assert i < n - 1;
      }
    }
  }

  /** A recorded phase holds the timestamp of its last occurrence. */
  lemma {:induction false} LastStampsLatest(events: seq<Event>, n: nat, p: string)
    requires n <= |events| && Indexable(events) && p in PhaseOrder
    ensures p in LastStamps(events, n) ==>
              exists i: nat :: LatestOf(events, n, p, i) && LastStamps(events, n)[p] == AsInt(events[i]["ts_ms"])
    decreases n
  {
    if n > 0 {
      LastStampsLatest(events, n - 1, p);
      var ev := events[n - 1];
      if IsNamed(ev, p) {
        assert LatestOf(events, n, p, n - 1);
      } else if p in LastStamps(events, n - 1) {
        var i: nat :| LatestOf(events, n - 1, p, i) && LastStamps(events, n - 1)[p] == AsInt(events[i]["ts_ms"]);
        assert LatestOf(events, n, p, i);
      }
    }
  }

  /** The phases recorded are phases of PHASE_ORDER. */
  lemma {:induction false} LastStampsKeys(events: seq<Event>, n: nat)
    requires n <= |events| && Indexable(events)
    ensures forall p :: p in LastStamps(events, n) ==> p in PhaseOrder
    decreases n
  {
    if n > 0 {
      LastStampsKeys(events, n - 1);
    }
  }

  /** The key of the duration from phase `i` to phase `i + 1`. */
  function Label(i: nat): string
    requires i + 1 < |PhaseOrder|
  {
    PhaseOrder[i] + " → " + PhaseOrder[i + 1]
  }

  /** Distinct pairs have distinct keys: the phases they start from begin
      with distinct letters. */
  lemma LabelsDistinct(i: nat, j: nat)
    requires i + 1 < |PhaseOrder| && j + 1 < |PhaseOrder| && i != j
    ensures Label(i) != Label(j)
  {
    assert Label(i)[0] == PhaseOrder[i][0] && Label(j)[0] == PhaseOrder[j][0];
    assert PhaseOrder[0][0] == 'S' && PhaseOrder[1][0] == 'V' && PhaseOrder[2][0] == 'D' && PhaseOrder[3][0] == 'B';
    assert PhaseOrder[4][0] == 'T' && PhaseOrder[5][0] == 'R' && PhaseOrder[6][0] == 'A';
  }

  /** The `durations` dictionary after the first `k` pairs of phases. */
  function Durations(ts: map<string, int>, k: nat): map<string, int>
    requires k < |PhaseOrder|
    decreases k
  {
    if k == 0 then map[]
    else
      var d := Durations(ts, k - 1);
      var a, b := PhaseOrder[k - 1], PhaseOrder[k];
      if a in ts && b in ts then d[Label(k - 1) := ts[b] - ts[a]] else d
  }

  /** The durations hold one entry for each consecutive pair of phases
      that were both recorded, equal to the later timestamp less the earlier
      (negative when the later phase occurred first), and nothing else. */
  lemma {:induction false} DurationsMeaning(ts: map<string, int>, k: nat, i: nat)
    requires k < |PhaseOrder| && i < k
    ensures Label(i) in Durations(ts, k) <==> PhaseOrder[i] in ts && PhaseOrder[i + 1] in ts
    ensures Label(i) in Durations(ts, k) ==> Durations(ts, k)[Label(i)] == ts[PhaseOrder[i + 1]] - ts[PhaseOrder[i]]
    decreases k
  {
    var d := Durations(ts, k - 1);
    var a, b := PhaseOrder[k - 1], PhaseOrder[k];
    assert Durations(ts, k) == if a in ts && b in ts then d[Label(k - 1) := ts[b] - ts[a]] else d;
    if i < k - 1 {
      DurationsMeaning(ts, k - 1, i);
      LabelsDistinct(i, k - 1);
    } else {
      LabelNotYet(ts, k - 1);
    }
  }

  /** The key of pair `k` is not among the first `k` durations. */
  lemma LabelNotYet(ts: map<string, int>, k: nat)
    requires k + 1 < |PhaseOrder|
    ensures Label(k) !in Durations(ts, k)
  {
    DurationsOnlyLabels(ts, k);
    forall j | 0 <= j < k ensures Label(j) != Label(k) {
      LabelsDistinct(j, k);
    }
  }

  lemma {:induction false} DurationsOnlyLabels(ts: map<string, int>, k: nat)
    requires k < |PhaseOrder|
    ensures forall key :: key in Durations(ts, k) ==> exists j :: 0 <= j < k && key == Label(j)
    ensures |Durations(ts, k)| <= k
    decreases k
  {
    if k > 0 {
      DurationsOnlyLabels(ts, k - 1);
      var d := Durations(ts, k - 1);
      var a, b := PhaseOrder[k - 1], PhaseOrder[k];
      if a in ts && b in ts {
        assert d[Label(k - 1) := ts[b] - ts[a]].Keys == d.Keys + {Label(k - 1)};
      }
    }
  }

  /** What `generate` writes, given the trace. */
  function PhaseDurations(events: seq<Event>): map<string, int>
    requires Indexable(events)
  {
    Durations(LastStamps(events, |events|), |PhaseOrder| - 1)
  }

  /** At most one duration per consecutive pair: seven at most. */
  lemma PhaseDurationsBound(events: seq<Event>)
    requires Indexable(events)
    ensures |PhaseDurations(events)| <= |PhaseOrder| - 1 == 7
  {
    DurationsOnlyLabels(LastStamps(events, |events|), |PhaseOrder| - 1);
  }

  /** The duration from phase `i` to the next is reported exactly when
      both phases occur in the trace, and is the difference between the
      timestamps of their last occurrences. */
  lemma PhaseDurationsMeaning(events: seq<Event>, i: nat)
    requires Indexable(events) && i + 1 < |PhaseOrder|
    ensures Label(i) in PhaseDurations(events) <==>
              HasNamed(events, PhaseOrder[i]) && HasNamed(events, PhaseOrder[i + 1])
    ensures Label(i) in PhaseDurations(events) ==>
              exists a: nat, b: nat :: LatestOf(events, |events|, PhaseOrder[i], a)
                                       && LatestOf(events, |events|, PhaseOrder[i + 1], b)
                                       && PhaseDurations(events)[Label(i)]
                                            == AsInt(events[b]["ts_ms"]) - AsInt(events[a]["ts_ms"])
  {
    var ts := LastStamps(events, |events|);
    DurationsMeaning(ts, |PhaseOrder| - 1, i);
    LastStampsHas(events, |events|, PhaseOrder[i]);
    LastStampsHas(events, |events|, PhaseOrder[i + 1]);
    LastStampsLatest(events, |events|, PhaseOrder[i]);
    LastStampsLatest(events, |events|, PhaseOrder[i + 1]);
  }

  /** `generate`: the two loops that fill `timestamps` and `durations`. */
  method Generate(events: seq<Event>) returns (durations: map<string, int>)
    requires Indexable(events)
    ensures durations == PhaseDurations(events)
    ensures |durations| <= |PhaseOrder| - 1
  {
    var timestamps: map<string, int> := map[];
    var n := 0;
    while n < |events|
      invariant 0 <= n <= |events|
      invariant timestamps == LastStamps(events, n)
    {
      var e := events[n];
      if e["event"].VStr? && e["event"].s in PhaseOrder {
        timestamps := timestamps[e["event"].s := AsInt(e["ts_ms"])];
      }
      n := n + 1;
    }
    durations := map[];
    var i := 0;
    while i < |PhaseOrder| - 1
      invariant 0 <= i <= |PhaseOrder| - 1
      invariant durations == Durations(timestamps, i)
    {
      var a, b := PhaseOrder[i], PhaseOrder[i + 1];
      if a in timestamps && b in timestamps {
        assert Label(i) == a + " → " + b;
        durations := durations[a + " → " + b := timestamps[b] - timestamps[a]];
      }
      i := i + 1;
    }
    DurationsOnlyLabels(timestamps, i);
  }
}
