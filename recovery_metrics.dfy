// core/metrics/recovery_metrics.py: a recorder that consumes timestamped
// events, opens a recovery window when the transport dies, counts what
// happens inside it, closes it on a deterministic outcome, and summarises
// the closed windows.
module RecoveryMetrics {
  import opened OptionType

  /** A recorded event.  Detail values are kept as strings. */
  datatype MetricEvent = MetricEvent(tsMs: int, eventType: string, reasonCode: Option<string>, details: map<string, string>)

  /** A window's outcome; the source writes these as the strings UNKNOWN,
      RECOVERED, DEGRADED and TERMINATED. */
  datatype Outcome = Unknown | Recovered | DegradedOutcome | TerminatedOutcome

  datatype RecoveryWindow = RecoveryWindow(
    startTsMs: int,
    endTsMs: Option<int>,
    outcome: Outcome,
    reasonCode: Option<string>,
    reattachRequestTsMs: Option<int>,
    reattachAckTsMs: Option<int>,
    transportSwitchTsMs: Option<int>,
    attempts: int,
    rejects: int,
    switches: int,
    rateLimitHits: int,
    replayRejects: int,
    versionMismatchRejects: int)

  function NewWindow(tsMs: int): (w: RecoveryWindow)
    ensures w.startTsMs == tsMs && w.endTsMs.None? && w.outcome == Unknown && w.reasonCode.None?
    ensures w.reattachRequestTsMs.None? && w.reattachAckTsMs.None? && w.transportSwitchTsMs.None?
    ensures w.attempts == 0 && w.rejects == 0 && w.switches == 0
    ensures w.rateLimitHits == 0 && w.replayRejects == 0 && w.versionMismatchRejects == 0
  {
    RecoveryWindow(tsMs, None, Unknown, None, None, None, None, 0, 0, 0, 0, 0, 0)
  }

  /** The time to close the window, clamped at 0; None while it is open. */
  function DurationMs(w: RecoveryWindow): (d: Option<int>)
    ensures d.None? <==> w.endTsMs.None?
    ensures d.Some? ==> d.value >= 0 && d.value >= w.endTsMs.value - w.startTsMs
    ensures d.Some? && w.endTsMs.value >= w.startTsMs ==> d.value == w.endTsMs.value - w.startTsMs
  {
    if w.endTsMs.None? then None
    else if w.endTsMs.value - w.startTsMs < 0 then Some(0) else Some(w.endTsMs.value - w.startTsMs)
  }

  /** The time from the first reattach request to the first ack, clamped at 0;
      None when either is missing. */
  function ControlPlaneRttMs(w: RecoveryWindow): (d: Option<int>)
    ensures d.None? <==> w.reattachRequestTsMs.None? || w.reattachAckTsMs.None?
    ensures d.Some? ==> d.value >= 0 && d.value >= w.reattachAckTsMs.value - w.reattachRequestTsMs.value
    ensures d.Some? && w.reattachAckTsMs.value >= w.reattachRequestTsMs.value ==>
              d.value == w.reattachAckTsMs.value - w.reattachRequestTsMs.value
  {
    if w.reattachRequestTsMs.None? || w.reattachAckTsMs.None? then None
    else if w.reattachAckTsMs.value - w.reattachRequestTsMs.value < 0 then Some(0)
    else Some(w.reattachAckTsMs.value - w.reattachRequestTsMs.value)
  }

  /** `x or y` on an optional timestamp: None and 0 are both falsy. */
  function FirstOr(x: Option<int>, tsMs: int): (r: Option<int>)
    ensures x.Some? && x.value != 0 ==> r == x
    ensures (x.None? || x.value == 0) ==> r == Some(tsMs)
  {
    if x.Some? && x.value != 0 then x else Some(tsMs)
  }

  /** The recorder's recovery state: the windows, whether the last one is
      the active one, and the last known session state. */
  datatype Tracker = Tracker(windows: seq<RecoveryWindow>, active: bool, state: Option<string>)

  /** Only the active window is open, and it is the last one. */
  predicate WellFormed(t: Tracker)
  {
    (t.active ==> |t.windows| > 0 && t.windows[|t.windows| - 1].endTsMs.None?)
    && forall i :: 0 <= i < |t.windows| && (i < |t.windows| - 1 || !t.active) ==> t.windows[i].endTsMs.Some?
  }

  function Last(t: Tracker): RecoveryWindow
    requires |t.windows| > 0
  {
    t.windows[|t.windows| - 1]
  }

  /** The tracker with the active window replaced. */
  function WithActive(t: Tracker, w: RecoveryWindow): Tracker
    requires |t.windows| > 0
  {
    t.(windows := t.windows[|t.windows| - 1 := w])
  }

  /** `_close_window`: stamps the active window and deactivates it. */
  function Close(t: Tracker, tsMs: int, outcome: Outcome, reason: Option<string>): (r: Tracker)
    requires WellFormed(t)
    ensures WellFormed(r) && !r.active && |r.windows| == |t.windows| && r.state == t.state
    ensures t.active ==> r.windows[..|t.windows| - 1] == t.windows[..|t.windows| - 1]
    ensures t.active ==> Last(r) == Last(t).(endTsMs := Some(tsMs), outcome := outcome, reasonCode := reason)
    ensures !t.active ==> r == t
  {
    if !t.active then t
    else WithActive(t, Last(t).(endTsMs := Some(tsMs), outcome := outcome, reasonCode := reason)).(active := false)
  }

  /** The optional detail `key`, None when absent. */
  function Detail(details: map<string, string>, key: string): Option<string>
  {
    if key in details then Some(details[key]) else None
  }

  /** `_apply`: the effect of one event on the tracker. */
  function Applied(t: Tracker, e: MetricEvent): (r: Tracker)
    requires WellFormed(t)
    ensures WellFormed(r)
    // A new window opens exactly on TRANSPORT_DEAD with none active.
    ensures |r.windows| == |t.windows| + 1 <==> e.eventType == "TRANSPORT_DEAD" && !t.active
    ensures |r.windows| == |t.windows| || |r.windows| == |t.windows| + 1
    ensures e.eventType == "TRANSPORT_DEAD" ==> r.active
    ensures e.eventType == "TRANSPORT_DEAD" && !t.active ==> Last(r) == NewWindow(e.tsMs)
    // Closed windows are never touched.
    ensures forall i :: 0 <= i < |t.windows| && t.windows[i].endTsMs.Some? ==> r.windows[i] == t.windows[i]
    // Without an active window only TRANSPORT_DEAD matters (and the state).
    ensures !t.active && e.eventType != "TRANSPORT_DEAD" ==> r.windows == t.windows && !r.active
  {
    if e.eventType == "TRANSPORT_DEAD" then
      if t.active then t else Tracker(t.windows + [NewWindow(e.tsMs)], true, t.state)
    else if !t.active then
      if e.eventType == "STATE_CHANGE" then
        var newState := if "new_state" in e.details then e.details["new_state"] else "";
        if newState != "" then t.(state := Some(newState)) else t
      else t
    else
      var w := Last(t);
      if e.eventType == "REATTACH_REQUEST_SENT" then
        WithActive(t, w.(attempts := w.attempts + 1, reattachRequestTsMs := FirstOr(w.reattachRequestTsMs, e.tsMs)))
      else if e.eventType == "REATTACH_ACK_RECEIVED" then
        WithActive(t, w.(reattachAckTsMs := FirstOr(w.reattachAckTsMs, e.tsMs)))
      else if e.eventType == "TRANSPORT_SWITCH" then
        WithActive(t, w.(switches := w.switches + 1, transportSwitchTsMs := FirstOr(w.transportSwitchTsMs, e.tsMs)))
      else if e.eventType == "SWITCH_RATE_LIMIT_HIT" then
        WithActive(t, w.(rateLimitHits := w.rateLimitHits + 1))
      else if e.eventType == "REPLAY_REJECT" then
        WithActive(t, w.(replayRejects := w.replayRejects + 1, rejects := w.rejects + 1))
      else if e.eventType == "VERSION_MISMATCH_REJECT" then
        WithActive(t, w.(versionMismatchRejects := w.versionMismatchRejects + 1, rejects := w.rejects + 1))
      else if e.eventType == "REATTACH_REJECT_RECEIVED" then
        WithActive(t, w.(rejects := w.rejects + 1))
      else if e.eventType == "TTL_EXPIRED" then
        Close(t, e.tsMs, TerminatedOutcome,
              if e.reasonCode.None? || e.reasonCode.value == "" then Some("TTL_EXPIRED") else e.reasonCode)
      else if e.eventType == "STATE_CHANGE" then
        var newState := Detail(e.details, "new_state");
        var t1 := if newState.Some? && newState.value != "" then t.(state := newState) else t;
        if newState == Some("ATTACHED") then Close(t1, e.tsMs, Recovered, e.reasonCode)
        else if newState == Some("DEGRADED") then Close(t1, e.tsMs, DegradedOutcome, e.reasonCode)
        else if newState == Some("TERMINATED") then Close(t1, e.tsMs, TerminatedOutcome, e.reasonCode)
        else t1
      else t
  }

  /** Inside an active window: request, reject and TTL events do what the
      recorder promises. */
  lemma ActiveWindowEffects(t: Tracker, e: MetricEvent)
    requires WellFormed(t) && t.active
    ensures var r := Applied(t, e); var w := Last(t);
            (e.eventType == "REATTACH_REQUEST_SENT" ==>
               r.active && Last(r).attempts == w.attempts + 1
               && (w.reattachRequestTsMs.Some? && w.reattachRequestTsMs.value != 0 ==> Last(r).reattachRequestTsMs == w.reattachRequestTsMs)
               && (w.reattachRequestTsMs == Some(0) ==> Last(r).reattachRequestTsMs == Some(e.tsMs)))
            && (e.eventType == "REPLAY_REJECT" ==>
               r.active && Last(r).replayRejects == w.replayRejects + 1 && Last(r).rejects == w.rejects + 1)
            && (e.eventType == "VERSION_MISMATCH_REJECT" ==>
               r.active && Last(r).versionMismatchRejects == w.versionMismatchRejects + 1 && Last(r).rejects == w.rejects + 1)
            && (e.eventType == "REATTACH_REJECT_RECEIVED" ==>
               r.active && Last(r) == w.(rejects := w.rejects + 1))
            && (e.eventType == "TTL_EXPIRED" ==>
               !r.active && Last(r).endTsMs == Some(e.tsMs) && Last(r).outcome == TerminatedOutcome
               && (e.reasonCode.None? ==> Last(r).reasonCode == Some("TTL_EXPIRED")))
  {
  }

  /** A STATE_CHANGE inside an active window closes it exactly for ATTACHED,
      DEGRADED and TERMINATED, with the matching outcome. */
  lemma StateChangeCloses(t: Tracker, e: MetricEvent)
    requires WellFormed(t) && t.active && e.eventType == "STATE_CHANGE"
    ensures var r := Applied(t, e); var ns := Detail(e.details, "new_state");
            (!r.active <==> ns == Some("ATTACHED") || ns == Some("DEGRADED") || ns == Some("TERMINATED"))
            && (ns == Some("ATTACHED") ==> Last(r).outcome == Recovered)
            && (ns == Some("DEGRADED") ==> Last(r).outcome == DegradedOutcome)
            && (ns == Some("TERMINATED") ==> Last(r).outcome == TerminatedOutcome)
            && (!r.active ==> Last(r).endTsMs == Some(e.tsMs) && Last(r).reasonCode == e.reasonCode)
  {
  }

  // ---------------------------------------------------------------
  // The summary.
  // ---------------------------------------------------------------

  datatype Totals = Totals(
    recovered: nat,
    failed: nat,
    durations: seq<int>,
    rtts: seq<int>,
    switches: int,
    attempts: int,
    rejects: int,
    rateLimitHits: int,
    replayRejects: int,
    versionMismatchRejects: int)

  const NoTotals := Totals(0, 0, [], [], 0, 0, 0, 0, 0, 0)

  /** One window's contribution; open windows contribute nothing. */
  function AddWindow(acc: Totals, w: RecoveryWindow): Totals
  {
    if w.endTsMs.None? then acc
    else
      var d := DurationMs(w);
      var rtt := ControlPlaneRttMs(w);
      Totals(
        acc.recovered + (if w.outcome == Recovered then 1 else 0),
        acc.failed + (if w.outcome == Recovered then 0 else 1),
        acc.durations + (if d.Some? then [d.value] else []),
        acc.rtts + (if rtt.Some? then [rtt.value] else []),
        acc.switches + w.switches,
        acc.attempts + w.attempts,
        acc.rejects + w.rejects,
        acc.rateLimitHits + w.rateLimitHits,
        acc.replayRejects + w.replayRejects,
        acc.versionMismatchRejects + w.versionMismatchRejects)
  }

  function TotalsOf(ws: seq<RecoveryWindow>): Totals
    decreases |ws|
  {
    if ws == [] then NoTotals else AddWindow(TotalsOf(ws[..|ws| - 1]), ws[|ws| - 1])
  }

  function ClosedCount(ws: seq<RecoveryWindow>): nat
    decreases |ws|
  {
    if ws == [] then 0 else ClosedCount(ws[..|ws| - 1]) + (if ws[|ws| - 1].endTsMs.Some? then 1 else 0)
  }

  function RecoveredCount(ws: seq<RecoveryWindow>): nat
    decreases |ws|
  {
    if ws == [] then 0
    else RecoveredCount(ws[..|ws| - 1]) + (if ws[|ws| - 1].endTsMs.Some? && ws[|ws| - 1].outcome == Recovered then 1 else 0)
  }

  /** recovered + failed counts exactly the closed windows, every closed
      window contributes one duration, and the rtts are never more. */
  lemma {:induction false} TotalsCountClosed(ws: seq<RecoveryWindow>)
    ensures var t := TotalsOf(ws);
            t.recovered + t.failed == ClosedCount(ws) && t.recovered == RecoveredCount(ws)
            && |t.durations| == ClosedCount(ws) && |t.rtts| <= ClosedCount(ws)
            && (forall i :: 0 <= i < |t.durations| ==> t.durations[i] >= 0)
            && (forall i :: 0 <= i < |t.rtts| ==> t.rtts[i] >= 0)
    decreases |ws|
  {
    if ws != [] {
      TotalsCountClosed(ws[..|ws| - 1]);
    }
  }

  datatype MetricsSummary = MetricsSummary(
    sessionId: string,
    totalWindows: int,
    recoveredWindows: int,
    failedWindows: int,
    recoveryDurationsMs: seq<int>,
    controlPlaneRttsMs: seq<int>,
    totalSwitches: int,
    totalAttempts: int,
    totalRejects: int,
    rateLimitHits: int,
    replayRejects: int,
    versionMismatchRejects: int,
    recoverySuccessRate: real)

  function SummaryOf(sessionId: string, t: Totals): (s: MetricsSummary)
    ensures s.totalWindows == t.recovered + t.failed
    ensures s.totalWindows > 0 ==> s.recoverySuccessRate == t.recovered as real / s.totalWindows as real
    ensures s.totalWindows == 0 ==> s.recoverySuccessRate == 0.0
    ensures 0.0 <= s.recoverySuccessRate <= 1.0
  {
    var total := t.recovered + t.failed;
    MetricsSummary(sessionId, total, t.recovered, t.failed, t.durations, t.rtts, t.switches, t.attempts,
                   t.rejects, t.rateLimitHits, t.replayRejects, t.versionMismatchRejects,
                   if total > 0 then t.recovered as real / total as real else 0.0)
  }

  class Recorder {
    const sessionId: string
    var events: seq<MetricEvent>
    var windows: seq<RecoveryWindow>
    var active: bool
    var state: Option<string>

    function Tracked(): Tracker
      reads this
    {
      Tracker(windows, active, state)
    }

    ghost predicate Valid()
      reads this
    {
      WellFormed(Tracked())
    }

    constructor (sessionId: string)
      ensures Valid() && this.sessionId == sessionId
      ensures events == [] && windows == [] && !active && state.None?
    {
      this.sessionId := sessionId;
      events := [];
      windows := [];
      active := false;
      state := None;
    }

    /** Appends the event to the log and applies it. */
    method Record(e: MetricEvent)
      requires Valid()
      modifies this
      ensures Valid()
      ensures events == old(events) + [e]
      ensures Tracked() == Applied(old(Tracked()), e)
    {
      events := events + [e];
      Apply(e);
    }

    method StartWindow(tsMs: int)
      requires Valid() && !active
      modifies this
      ensures Valid() && events == old(events) && state == old(state)
      ensures active && windows == old(windows) + [NewWindow(tsMs)]
    {
      windows := windows + [NewWindow(tsMs)];
      active := true;
    }

    method CloseWindow(tsMs: int, outcome: Outcome, reason: Option<string>)
      requires Valid()
      modifies this
      ensures Valid() && events == old(events)
      ensures Tracked() == Close(old(Tracked()), tsMs, outcome, reason)
    {
      if !active {
        return;
      }
      var w := windows[|windows| - 1];
      windows := windows[|windows| - 1 := w.(endTsMs := Some(tsMs), outcome := outcome, reasonCode := reason)];
      active := false;
    }

    method Apply(e: MetricEvent)
      requires Valid()
      modifies this
      ensures Valid() && events == old(events)
      ensures Tracked() == Applied(old(Tracked()), e)
    {
      if e.eventType == "TRANSPORT_DEAD" {
        if !active {
          StartWindow(e.tsMs);
        }
        return;
      }
      if !active {
        if e.eventType == "STATE_CHANGE" {
          var newState := if "new_state" in e.details then e.details["new_state"] else "";
          if newState != "" {
            state := Some(newState);
          }
        }
        return;
      }
      var i := |windows| - 1;
      var w := windows[i];
      if e.eventType == "REATTACH_REQUEST_SENT" {
        windows := windows[i := w.(attempts := w.attempts + 1, reattachRequestTsMs := FirstOr(w.reattachRequestTsMs, e.tsMs))];
      } else if e.eventType == "REATTACH_ACK_RECEIVED" {
        windows := windows[i := w.(reattachAckTsMs := FirstOr(w.reattachAckTsMs, e.tsMs))];
      } else if e.eventType == "TRANSPORT_SWITCH" {
        windows := windows[i := w.(switches := w.switches + 1, transportSwitchTsMs := FirstOr(w.transportSwitchTsMs, e.tsMs))];
      } else if e.eventType == "SWITCH_RATE_LIMIT_HIT" {
        windows := windows[i := w.(rateLimitHits := w.rateLimitHits + 1)];
      } else if e.eventType == "REPLAY_REJECT" {
        windows := windows[i := w.(replayRejects := w.replayRejects + 1, rejects := w.rejects + 1)];
      } else if e.eventType == "VERSION_MISMATCH_REJECT" {
        windows := windows[i := w.(versionMismatchRejects := w.versionMismatchRejects + 1, rejects := w.rejects + 1)];
      } else if e.eventType == "REATTACH_REJECT_RECEIVED" {
        windows := windows[i := w.(rejects := w.rejects + 1)];
      } else if e.eventType == "TTL_EXPIRED" {
        CloseWindow(e.tsMs, TerminatedOutcome,
                    if e.reasonCode.None? || e.reasonCode.value == "" then Some("TTL_EXPIRED") else e.reasonCode);
      } else if e.eventType == "STATE_CHANGE" {
        var newState := Detail(e.details, "new_state");
        if newState.Some? && newState.value != "" {
          state := newState;
        }
        if newState == Some("ATTACHED") {
          CloseWindow(e.tsMs, Recovered, e.reasonCode);
        } else if newState == Some("DEGRADED") {
          CloseWindow(e.tsMs, DegradedOutcome, e.reasonCode);
        } else if newState == Some("TERMINATED") {
          CloseWindow(e.tsMs, TerminatedOutcome, e.reasonCode);
        }
      }
    }

    /** Accumulates the closed windows in order. */
    method Summary() returns (s: MetricsSummary)
      ensures s == SummaryOf(sessionId, TotalsOf(windows))
    {
      var acc := NoTotals;
      var i := 0;
      while i < |windows|
        invariant 0 <= i <= |windows|
        invariant acc == TotalsOf(windows[..i])
      {
        assert windows[..i + 1][..i] == windows[..i];
        var w := windows[i];
        if w.endTsMs.Some? {
          var recovered := if w.outcome == Recovered then 1 else 0;
          var d := DurationMs(w);
          var rtt := ControlPlaneRttMs(w);
          acc := Totals(
            acc.recovered + recovered,
            acc.failed + (1 - recovered),
            acc.durations + (if d.Some? then [d.value] else []),
            acc.rtts + (if rtt.Some? then [rtt.value] else []),
            acc.switches + w.switches,
            acc.attempts + w.attempts,
            acc.rejects + w.rejects,
            acc.rateLimitHits + w.rateLimitHits,
            acc.replayRejects + w.replayRejects,
            acc.versionMismatchRejects + w.versionMismatchRejects);
        }
        i := i + 1;
      }
      assert windows[..i] == windows;
      s := SummaryOf(sessionId, acc);
    }
  }

  /** The figures of the recorder's example window, once closed. */
  predicate ExampleShape(w: RecoveryWindow)
  {
    w.startTsMs == 1000 && w.endTsMs == Some(1350) && w.outcome == Recovered
    && w.reattachRequestTsMs == Some(1100) && w.reattachAckTsMs == Some(1300)
    && w.switches == 1 && w.attempts == 1 && w.rejects == 0
    && w.rateLimitHits == 0 && w.replayRejects == 0 && w.versionMismatchRejects == 0
  }

  /** The events of the recorder's example: the transport dies, recovery
      starts, a reattach is requested, the server switches and acks, and the
      session is attached again. */
  method ExampleRecorder() returns (r: Recorder)
    ensures fresh(r) && r.sessionId == "sess_demo_001" && |r.windows| == 1 && !r.active
    ensures ExampleShape(r.windows[0]) && |r.events| == 6
  {
    r := new Recorder("sess_demo_001");
    var w := NewWindow(1000);
    r.Record(MetricEvent(1000, "TRANSPORT_DEAD", Some("NO_DELIVERY_WINDOW"), map[]));
    assert r.windows == [w] && r.active;
    r.Record(MetricEvent(1050, "STATE_CHANGE", Some("TRANSPORT_DEAD"), map["old_state" := "ATTACHED", "new_state" := "RECOVERING"]));
    assert r.windows == [w] && r.active;
    r.Record(MetricEvent(1100, "REATTACH_REQUEST_SENT", Some("REATTACH"), map["candidate_proto" := "udp"]));
    w := w.(attempts := 1, reattachRequestTsMs := Some(1100));
    assert r.windows == [w] && r.active;
    r.Record(MetricEvent(1250, "TRANSPORT_SWITCH", Some("CANDIDATE_SELECTED"), map["new_transport_id" := "udp:2"]));
    w := w.(switches := 1, transportSwitchTsMs := Some(1250));
    assert r.windows == [w] && r.active;
    r.Record(MetricEvent(1300, "REATTACH_ACK_RECEIVED", Some("REATTACH_SUCCESS"), map[]));
    w := w.(reattachAckTsMs := Some(1300));
    assert r.windows == [w] && r.active;
    r.Record(MetricEvent(1350, "STATE_CHANGE", Some("REATTACH_SUCCESS"), map["old_state" := "RECOVERING", "new_state" := "ATTACHED"]));
    w := w.(endTsMs := Some(1350), outcome := Recovered, reasonCode := Some("REATTACH_SUCCESS"));
    assert r.windows == [w];
  }

  /** A single window of the example's shape sums to one recovered window of
      350 ms with a 200 ms round trip. */
  lemma ExampleTotals(w: RecoveryWindow)
    requires ExampleShape(w)
    ensures TotalsOf([w]) == Totals(1, 0, [350], [200], 1, 1, 0, 0, 0, 0)
  {
    assert [w][..0] == [];
    assert DurationMs(w) == Some(350) && ControlPlaneRttMs(w) == Some(200);
    var empty: seq<int> := [];
    assert empty + [350] == [350] && empty + [200] == [200];
  }

  /** The summary of the example: one window, recovered after 350 ms, with a
      200 ms control-plane round trip. */
  method ExampleUsage() returns (s: MetricsSummary)
    ensures s.totalWindows == 1 && s.recoveredWindows == 1 && s.failedWindows == 0
    ensures s.recoveryDurationsMs == [350] && s.controlPlaneRttsMs == [200]
    ensures s.totalSwitches == 1 && s.totalAttempts == 1 && s.recoverySuccessRate == 1.0
  {
    var r := ExampleRecorder();
    ExampleTotals(r.windows[0]);
    assert r.windows == [r.windows[0]];
    s := r.Summary();
  }
}
