// core/policy/policy_engine.py: a sliding one-minute switch counter
// (timestamps in seconds) and a consecutive-failure counter, with the
// recovery-window and transport-loss checks as comparisons.  The wall clock
// is a parameter.
module PolicyEngine {
  import opened OptionType

  datatype PolicyConfig = PolicyConfig(
    maxSwitchesPerMinute: int,
    recoveryWindowMs: int,
    transportLossTtlMs: int,
    maxConsecutiveFailures: int)

  function DefaultConfig(): (c: PolicyConfig)
    ensures c.maxSwitchesPerMinute == 5 && c.recoveryWindowMs == 5000
    ensures c.transportLossTtlMs == 8000 && c.maxConsecutiveFailures == 3
  {
    PolicyConfig(5, 5000, 8000, 3)
  }

  /** The `PolicyViolation` raised, by its message. */
  datatype Violation = SwitchRateExceeded | TooManyFailures | RecoveryWindowExceeded | TransportLossTtlExpired

  function Message(v: Violation): string
  {
    match v
    case SwitchRateExceeded => "Switch rate exceeded (anti-flap triggered)"
    case TooManyFailures => "Too many consecutive transport failures"
    case RecoveryWindowExceeded => "Recovery window exceeded"
    case TransportLossTtlExpired => "Transport-loss TTL expired"
  }

  /** The switch timestamps less than 60 seconds before `now`, in order. */
  function Recent(ts: seq<real>, now: real): (r: seq<real>)
    ensures |r| <= |ts|
    ensures forall t :: t in r <==> t in ts && now - t < 60.0
  {
    if ts == [] then []
    else (if now - ts[0] < 60.0 then [ts[0]] else []) + Recent(ts[1..], now)
  }

  /** The filter keeps the relative order: it distributes over concatenation. */
  lemma {:induction false} RecentAppend(a: seq<real>, b: seq<real>, now: real)
    ensures Recent(a + b, now) == Recent(a, now) + Recent(b, now)
    decreases |a|
  {
    if a != [] {
      assert (a + b)[0] == a[0] && (a + b)[1..] == a[1..] + b;
      RecentAppend(a[1..], b, now);
    } else {
      assert a + b == b;
    }
  }

  /** Timestamps all inside the window are kept as they are. */
  lemma {:induction false} RecentKeepsAll(ts: seq<real>, now: real)
    requires forall i :: 0 <= i < |ts| ==> now - ts[i] < 60.0
    ensures Recent(ts, now) == ts
    decreases |ts|
  {
    if ts != [] {
      RecentKeepsAll(ts[1..], now);
      assert [ts[0]] + ts[1..] == ts;
    }
  }

  /** Filtering twice at the same instant changes nothing. */
  lemma {:induction false} RecentIdempotent(ts: seq<real>, now: real)
    ensures Recent(Recent(ts, now), now) == Recent(ts, now)
    decreases |ts|
  {
    if ts != [] {
      RecentIdempotent(ts[1..], now);
      var tail := Recent(ts[1..], now);
      if now - ts[0] < 60.0 {
        assert Recent(ts, now) == [ts[0]] + tail;
        assert ([ts[0]] + tail)[0] == ts[0] && ([ts[0]] + tail)[1..] == tail;
        assert Recent([ts[0]] + tail, now) == [ts[0]] + Recent(tail, now);
      } else {
        assert Recent(ts, now) == [] + tail == tail;
      }
    }
  }

  /** Pure comparison: the recovery window has been exceeded. */
  function CheckRecoveryWindow(config: PolicyConfig, recoveryStartTsMs: int, nowMs: int): (r: Option<Violation>)
    ensures r.Some? ==> r.value == RecoveryWindowExceeded
  {
    if nowMs - recoveryStartTsMs > config.recoveryWindowMs then Some(RecoveryWindowExceeded) else None
  }

  /** Pure comparison: the transport has been lost longer than its TTL. */
  function CheckTransportLossTtl(config: PolicyConfig, lastTransportAliveMs: int, nowMs: int): (r: Option<Violation>)
    ensures r.Some? ==> r.value == TransportLossTtlExpired
  {
    if nowMs - lastTransportAliveMs > config.transportLossTtlMs then Some(TransportLossTtlExpired) else None
  }

  /** Both checks fire exactly `window + 1` ms or more after the reference
      instant, and once fired they stay fired as time goes on. */
  lemma ChecksAreThresholds(config: PolicyConfig, ref: int, now: int, later: int)
    requires now <= later
    ensures CheckRecoveryWindow(config, ref, now).Some? <==> now >= ref + config.recoveryWindowMs + 1
    ensures CheckTransportLossTtl(config, ref, now).Some? <==> now >= ref + config.transportLossTtlMs + 1
    ensures CheckRecoveryWindow(config, ref, now).Some? ==> CheckRecoveryWindow(config, ref, later).Some?
    ensures CheckTransportLossTtl(config, ref, now).Some? ==> CheckTransportLossTtl(config, ref, later).Some?
  {
  }

  class Engine {
    const config: PolicyConfig
    var switchTimestamps: seq<real>
    var consecutiveFailures: int

    /** `config or PolicyConfig()`: a config object is always truthy. */
    constructor (config: Option<PolicyConfig>)
      ensures this.config == (if config.Some? then config.value else DefaultConfig())
      ensures switchTimestamps == [] && consecutiveFailures == 0
    {
      this.config := if config.Some? then config.value else DefaultConfig();
      switchTimestamps := [];
      consecutiveFailures := 0;
    }

    method CleanupOldSwitches(now: real)
      modifies this
      ensures switchTimestamps == Recent(old(switchTimestamps), now)
      ensures consecutiveFailures == old(consecutiveFailures)
    {
      switchTimestamps := Recent(switchTimestamps, now);
    }

    /** Records a switch at `now` (seconds); a violation when more than the
        per-minute allowance remain in the window.  The offending switch stays
        recorded either way. */
    method RecordSwitch(now: real) returns (r: Option<Violation>)
      modifies this
      ensures switchTimestamps == Recent(old(switchTimestamps), now) + [now]
      ensures forall t :: t in switchTimestamps ==> now - t < 60.0
      ensures r.Some? <==> |switchTimestamps| > config.maxSwitchesPerMinute
      ensures r.Some? ==> r.value == SwitchRateExceeded
      ensures consecutiveFailures == old(consecutiveFailures)
    {
      RecentAppend(switchTimestamps, [now], now);
      switchTimestamps := switchTimestamps + [now];
      CleanupOldSwitches(now);
      if |switchTimestamps| > config.maxSwitchesPerMinute {
        return Some(SwitchRateExceeded);
      }
      return None;
    }

    method RecordFailure() returns (r: Option<Violation>)
      modifies this
      ensures consecutiveFailures == old(consecutiveFailures) + 1
      ensures r.Some? <==> consecutiveFailures >= config.maxConsecutiveFailures
      ensures r.Some? ==> r.value == TooManyFailures
      ensures switchTimestamps == old(switchTimestamps)
    {
      consecutiveFailures := consecutiveFailures + 1;
      if consecutiveFailures >= config.maxConsecutiveFailures {
        return Some(TooManyFailures);
      }
      return None;
    }

    method ResetFailures()
      modifies this
      ensures consecutiveFailures == 0 && switchTimestamps == old(switchTimestamps)
    {
      consecutiveFailures := 0;
    }
  }

  /** With an allowance of one switch per minute, a second switch 30 s after
      the first is a violation, and one 90 s after that (the older two having
      left the window) is not. */
  method AntiFlapExample() returns (first: Option<Violation>, second: Option<Violation>, third: Option<Violation>)
    ensures first.None? && second == Some(SwitchRateExceeded) && third.None?
  {
    var e := new Engine(Some(PolicyConfig(1, 5000, 8000, 3)));
    first := e.RecordSwitch(0.0);
    assert e.switchTimestamps == [0.0];
    RecentKeepsAll([0.0], 30.0);
    second := e.RecordSwitch(30.0);
    assert e.switchTimestamps == [0.0, 30.0];
    assert Recent([0.0, 30.0], 120.0) == [];
    third := e.RecordSwitch(120.0);
  }
}
