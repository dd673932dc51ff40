// The tick-driven counters of the demo engine: session lifetime and
// heartbeats (demo_engine/session_lifetime.py), the recovery stabilisation
// window (demo_engine/recovery.py), switch hysteresis
// (demo_engine/hysteresis.py) and its decaying margin
// (demo_engine/hysteresis_decay.py).  Scores and margins are reals.

module SessionLifetime {

  /** The total of a run of ticks. */
  function Sum(ticks: seq<int>): int
    decreases |ticks|
  {
    if ticks == [] then 0 else ticks[0] + Sum(ticks[1..])
  }

  lemma {:induction false} SumNonNegative(ticks: seq<int>)
    requires forall i :: 0 <= i < |ticks| ==> ticks[i] >= 0
    ensures Sum(ticks) >= 0
    decreases |ticks|
  {
    if ticks != [] {
      SumNonNegative(ticks[1..]);
    }
  }

  class Lifetime {
    const maxLifetimeMs: int
    const heartbeatIntervalMs: int
    var elapsed: int
    var nextHeartbeat: int

    constructor (maxLifetimeMs: int, heartbeatIntervalMs: int)
      ensures this.maxLifetimeMs == maxLifetimeMs && this.heartbeatIntervalMs == heartbeatIntervalMs
      ensures elapsed == 0 && nextHeartbeat == heartbeatIntervalMs
    {
      this.maxLifetimeMs := maxLifetimeMs;
      this.heartbeatIntervalMs := heartbeatIntervalMs;
      elapsed := 0;
      nextHeartbeat := heartbeatIntervalMs;
    }

    /** `SessionLifetime()` with its default arguments: a 30 s lifetime and
        a heartbeat every 3 s. */
    constructor Default()
      ensures maxLifetimeMs == 30000 && heartbeatIntervalMs == 3000
      ensures elapsed == 0 && nextHeartbeat == 3000
    {
      maxLifetimeMs := 30000;
      heartbeatIntervalMs := 3000;
      elapsed := 0;
      nextHeartbeat := 3000;
    }

    method Tick(ms: int)
      modifies this
      ensures elapsed == old(elapsed) + ms && nextHeartbeat == old(nextHeartbeat)
    {
      elapsed := elapsed + ms;
    }

    predicate ShouldHeartbeat()
      reads this
    {
      elapsed >= nextHeartbeat
    }

    method ConsumeHeartbeat()
      modifies this
      ensures nextHeartbeat == old(nextHeartbeat) + heartbeatIntervalMs && elapsed == old(elapsed)
    {
      nextHeartbeat := nextHeartbeat + heartbeatIntervalMs;
    }

    predicate Expired()
      reads this
    {
      elapsed >= maxLifetimeMs
    }

    /** Applies a run of ticks; elapsed grows by their total. */
    method TickAll(ticks: seq<int>)
      modifies this
      ensures elapsed == old(elapsed) + Sum(ticks) && nextHeartbeat == old(nextHeartbeat)
    {
      var i := 0;
      while i < |ticks|
        invariant 0 <= i <= |ticks|
        invariant elapsed + Sum(ticks[i..]) == old(elapsed) + Sum(ticks)
        invariant nextHeartbeat == old(nextHeartbeat)
      {
        assert ticks[i..] == [ticks[i]] + ticks[i + 1..];
        Tick(ticks[i]);
        i := i + 1;
      }
    }
  }

  /** Expiry is permanent under non-negative ticks: once `elapsed` has
      reached the lifetime, any further run of such ticks keeps it there. */
  lemma ExpiryIsPermanent(elapsed: int, maxLifetimeMs: int, ticks: seq<int>)
    requires elapsed >= maxLifetimeMs
    requires forall i :: 0 <= i < |ticks| ==> ticks[i] >= 0
    ensures elapsed + Sum(ticks) >= maxLifetimeMs
  {
    SumNonNegative(ticks);
  }

  /** How many heartbeats are due at `elapsed`: the number of
      `consume_heartbeat` calls after which `should_heartbeat` turns false. */
  function DueCount(elapsed: int, nextHeartbeat: int, interval: int): nat
    requires interval > 0
    decreases elapsed - nextHeartbeat
  {
    if elapsed < nextHeartbeat then 0 else 1 + DueCount(elapsed, nextHeartbeat + interval, interval)
  }

  /** With a positive interval, heartbeats catch up with the elapsed time:
      after `DueCount` consumptions the next heartbeat lies in the future,
      and before the last of them it was still due. */
  lemma {:induction false} HeartbeatsCatchUp(elapsed: int, nextHeartbeat: int, interval: int)
    requires interval > 0
    ensures var k := DueCount(elapsed, nextHeartbeat, interval);
            nextHeartbeat + k * interval > elapsed
            && (k > 0 ==> nextHeartbeat + (k - 1) * interval <= elapsed)
    decreases elapsed - nextHeartbeat
  {
    if elapsed >= nextHeartbeat {
      HeartbeatsCatchUp(elapsed, nextHeartbeat + interval, interval);
      var k := DueCount(elapsed, nextHeartbeat + interval, interval);
      assert nextHeartbeat + interval + k * interval == nextHeartbeat + (k + 1) * interval;
      assert k > 0 ==> nextHeartbeat + interval + (k - 1) * interval == nextHeartbeat + k * interval;
    }
  }
}

module RecoveryStability {
  import SessionLifetime

  class StabilityWindow {
    const windowMs: int
    var elapsed: int

    constructor (windowMs: int)
      ensures this.windowMs == windowMs && elapsed == 0
    {
      this.windowMs := windowMs;
      elapsed := 0;
    }

    /** `RecoveryWindow()` with its default 2 s window. */
    constructor Default()
      ensures windowMs == 2000 && elapsed == 0
    {
      windowMs := 2000;
      elapsed := 0;
    }

    method Tick(ms: int)
      modifies this
      ensures elapsed == old(elapsed) + ms
    {
      elapsed := elapsed + ms;
    }

    predicate IsStable()
      reads this
    {
      elapsed >= windowMs
    }
  }

  /** Once stable, the window stays stable under non-negative ticks; a
      window that is not yet stable needs strictly positive time. */
  lemma StabilityIsPermanent(elapsed: int, windowMs: int, ticks: seq<int>)
    requires forall i :: 0 <= i < |ticks| ==> ticks[i] >= 0
    ensures elapsed >= windowMs ==> elapsed + SessionLifetime.Sum(ticks) >= windowMs
    ensures elapsed < windowMs && elapsed + SessionLifetime.Sum(ticks) >= windowMs ==> SessionLifetime.Sum(ticks) > 0
  {
    SessionLifetime.SumNonNegative(ticks);
  }
}

module Hysteresis {
  import opened OptionType

  /** `allow_switch` on the recorded score: the verdict and the new record.
      The first call records the CURRENT score and allows; later calls allow
      iff the new score beats the record by the margin, which then becomes
      the record. */
  function Allow(last: Option<real>, margin: real, currentScore: real, newScore: real): (r: (bool, Option<real>))
    ensures last.None? ==> r == (true, Some(currentScore))
    ensures last.Some? ==> (r.0 <==> newScore >= last.value + margin)
    ensures last.Some? && r.0 ==> r.1 == Some(newScore)
    ensures last.Some? && !r.0 ==> r.1 == last
    ensures r.1.Some?
    ensures margin >= 0.0 && last.Some? ==> r.1.value >= last.value
  {
    if last.None? then (true, Some(currentScore))
    else if newScore >= last.value + margin then (true, Some(newScore))
    else (false, last)
  }

  /** A run of (current, new) score pairs: the final record and the new
      scores of the allowed switches after the first call. */
  function Run(last: Option<real>, margin: real, calls: seq<(real, real)>): (Option<real>, seq<real>)
    decreases |calls|
  {
    if calls == [] then (last, [])
    else
      var (ok, next) := Allow(last, margin, calls[0].0, calls[0].1);
      var (fin, rest) := Run(next, margin, calls[1..]);
      (fin, (if ok && last.Some? then [calls[0].1] else []) + rest)
  }

  /** With a non-negative margin, the switches allowed after initialisation
      carry non-decreasing scores, each at least a margin above the record
      before it, and the record never goes down. */
  lemma {:induction false} AcceptedScoresIncrease(last: real, margin: real, calls: seq<(real, real)>)
    requires margin >= 0.0
    ensures var (fin, accepted) := Run(Some(last), margin, calls);
            fin.Some? && fin.value >= last
            && (forall i :: 0 <= i < |accepted| ==> accepted[i] >= last + margin)
            && (forall i, j :: 0 <= i < j < |accepted| ==> accepted[i] + margin <= accepted[j])
            && (accepted == [] ==> fin == Some(last))
            && (accepted != [] ==> fin.value == accepted[|accepted| - 1])
    decreases |calls|
  {
    if calls != [] {
      var (ok, next) := Allow(Some(last), margin, calls[0].0, calls[0].1);
      AcceptedScoresIncrease(next.value, margin, calls[1..]);
      var (fin, rest) := Run(next, margin, calls[1..]);
      assert Run(Some(last), margin, calls) == (fin, (if ok then [calls[0].1] else []) + rest);
    }
  }

  class Gate {
    const margin: real
    var lastScore: Option<real>

    constructor (margin: real)
      ensures this.margin == margin && lastScore.None?
    {
      this.margin := margin;
      lastScore := None;
    }

    /** `Hysteresis()` with its default margin of 5.0. */
    constructor Default()
      ensures margin == 5.0 && lastScore.None?
    {
      margin := 5.0;
      lastScore := None;
    }

    method AllowSwitch(currentScore: real, newScore: real) returns (ok: bool)
      modifies this
      ensures (ok, lastScore) == Allow(old(lastScore), margin, currentScore, newScore)
    {
      if lastScore.None? {
        lastScore := Some(currentScore);
        return true;
      }
      if newScore >= lastScore.value + margin {
        lastScore := Some(newScore);
        return true;
      }
      ok := false;
    }
  }
}

module HysteresisDecay {

  function Max(a: real, b: real): real
  {
    if a >= b then a else b
  }

  /** One `tick`. */
  function Decayed(margin: real, decayRate: real, minMargin: real): (m: real)
    ensures m >= minMargin
    ensures decayRate >= 0.0 && margin >= minMargin ==> m <= margin
    ensures m == minMargin || m == margin - decayRate
  {
    Max(minMargin, margin - decayRate)
  }

  /** `k` ticks. */
  function DecayedTimes(margin: real, decayRate: real, minMargin: real, k: nat): real
    decreases k
  {
    if k == 0 then margin else Decayed(DecayedTimes(margin, decayRate, minMargin, k - 1), decayRate, minMargin)
  }

  /** After `k >= 1` ticks with a non-negative rate the margin is the initial
      one less `k` decays, floored at the minimum; it never rises, and once
      at the floor it stays there. */
  lemma {:induction false} DecayClosedForm(margin: real, decayRate: real, minMargin: real, k: nat)
    requires decayRate >= 0.0 && k >= 1
    ensures DecayedTimes(margin, decayRate, minMargin, k) == Max(minMargin, margin - k as real * decayRate)
    decreases k
  {
    if k == 1 {
      ScaleStep(1, decayRate);
      assert DecayedTimes(margin, decayRate, minMargin, 0) == margin;
    } else {
      DecayClosedForm(margin, decayRate, minMargin, k - 1);
      var prev := margin - (k - 1) as real * decayRate;
      var now := margin - k as real * decayRate;
      ScaleStep(k, decayRate);
      assert now == prev - decayRate;
      FloorTwice(minMargin, prev, decayRate);
      assert DecayedTimes(margin, decayRate, minMargin, k)
          == Decayed(Max(minMargin, prev), decayRate, minMargin);
    }
  }

  lemma ScaleStep(k: nat, r: real)
    requires k >= 1
    ensures k as real * r == (k - 1) as real * r + r
  {
  }

  /** Decaying a floored margin is decaying the margin, then flooring. */
  lemma FloorTwice(minMargin: real, m: real, decayRate: real)
    requires decayRate >= 0.0
    ensures Max(minMargin, Max(minMargin, m) - decayRate) == Max(minMargin, m - decayRate)
  {
  }

  lemma {:induction false} DecayNeverRises(margin: real, decayRate: real, minMargin: real, k: nat)
    requires decayRate >= 0.0 && margin >= minMargin
    ensures minMargin <= DecayedTimes(margin, decayRate, minMargin, k) <= margin
    decreases k
  {
    if k > 0 {
      DecayNeverRises(margin, decayRate, minMargin, k - 1);
    }
  }

  class Decay {
    const decayRate: real
    const minMargin: real
    var margin: real

    constructor (initialMargin: real, decayRate: real, minMargin: real)
      ensures margin == initialMargin && this.decayRate == decayRate && this.minMargin == minMargin
    {
      margin := initialMargin;
      this.decayRate := decayRate;
      this.minMargin := minMargin;
    }

    /** `HysteresisDecay()` with its defaults: margin 5.0, decaying by 0.1
        per tick down to 1.0. */
    constructor Default()
      ensures margin == 5.0 && decayRate == 0.1 && minMargin == 1.0
    {
      margin := 5.0;
      decayRate := 0.1;
      minMargin := 1.0;
    }

    method Tick()
      modifies this
      ensures margin == Decayed(old(margin), decayRate, minMargin)
    {
      margin := Max(minMargin, margin - decayRate);
    }

    /** `get_margin`, which reads only (its rounding is not modelled). */
    function GetMargin(): real
      reads this
    {
      margin
    }
  }
}
