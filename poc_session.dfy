// poc/session.py: the proof-of-concept session that keeps one active
// transport out of a fixed list, switches away from a failing one under a
// per-minute switch limit, and degrades when no packet gets through.
//
// The transports are the list the session was given, each with its name
// and its current aliveness, which whoever shares a transport object with
// the session may change (`SetAlive`); the active transport is its position
// in that list.  What a send returns and the clock are parameters.  The JSON-lines
// log is the sequence of entries the session emits (their extra fields are
// not kept, apart from those of a state change).
module PocSession {
  import opened OptionType

  datatype PocState = Birth | Attached | Volatile | Degraded | Recovering | Terminated

  datatype SwitchReason = Loss | Latency | PolicyReason

  function ReasonValue(r: SwitchReason): string
  {
    match r
    case Loss => "LOSS"
    case Latency => "LATENCY"
    case PolicyReason => "POLICY"
  }

  datatype Transport = Transport(name: string, alive: bool)

  /** poc/policy.py. */
  datatype PocPolicy = PocPolicy(maxConsecutiveDrops: int, degradeAfterMs: int, maxSwitchesPerMin: int)

  function DefaultPocPolicy(): (p: PocPolicy)
    ensures p.maxConsecutiveDrops == 3 && p.degradeAfterMs == 1500 && p.maxSwitchesPerMin == 10
  {
    PocPolicy(3, 1500, 10)
  }

  datatype LogEntry =
    | StateChangeLog(prev: PocState, next: PocState, reason: string)
    | Emitted(kind: string)

  /** Every field of the session, as one value. */
  datatype PocView = PocView(
    transports: seq<Transport>,
    policy: PocPolicy,
    state: PocState,
    active: Option<nat>,
    drops: int,
    lastGoodMs: int,
    switchTimes: seq<int>,
    log: seq<LogEntry>)

  /** The active position, when there is one, is a position of the list. */
  predicate ActiveInRange(v: PocView)
  {
    v.active.Some? ==> v.active.value < |v.transports|
  }

  // ---------------------------------------------------------------
  // The operations on the session's fields.
  // ---------------------------------------------------------------

  /** `set_state`: only a real change of state is applied and logged. */
  function SetState(v: PocView, s: PocState, reason: string): (w: PocView)
    ensures v.state != s <==> |w.log| == |v.log| + 1
    ensures w.state == s
    ensures w.transports == v.transports && w.active == v.active && w.drops == v.drops
    ensures w.switchTimes == v.switchTimes && w.lastGoodMs == v.lastGoodMs && w.policy == v.policy
  {
    if v.state != s then v.(state := s, log := v.log + [StateChangeLog(v.state, s, reason)]) else v
  }

  /** The switch instants at or after `cutoff`, in order. */
  function KeepSince(times: seq<int>, cutoff: int): (r: seq<int>)
    ensures |r| <= |times|
    ensures forall t :: t in r <==> t in times && t >= cutoff
    decreases |times|
  {
    if times == [] then []
    else (if times[0] >= cutoff then [times[0]] else []) + KeepSince(times[1..], cutoff)
  }

  /** `_switch_rate_ok`: forgets the switches older than a minute and allows
      another one iff fewer than the limit remain. */
  function SwitchRateOk(v: PocView, nowMs: int): (PocView, bool)
  {
    var kept := KeepSince(v.switchTimes, nowMs - 60_000);
    (v.(switchTimes := kept), |kept| < v.policy.maxSwitchesPerMin)
  }

  /** The first alive position that is not `skip`. */
  function FirstAliveExcept(ts: seq<Transport>, skip: Option<nat>, from: nat): (r: Option<nat>)
    requires from <= |ts|
    ensures r.Some? ==> from <= r.value < |ts| && ts[r.value].alive && Some(r.value) != skip
    ensures r.Some? ==> forall j :: from <= j < r.value ==> !ts[j].alive || Some(j) == skip
    ensures r.None? ==> forall j :: from <= j < |ts| ==> !ts[j].alive || Some(j) == skip
    decreases |ts| - from
  {
    if from == |ts| then None
    else if ts[from].alive && Some(from) != skip then Some(from)
    else FirstAliveExcept(ts, skip, from + 1)
  }

  /** `choose_next_transport`. */
  function ChooseNext(v: PocView): Option<nat>
  {
    FirstAliveExcept(v.transports, v.active, 0)
  }

  /** `attach_initial`. */
  function AttachInitial(v: PocView, nowMs: int): PocView
  {
    var first := FirstAliveExcept(v.transports, None, 0);
    if first.None? then SetState(v, Terminated, "no_transports_available")
    else
      var w := v.(active := first, drops := 0, lastGoodMs := nowMs);
      var x := SetState(w, Attached, "attached_to_" + v.transports[first.value].name);
      x.(log := x.log + [Emitted("TransportAttached")])
  }

  /** `switch_transport`. */
  function SwitchTransport(v: PocView, reason: SwitchReason, nowMs: int): PocView
  {
    var (v1, ok) := SwitchRateOk(v, nowMs);
    if !ok then
      var w := SetState(v1, Degraded, "switch_rate_limited");
      w.(log := w.log + [Emitted("TransportSwitchDenied")])
    else
      var v2 := SetState(v1, Recovering, ReasonValue(reason));
      var next := ChooseNext(v2);
      if next.None? then
        var w := SetState(v2, Terminated, "no_candidate_transports");
        w.(log := w.log + [Emitted("TransportSwitchFailed")])
      else
        var v3 := v2.(active := next, drops := 0, lastGoodMs := nowMs, switchTimes := v2.switchTimes + [nowMs],
                      log := v2.log + [Emitted("TransportSwitch")]);
        SetState(v3, Attached, "reattached_to_" + v.transports[next.value].name)
  }

  /** The closing timeout check of `tick_send`. */
  function DegradeOnTimeout(v: PocView, nowMs: int): PocView
  {
    if nowMs - v.lastGoodMs > v.policy.degradeAfterMs && v.state == Attached then
      SetState(v, Degraded, "no_good_packets_timeout")
    else v
  }

  /** `tick_send`, given whether the send was delivered. */
  function TickSend(v: PocView, delivered: bool, nowMs: int): PocView
    requires ActiveInRange(v)
  {
    if v.active.None? then v
    else if delivered then
      var w := v.(drops := 0, lastGoodMs := nowMs, log := v.log + [Emitted("PacketDelivered")]);
      var x := if w.state == Volatile || w.state == Degraded then SetState(w, Attached, "stabilized") else w;
      DegradeOnTimeout(x, nowMs)
    else
      var w := v.(drops := v.drops + 1, log := v.log + [Emitted("PacketDropped")]);
      if !v.transports[v.active.value].alive then
        SwitchTransport(SetState(w, Volatile, "transport_dead"), Loss, nowMs)
      else if w.drops >= w.policy.maxConsecutiveDrops then
        SwitchTransport(SetState(w, Volatile, "loss_threshold_exceeded"), Loss, nowMs)
      else DegradeOnTimeout(w, nowMs)
  }

  // ---------------------------------------------------------------
  // What the operations guarantee.
  // ---------------------------------------------------------------

  /** The rate check keeps exactly the switches of the last minute, and
      allows a switch iff fewer than the limit remain. */
  lemma SwitchRateOkFacts(v: PocView, nowMs: int)
    ensures var (w, ok) := SwitchRateOk(v, nowMs);
            (forall t :: t in w.switchTimes <==> t in v.switchTimes && t >= nowMs - 60_000)
            && (ok <==> |w.switchTimes| < v.policy.maxSwitchesPerMin)
            && w.(switchTimes := v.switchTimes) == v
  {
  }

  /** The next transport is alive and not the active one, and every
      transport before it is dead or active; there is none exactly when no
      other transport is alive. */
  lemma ChooseNextFacts(v: PocView)
    ensures var r := ChooseNext(v);
            (r.Some? ==> r.value < |v.transports| && v.transports[r.value].alive && r != v.active
                         && forall j :: 0 <= j < r.value ==> !v.transports[j].alive || Some(j) == v.active)
            && (r.None? <==> forall j :: 0 <= j < |v.transports| ==> !v.transports[j].alive || Some(j) == v.active)
  {
  }

  /** Without an alive transport the session terminates; otherwise it is
      attached to the first alive one with no drops. */
  lemma AttachInitialFacts(v: PocView, nowMs: int)
    ensures var w := AttachInitial(v, nowMs);
            ActiveInRange(w)
            && ((forall j :: 0 <= j < |v.transports| ==> !v.transports[j].alive) ==>
                  w.state == Terminated && w.active == v.active)
            && ((exists j :: 0 <= j < |v.transports| && v.transports[j].alive) ==>
                  w.state == Attached && w.drops == 0 && w.lastGoodMs == nowMs && w.active.Some?
                  && v.transports[w.active.value].alive
                  && forall j :: 0 <= j < w.active.value ==> !v.transports[j].alive)
    requires ActiveInRange(v)
  {
  }

  /** A rate-limited switch degrades and keeps the active transport; with no
      candidate the session terminates; otherwise the candidate becomes
      active with no drops, the switch is recorded, and the session ends
      attached.  A successful switch never takes the last minute's count
      above the limit. */
  lemma SwitchTransportFacts(v: PocView, reason: SwitchReason, nowMs: int)
    requires ActiveInRange(v)
    ensures var w := SwitchTransport(v, reason, nowMs);
            var (v1, ok) := SwitchRateOk(v, nowMs);
            ActiveInRange(w) && w.transports == v.transports
            && (!ok ==> w.state == Degraded && w.active == v.active && w.switchTimes == v1.switchTimes)
            && (ok && ChooseNext(v).None? ==> w.state == Terminated && w.active == v.active)
            && (ok && ChooseNext(v).Some? ==>
                  w.state == Attached && w.active == ChooseNext(v) && w.drops == 0 && w.lastGoodMs == nowMs
                  && w.switchTimes == v1.switchTimes + [nowMs]
                  && |w.switchTimes| <= v.policy.maxSwitchesPerMin)
  {
    var (v1, ok) := SwitchRateOk(v, nowMs);
    if ok {
      var v2 := SetState(v1, Recovering, ReasonValue(reason));
      assert ChooseNext(v2) == ChooseNext(v);
    }
  }

  /** A delivery clears the drop count and stabilises a volatile or degraded
      session (unless a negative timeout degrades it again); a drop counts, and a switch follows exactly when the active
      transport is dead or the drops reach the limit.  The timeout only ever
      degrades an attached session. */
  lemma TickSendFacts(v: PocView, delivered: bool, nowMs: int)
    requires ActiveInRange(v) && v.active.Some?
    ensures var w := TickSend(v, delivered, nowMs);
            ActiveInRange(w)
            && (delivered ==> w.drops == 0 && w.active == v.active
                              && ((v.state == Volatile || v.state == Degraded) && v.policy.degradeAfterMs >= 0
                                  ==> w.state == Attached))
            && (!delivered && v.transports[v.active.value].alive && v.drops + 1 < v.policy.maxConsecutiveDrops ==>
                  w.drops == v.drops + 1 && w.active == v.active
                  && (w.state != v.state ==> v.state == Attached && w.state == Degraded))
            && (!delivered && (!v.transports[v.active.value].alive || v.drops + 1 >= v.policy.maxConsecutiveDrops) ==>
                  w.state in {Degraded, Terminated, Attached})
  {
    if !delivered {
      var w := v.(drops := v.drops + 1, log := v.log + [Emitted("PacketDropped")]);
      if !v.transports[v.active.value].alive {
        SwitchTransportFacts(SetState(w, Volatile, "transport_dead"), Loss, nowMs);
      } else if w.drops >= w.policy.maxConsecutiveDrops {
        SwitchTransportFacts(SetState(w, Volatile, "loss_threshold_exceeded"), Loss, nowMs);
      }
    }
  }

  /** A tick without an active transport does nothing at all. */
  lemma TickWithoutTransport(v: PocView, delivered: bool, nowMs: int)
    requires v.active.None?
    ensures TickSend(v, delivered, nowMs) == v
  {
  }

  // ---------------------------------------------------------------
  // The session object.
  // ---------------------------------------------------------------

  class Session {
    const sessionId: string
    var transports: seq<Transport>
    const policy: PocPolicy
    var state: PocState
    var active: Option<nat>
    var drops: int
    var lastGoodMs: int
    var switchTimes: seq<int>
    var log: seq<LogEntry>

    function View(): PocView
      reads this
    {
      PocView(transports, policy, state, active, drops, lastGoodMs, switchTimes, log)
    }

    ghost predicate Valid()
      reads this
    {
      ActiveInRange(View())
    }

    constructor (sessionId: string, transports: seq<Transport>, policy: PocPolicy, nowMs: int)
      ensures Valid() && this.sessionId == sessionId
      ensures View() == PocView(transports, policy, Birth, None, 0, nowMs, [], [])
    {
      this.sessionId := sessionId;
      this.transports := transports;
      this.policy := policy;
      state := Birth;
      active := None;
      drops := 0;
      lastGoodMs := nowMs;
      switchTimes := [];
      log := [];
    }

    /** Marking the shared transport at position i alive or dead:
        only that transport's aliveness changes. */
    method SetAlive(i: nat, alive: bool)
      requires Valid() && i < |transports|
      modifies this
      ensures Valid()
      ensures View() == old(View()).(transports := old(transports)[i := old(transports)[i].(alive := alive)])
    {
      transports := transports[i := transports[i].(alive := alive)];
    }

    method SetStateTo(s: PocState, reason: string)
      modifies this
      ensures View() == SetState(old(View()), s, reason)
    {
      if state != s {
        log := log + [StateChangeLog(state, s, reason)];
        state := s;
      }
    }

    method SwitchRateOkNow(nowMs: int) returns (ok: bool)
      modifies this
      ensures (View(), ok) == SwitchRateOk(old(View()), nowMs)
    {
      switchTimes := KeepSince(switchTimes, nowMs - 60_000);
      ok := |switchTimes| < policy.maxSwitchesPerMin;
    }

    method AttachInitialNow(nowMs: int)
      requires Valid()
      modifies this
      ensures Valid() && View() == AttachInitial(old(View()), nowMs)
    {
      AttachInitialFacts(View(), nowMs);
      var first := FirstAliveExcept(transports, None, 0);
      if first.None? {
        SetStateTo(Terminated, "no_transports_available");
        return;
      }
      active := first;
      drops := 0;
      lastGoodMs := nowMs;
      SetStateTo(Attached, "attached_to_" + transports[first.value].name);
      log := log + [Emitted("TransportAttached")];
    }

    method SwitchTransportNow(reason: SwitchReason, nowMs: int)
      requires Valid()
      modifies this
      ensures Valid() && View() == SwitchTransport(old(View()), reason, nowMs)
    {
      SwitchTransportFacts(View(), reason, nowMs);
      var ok := SwitchRateOkNow(nowMs);
      if !ok {
        SetStateTo(Degraded, "switch_rate_limited");
        log := log + [Emitted("TransportSwitchDenied")];
        return;
      }
      SetStateTo(Recovering, ReasonValue(reason));
      var next := FirstAliveExcept(transports, active, 0);
      if next.None? {
        SetStateTo(Terminated, "no_candidate_transports");
        log := log + [Emitted("TransportSwitchFailed")];
        return;
      }
      active := next;
      drops := 0;
      lastGoodMs := nowMs;
      switchTimes := switchTimes + [nowMs];
      log := log + [Emitted("TransportSwitch")];
      SetStateTo(Attached, "reattached_to_" + transports[next.value].name);
    }

    method TickSendNow(delivered: bool, nowMs: int)
      requires Valid()
      modifies this
      ensures Valid() && View() == TickSend(old(View()), delivered, nowMs)
    {
      TickKeepsActiveInRange(View(), delivered, nowMs);
      if active.None? {
        return;
      }
      if delivered {
        drops := 0;
        lastGoodMs := nowMs;
        log := log + [Emitted("PacketDelivered")];
        if state == Volatile || state == Degraded {
          SetStateTo(Attached, "stabilized");
        }
      } else {
        drops := drops + 1;
        log := log + [Emitted("PacketDropped")];
        if !transports[active.value].alive {
          SetStateTo(Volatile, "transport_dead");
          SwitchTransportNow(Loss, nowMs);
          return;
        }
        if drops >= policy.maxConsecutiveDrops {
          SetStateTo(Volatile, "loss_threshold_exceeded");
          SwitchTransportNow(Loss, nowMs);
          return;
        }
      }
      if nowMs - lastGoodMs > policy.degradeAfterMs && state == Attached {
        SetStateTo(Degraded, "no_good_packets_timeout");
      }
    }
  }

  /** Every tick keeps the active position inside the list. */
  lemma TickKeepsActiveInRange(v: PocView, delivered: bool, nowMs: int)
    requires ActiveInRange(v)
    ensures ActiveInRange(TickSend(v, delivered, nowMs))
  {
    if v.active.Some? {
      TickSendFacts(v, delivered, nowMs);
    }
  }

  /** Marking the active transport dead makes the next failed send take the
      `transport_dead` branch: the session switches to the other transport. */
  method DeadTransportScenario() returns (active: Option<nat>, state: PocState, sawDeath: bool)
    ensures active == Some(1) && state == Attached && sawDeath
  {
    var s := new Session("s", [Transport("a", true), Transport("b", true)], DefaultPocPolicy(), 0);
    s.AttachInitialNow(0);
    assert s.active == Some(0) && s.state == Attached;
    s.SetAlive(0, false);
    var before := |s.log|;
    s.TickSendNow(false, 10);
    assert s.log[before + 1] == StateChangeLog(Attached, Volatile, "transport_dead");
    active, state := s.active, s.state;
    sawDeath := StateChangeLog(Attached, Volatile, "transport_dead") in s.log;
  }
}
