// session_manager.py: the early-alpha session manager.  A session's
// identity (its id and continuity key) is made once and never changes,
// while transports are attached, degraded and detached around it; every
// operation appends one entry to the session's trace.
//
// The random session id and continuity key, and the clock, are parameters.
module AlphaSessions {
  import opened OptionType

  datatype AlphaState = New | Active | DegradedState | Detached

  /** A value in a trace entry's data. */
  datatype TraceValue = TStr(s: string) | TBool(b: bool) | TNone

  datatype TraceEntry = TraceEntry(t: real, event: string, data: map<string, TraceValue>)

  /** The fields of a session, as one value. */
  datatype SessionView = SessionView(
    sessionId: string,
    state: AlphaState,
    createdAt: real,
    lastEventAt: real,
    continuityKey: string,
    transportLabel: Option<string>,
    trace: seq<TraceEntry>)

  function LabelValue(l: Option<string>): TraceValue
  {
    if l.Some? then TStr(l.value) else TNone
  }

  /** `Session.log`. */
  function Logged(v: SessionView, event: string, data: map<string, TraceValue>, now: real): SessionView
  {
    v.(lastEventAt := now, trace := v.trace + [TraceEntry(now, event, data)])
  }

  /** A new session as `create_session` leaves it. */
  function Created(sessionId: string, continuityKey: string, now: real): SessionView
  {
    var v := SessionView(sessionId, New, now, now, continuityKey, None, []);
    Logged(v, "SESSION_CREATED", map["session_id" := TStr(sessionId), "continuity_key" := TStr(continuityKey)], now)
  }

  function Attached(v: SessionView, newLabel: string, attachmentId: string, now: real): SessionView
  {
    Logged(v.(transportLabel := Some(newLabel), state := Active), "TRANSPORT_ATTACHED",
           map["transport" := TStr(newLabel), "attachment_id" := TStr(attachmentId), "session_id" := TStr(v.sessionId)],
           now)
  }

  function Degraded(v: SessionView, reason: string, now: real): SessionView
  {
    Logged(v.(state := DegradedState), "TRANSPORT_DEGRADED",
           map["reason" := TStr(reason), "transport" := LabelValue(v.transportLabel)], now)
  }

  function DetachedView(v: SessionView, reason: string, now: real): SessionView
  {
    Logged(v.(transportLabel := None, state := Detached), "TRANSPORT_DETACHED",
           map["reason" := TStr(reason), "previous_transport" := LabelValue(v.transportLabel)], now)
  }

  function Verified(v: SessionView, expectedKey: string, now: real): (SessionView, bool)
  {
    var ok := v.continuityKey == expectedKey;
    (Logged(v, "CONTINUITY_VERIFIED", map["ok" := TBool(ok)], now), ok)
  }

  /** One call on the manager about one session. */
  datatype Op =
    | AttachOp(newLabel: string, attachmentId: string, now: real)
    | DegradeOp(reason: string, now: real)
    | DetachOp(reason: string, now: real)
    | VerifyOp(expectedKey: string, now: real)

  function Step(v: SessionView, op: Op): SessionView
  {
    match op
    case AttachOp(l, a, now) => Attached(v, l, a, now)
    case DegradeOp(r, now) => Degraded(v, r, now)
    case DetachOp(r, now) => DetachedView(v, r, now)
    case VerifyOp(k, now) => Verified(v, k, now).0
  }

  function Run(v: SessionView, ops: seq<Op>): SessionView
    decreases |ops|
  {
    if ops == [] then v else Run(Step(v, ops[0]), ops[1..])
  }

  /** Identity is independent of transport: after any run of operations the
      session id, the continuity key and the creation time are the ones it
      was created with, so verification against a key gives the same answer
      as at creation; the trace keeps what it had and gains exactly one
      entry per operation, so a created session's trace always starts with
      SESSION_CREATED. */
  lemma {:induction false} RunKeepsIdentity(v: SessionView, ops: seq<Op>, key: string, now: real)
    ensures var w := Run(v, ops);
            w.sessionId == v.sessionId && w.continuityKey == v.continuityKey && w.createdAt == v.createdAt
            && Verified(w, key, now).1 == (v.continuityKey == key)
            && |w.trace| == |v.trace| + |ops| && w.trace[..|v.trace|] == v.trace
    decreases |ops|
  {
    if ops != [] {
      var v1 := Step(v, ops[0]);
      RunKeepsIdentity(v1, ops[1..], key, now);
      assert v1.trace[..|v.trace|] == v.trace;
      var w := Run(v1, ops[1..]);
      assert w.trace[..|v.trace|] == w.trace[..|v1.trace|][..|v.trace|];
    }
  }

  /** Hence a created session's trace starts with its SESSION_CREATED entry
      whatever happens to its transports. */
  lemma CreatedTraceStart(sessionId: string, key: string, created: real, ops: seq<Op>)
    ensures var w := Run(Created(sessionId, key, created), ops);
            |w.trace| == 1 + |ops| && w.trace[0].event == "SESSION_CREATED" && w.trace[0].t == created
  {
    var v := Created(sessionId, key, created);
    RunKeepsIdentity(v, ops, key, created);
    var w := Run(v, ops);
    assert w.trace[0] == w.trace[..|v.trace|][0];
  }

  /** Attaching sets the label and ACTIVE; degrading keeps the label;
      detaching clears it and logs the label it had. */
  lemma TransportOperations(v: SessionView, newLabel: string, attachmentId: string, reason: string, now: real)
    ensures var a := Attached(v, newLabel, attachmentId, now);
            a.transportLabel == Some(newLabel) && a.state == Active && |a.trace| == |v.trace| + 1
    ensures var d := Degraded(v, reason, now);
            d.transportLabel == v.transportLabel && d.state == DegradedState
    ensures var x := DetachedView(v, reason, now);
            x.transportLabel.None? && x.state == Detached
            && x.trace[|x.trace| - 1].data["previous_transport"] == LabelValue(v.transportLabel)
  {
  }

  class Session {
    const sessionId: string
    var state: AlphaState
    const createdAt: real
    var lastEventAt: real
    const continuityKey: string
    var transportLabel: Option<string>
    var trace: seq<TraceEntry>

    function View(): SessionView
      reads this
    {
      SessionView(sessionId, state, createdAt, lastEventAt, continuityKey, transportLabel, trace)
    }

    /** `Session(session_id=...)`, its key and timestamps supplied. */
    constructor (sessionId: string, continuityKey: string, now: real)
      ensures View() == SessionView(sessionId, New, now, now, continuityKey, None, [])
    {
      this.sessionId := sessionId;
      state := New;
      createdAt := now;
      lastEventAt := now;
      this.continuityKey := continuityKey;
      transportLabel := None;
      trace := [];
    }

    method Log(event: string, data: map<string, TraceValue>, now: real)
      modifies this
      ensures View() == Logged(old(View()), event, data, now)
    {
      lastEventAt := now;
      trace := trace + [TraceEntry(now, event, data)];
    }
  }

  class Manager {
    var sessions: map<string, Session>

    constructor ()
      ensures sessions == map[]
    {
      sessions := map[];
    }

    /** Files a new session under the given id (the source draws it at
        random) and logs its creation. */
    method CreateSession(sessionId: string, continuityKey: string, now: real) returns (s: Session)
      modifies this
      ensures fresh(s) && sessions == old(sessions)[sessionId := s]
      ensures s.View() == Created(sessionId, continuityKey, now)
    {
      s := new Session(sessionId, continuityKey, now);
      s.Log("SESSION_CREATED", map["session_id" := TStr(sessionId), "continuity_key" := TStr(continuityKey)], now);
      sessions := sessions[sessionId := s];
    }

    /** `get`: the source raises KeyError for an unknown id. */
    function Get(sessionId: string): (r: Option<Session>)
      reads this
      ensures r.Some? <==> sessionId in sessions
      ensures r.Some? ==> r.value == sessions[sessionId]
    {
      if sessionId in sessions then Some(sessions[sessionId]) else None
    }

    method AttachTransport(s: Session, newLabel: string, attachmentId: string, now: real)
      modifies s
      ensures s.View() == Attached(old(s.View()), newLabel, attachmentId, now)
    {
      s.transportLabel := Some(newLabel);
      s.state := Active;
      s.Log("TRANSPORT_ATTACHED",
            map["transport" := TStr(newLabel), "attachment_id" := TStr(attachmentId), "session_id" := TStr(s.sessionId)],
            now);
    }

    method MarkDegraded(s: Session, reason: string, now: real)
      modifies s
      ensures s.View() == Degraded(old(s.View()), reason, now)
    {
      s.state := DegradedState;
      s.Log("TRANSPORT_DEGRADED", map["reason" := TStr(reason), "transport" := LabelValue(s.transportLabel)], now);
    }

    method DetachTransport(s: Session, reason: string, now: real)
      modifies s
      ensures s.View() == DetachedView(old(s.View()), reason, now)
    {
      var previous := s.transportLabel;
      s.transportLabel := None;
      s.state := Detached;
      s.Log("TRANSPORT_DETACHED", map["reason" := TStr(reason), "previous_transport" := LabelValue(previous)], now);
    }

    method ContinuityVerified(s: Session, expectedKey: string, now: real) returns (ok: bool)
      modifies s
      ensures ok <==> s.continuityKey == expectedKey
      ensures (s.View(), ok) == Verified(old(s.View()), expectedKey, now)
    {
      ok := s.continuityKey == expectedKey;
      s.Log("CONTINUITY_VERIFIED", map["ok" := TBool(ok)], now);
    }
  }
}
