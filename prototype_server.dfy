// prototype/server.py: the prototype server's session table and the
// decision it takes for each authenticated datagram.  A message passes only
// when its counter is above the last one bound for its session; a passing
// message rebinds the session to the path and address it arrived on.
//
// Sockets, threads, the lock, HMAC authentication, reply encoding and the
// log lines are not modelled; the decoded fields of a message and the clock
// are parameters.  The records the source keeps in its dictionary are
// values of a map here.
module PrototypeServer {
  import opened OptionType

  datatype Addr = Addr(host: string, port: int)

  datatype PeerState = PeerState(
    sessionId: string,
    lastCounter: int,
    activePath: string,
    activeAddr: Option<Addr>,
    lastSeenMs: int)

  /** `SessionState(session_id=..., last_seen_ms=now)` with its defaults. */
  function Initial(sessionId: string, nowMs: int): (s: PeerState)
    ensures s.sessionId == sessionId && s.lastCounter == -1 && s.activePath == "unknown"
    ensures s.activeAddr.None? && s.lastSeenMs == nowMs
  {
    PeerState(sessionId, -1, "unknown", None, nowMs)
  }

  function StateOf(m: map<string, PeerState>, sessionId: string, nowMs: int): PeerState
  {
    if sessionId in m then m[sessionId] else Initial(sessionId, nowMs)
  }

  /** `validate_counter`: strictly above the last bound counter. */
  predicate CounterFresh(s: PeerState, counter: int)
  {
    counter > s.lastCounter
  }

  /** `bind_active`. */
  function Bound(s: PeerState, path: string, addr: Addr, counter: int, nowMs: int): PeerState
  {
    s.(activePath := path, activeAddr := Some(addr), lastCounter := counter, lastSeenMs := nowMs)
  }

  /** The reply to a message: an acknowledgement naming the message type and
      the now active path, or a rejection with its reason. */
  datatype Reply = Ack(messageType: string, activePath: string) | Reject(reason: string)

  /** A switch is a move from a known path to a different one. */
  predicate Switches(s: PeerState, path: string)
  {
    s.activePath != "unknown" && s.activePath != path
  }

  /** The counter and type of one decoded message. */
  datatype Message = Message(counter: int, messageType: string)

  /** The body of the receive loop for one message of a known session: the
      record afterwards, the reply, and whether the binding switched.  An
      unknown type is rejected only after the binding has moved. */
  function Receive(s: PeerState, m: Message, path: string, addr: Addr, nowMs: int): (PeerState, Reply, bool)
  {
    if !CounterFresh(s, m.counter) then (s, Reject("REPLAY_OR_STALE"), false)
    else
      var t := Bound(s, path, addr, m.counter, nowMs);
      var reply := if m.messageType in {"HELLO", "DATA", "REATTACH"} then Ack(m.messageType, path)
                   else Reject("UNKNOWN_TYPE");
      (t, reply, Switches(s, path))
  }

  /** A replayed or stale counter is refused before the binding is touched;
      any other message binds the path, the address and its counter, and
      reports a switch exactly when it moves a known path. */
  lemma ReceiveFacts(s: PeerState, m: Message, path: string, addr: Addr, nowMs: int)
    ensures var (t, reply, switched) := Receive(s, m, path, addr, nowMs);
            (m.counter <= s.lastCounter ==> t == s && reply == Reject("REPLAY_OR_STALE") && !switched)
            && (m.counter > s.lastCounter ==>
                  t.lastCounter == m.counter && t.activePath == path && t.activeAddr == Some(addr)
                  && t.sessionId == s.sessionId
                  && (switched <==> s.activePath != "unknown" && s.activePath != path)
                  && (reply.Ack? <==> m.messageType == "HELLO" || m.messageType == "DATA" || m.messageType == "REATTACH"))
  {
  }

  /** One arriving message: its content, path, source address and instant. */
  datatype Arrival = Arrival(m: Message, path: string, addr: Addr, nowMs: int)

  /** The record after a run of arrivals for one session and the counters
      that passed the gate, in order. */
  function Run(s: PeerState, xs: seq<Arrival>): (PeerState, seq<int>)
    decreases |xs|
  {
    if xs == [] then (s, [])
    else
      var x := xs[0];
      var (s1, _, _) := Receive(s, x.m, x.path, x.addr, x.nowMs);
      var passed := if CounterFresh(s, x.m.counter) then [x.m.counter] else [];
      var (t, rest) := Run(s1, xs[1..]);
      (t, passed + rest)
  }

  /** The counters that pass the gate strictly increase, all exceed the
      starting counter, and the last one is the record's counter. */
  lemma {:induction false} RunCountersIncrease(s: PeerState, xs: seq<Arrival>)
    ensures var (t, passed) := Run(s, xs);
            (forall i, j :: 0 <= i < j < |passed| ==> passed[i] < passed[j])
            && (forall i :: 0 <= i < |passed| ==> s.lastCounter < passed[i] <= t.lastCounter)
            && (passed == [] ==> t == s)
            && (passed != [] ==> t.lastCounter == passed[|passed| - 1])
            && t.sessionId == s.sessionId
    decreases |xs|
  {
    if xs != [] {
      var x := xs[0];
      var (s1, _, _) := Receive(s, x.m, x.path, x.addr, x.nowMs);
      RunCountersIncrease(s1, xs[1..]);
      var passed := if CounterFresh(s, x.m.counter) then [x.m.counter] else [];
      var (t, rest) := Run(s1, xs[1..]);
      assert Run(s, xs) == (t, passed + rest);
      assert passed != [] ==> s1.lastCounter == x.m.counter && s.lastCounter < x.m.counter;
      assert passed == [] ==> s1 == s;
    }
  }

  class SessionTable {
    var sessions: map<string, PeerState>

    ghost predicate Valid()
      reads this
    {
      forall k :: k in sessions ==> sessions[k].sessionId == k
    }

    constructor ()
      ensures Valid() && sessions == map[]
    {
      sessions := map[];
    }

    /** Idempotent per session id: the existing record, or a new one. */
    method GetOrCreate(sessionId: string, nowMs: int) returns (s: PeerState)
      requires Valid()
      modifies this
      ensures Valid()
      ensures sessionId in old(sessions) ==> sessions == old(sessions)
      ensures sessionId !in old(sessions) ==> sessions == old(sessions)[sessionId := Initial(sessionId, nowMs)]
      ensures s == StateOf(old(sessions), sessionId, nowMs) && sessions[sessionId] == s
    {
      if sessionId !in sessions {
        sessions := sessions[sessionId := Initial(sessionId, nowMs)];
      }
      s := sessions[sessionId];
    }

    /** `bind_active` on the record of a session the caller obtained from
        `GetOrCreate`. */
    method BindActive(sessionId: string, path: string, addr: Addr, counter: int, nowMs: int)
      requires Valid() && sessionId in sessions
      modifies this
      ensures Valid()
      ensures sessions == old(sessions)[sessionId := Bound(old(sessions)[sessionId], path, addr, counter, nowMs)]
    {
      sessions := sessions[sessionId := Bound(sessions[sessionId], path, addr, counter, nowMs)];
    }

    /** One iteration of the server's receive loop for an authenticated
        message on `path`. */
    method Handle(sessionId: string, m: Message, path: string, addr: Addr, nowMs: int)
      returns (reply: Reply, switched: bool)
      requires Valid()
      modifies this
      ensures Valid()
      ensures var s := StateOf(old(sessions), sessionId, nowMs);
              var (t, r, sw) := Receive(s, m, path, addr, nowMs);
              sessions == old(sessions)[sessionId := t] && reply == r && switched == sw
    {
      var s := GetOrCreate(sessionId, nowMs);
      if !(m.counter > s.lastCounter) {
        return Reject("REPLAY_OR_STALE"), false;
      }
      switched := s.activePath != "unknown" && s.activePath != path;
      BindActive(sessionId, path, addr, m.counter, nowMs);
      if m.messageType == "HELLO" {
        reply := Ack("HELLO", path);
      } else if m.messageType == "DATA" {
        reply := Ack("DATA", path);
      } else if m.messageType == "REATTACH" {
        reply := Ack("REATTACH", path);
      } else {
        reply := Reject("UNKNOWN_TYPE");
      }
    }
  }
}
