// prototype/session_manager.py: the prototype's per-session counters.  Each
// session numbers what it sends (1, 2, 3, ...) and accepts only strictly
// increasing counters from its peer.  The records the source keeps in its
// dictionary are values of a map here.
module PrototypeSessions {

  datatype CounterState = CounterState(
    sessionId: string,
    txCounter: int,
    rxCounterMax: int,
    state: string,
    activePath: string)

  /** `SessionState(session_id=...)` with its defaults. */
  function Initial(sessionId: string): (s: CounterState)
    ensures s.sessionId == sessionId && s.txCounter == 0 && s.rxCounterMax == -1
    ensures s.state == "ATTACHED" && s.activePath == "udp:A"
  {
    CounterState(sessionId, 0, -1, "ATTACHED", "udp:A")
  }

  /** The record `get_or_create` yields for `sessionId`. */
  function StateOf(m: map<string, CounterState>, sessionId: string): CounterState
  {
    if sessionId in m then m[sessionId] else Initial(sessionId)
  }

  /** `accept_rx` on one record: the verdict and the record afterwards. */
  function AcceptStep(s: CounterState, counter: int): (CounterState, bool)
  {
    if counter <= s.rxCounterMax then (s, false) else (s.(rxCounterMax := counter), true)
  }

  /** One call on one session. */
  datatype Op = TxOp | RxOp(counter: int) | StateOp(newState: string) | PathOp(path: string)

  /** The record after one call, the counter it sent and the counter it
      accepted, if any. */
  function Step(s: CounterState, op: Op): (CounterState, seq<int>, seq<int>)
  {
    match op
    case TxOp => var n := s.txCounter + 1; (s.(txCounter := n), [n], [])
    case RxOp(c) => var (t, ok) := AcceptStep(s, c); (t, [], if ok then [c] else [])
    case StateOp(st) => (s.(state := st), [], [])
    case PathOp(p) => (s.(activePath := p), [], [])
  }

  /** The record after a run of calls, every counter sent and every counter
      accepted, in order. */
  function Run(s: CounterState, ops: seq<Op>): (CounterState, seq<int>, seq<int>)
    decreases |ops|
  {
    if ops == [] then (s, [], [])
    else
      var (s1, tx, rx) := Step(s, ops[0]);
      var (t, txs, rxs) := Run(s1, ops[1..]);
      (t, tx + txs, rx + rxs)
  }

  /** Over any run, the sent counters are the consecutive numbers after the
      starting one, and the session keeps its id. */
  lemma {:induction false} RunSent(s: CounterState, ops: seq<Op>)
    ensures var (t, txs, rxs) := Run(s, ops);
            t.txCounter == s.txCounter + |txs|
            && (forall i :: 0 <= i < |txs| ==> txs[i] == s.txCounter + i + 1)
            && t.sessionId == s.sessionId
    decreases |ops|
  {
    if ops != [] {
      var (s1, tx, rx) := Step(s, ops[0]);
      RunSent(s1, ops[1..]);
      var (t, txs, rxs) := Run(s1, ops[1..]);
      assert Run(s, ops) == (t, tx + txs, rx + rxs);
      assert tx != [] ==> tx == [s.txCounter + 1] && s1.txCounter == s.txCounter + 1;
      assert tx == [] ==> s1.txCounter == s.txCounter;
      forall i | 0 <= i < |tx + txs| ensures (tx + txs)[i] == s.txCounter + i + 1 {
        if i >= |tx| {
          assert (tx + txs)[i] == txs[i - |tx|];
        }
      }
    }
  }

  /** `rxs` strictly increases within `(lo, hi]` and ends at `hi`, or is
      empty with `hi == lo`. */
  predicate AcceptedBetween(lo: int, hi: int, rxs: seq<int>)
  {
    (forall i, j :: 0 <= i < j < |rxs| ==> rxs[i] < rxs[j])
    && (forall i :: 0 <= i < |rxs| ==> lo < rxs[i] <= hi)
    && (rxs == [] ==> hi == lo)
    && (rxs != [] ==> hi == rxs[|rxs| - 1])
  }

  /** One call accepts at most its own counter, which becomes the maximum. */
  lemma StepAccepted(s: CounterState, op: Op)
    ensures AcceptedBetween(s.rxCounterMax, Step(s, op).0.rxCounterMax, Step(s, op).2)
    ensures |Step(s, op).2| <= 1
  {
  }

  /** Over any run, the accepted counters strictly increase, all lie above
      the starting maximum, and the last one is the new maximum; the
      maximum never decreases. */
  lemma {:induction false} RunAccepted(s: CounterState, ops: seq<Op>)
    ensures AcceptedBetween(s.rxCounterMax, Run(s, ops).0.rxCounterMax, Run(s, ops).2)
    decreases |ops|
  {
    if ops != [] {
      var step := Step(s, ops[0]);
      var s1, rx := step.0, step.2;
      StepAccepted(s, ops[0]);
      RunAccepted(s1, ops[1..]);
      var rest := Run(s1, ops[1..]);
      var t, rxs := rest.0, rest.2;
      assert Run(s, ops).0 == t && Run(s, ops).2 == rx + rxs;
      var all := rx + rxs;
      if rx != [] {
        assert rx == [s1.rxCounterMax];
        forall i, j | 0 <= i < j < |all| ensures all[i] < all[j] {
          if i == 0 {
            assert all[i] == s1.rxCounterMax && all[j] == rxs[j - 1];
          } else {
            assert all[i] == rxs[i - 1] && all[j] == rxs[j - 1];
          }
        }
        forall i | 0 <= i < |all| ensures s.rxCounterMax < all[i] <= t.rxCounterMax {
          if i > 0 {
            assert all[i] == rxs[i - 1];
          }
        }
        if rxs != [] {
          assert all[|all| - 1] == rxs[|rxs| - 1];
        }
      } else {
        assert all == rxs;
      }
    }
  }

  /** Both halves of the counter discipline over any run. */
  lemma RunCounters(s: CounterState, ops: seq<Op>)
    ensures var (t, txs, rxs) := Run(s, ops);
            t.txCounter == s.txCounter + |txs|
            && (forall i :: 0 <= i < |txs| ==> txs[i] == s.txCounter + i + 1)
            && (forall i, j :: 0 <= i < j < |rxs| ==> rxs[i] < rxs[j])
            && (forall i :: 0 <= i < |rxs| ==> s.rxCounterMax < rxs[i] <= t.rxCounterMax)
            && (rxs == [] ==> t.rxCounterMax == s.rxCounterMax)
            && (rxs != [] ==> t.rxCounterMax == rxs[|rxs| - 1])
            && t.sessionId == s.sessionId
  {
    RunSent(s, ops);
    RunAccepted(s, ops);
    var r := Run(s, ops);
    assert AcceptedBetween(s.rxCounterMax, r.0.rxCounterMax, r.2);
  }

  /** Hence no counter is accepted twice in a run. */
  lemma NoCounterAcceptedTwice(s: CounterState, ops: seq<Op>)
    ensures var rxs := Run(s, ops).2;
            forall i, j :: 0 <= i < |rxs| && 0 <= j < |rxs| && i != j ==> rxs[i] != rxs[j]
  {
    RunCounters(s, ops);
  }

  class Manager {
    var sessions: map<string, CounterState>

    /** Every record is filed under its own id. */
    ghost predicate Valid()
      reads this
    {
      forall k :: k in sessions ==> sessions[k].sessionId == k
    }

    constructor ()
      ensures Valid() && sessions == map[]
    {
      sessions := map[];
    }

    /** The existing record, or a new one with the defaults; it creates at
        most this one entry. */
    method GetOrCreate(sessionId: string) returns (s: CounterState)
      requires Valid()
      modifies this
      ensures Valid()
      ensures sessionId in old(sessions) ==> sessions == old(sessions)
      ensures sessionId !in old(sessions) ==> sessions == old(sessions)[sessionId := Initial(sessionId)]
      ensures s == StateOf(old(sessions), sessionId) && sessions[sessionId] == s
    {
      if sessionId !in sessions {
        sessions := sessions[sessionId := Initial(sessionId)];
      }
      s := sessions[sessionId];
    }

    method NextTx(sessionId: string) returns (n: int)
      requires Valid()
      modifies this
      ensures Valid()
      ensures n == StateOf(old(sessions), sessionId).txCounter + 1
      ensures sessions == old(sessions)[sessionId := StateOf(old(sessions), sessionId).(txCounter := n)]
      ensures Step(StateOf(old(sessions), sessionId), TxOp) == (sessions[sessionId], [n], [])
    {
      var s := GetOrCreate(sessionId);
      n := s.txCounter + 1;
      sessions := sessions[sessionId := s.(txCounter := n)];
    }

    /** Accepts iff the counter is above the highest accepted one, which it
        then becomes; a rejection only ever creates the default record. */
    method AcceptRx(sessionId: string, counter: int) returns (ok: bool)
      requires Valid()
      modifies this
      ensures Valid()
      ensures ok <==> counter > StateOf(old(sessions), sessionId).rxCounterMax
      ensures sessions == old(sessions)[sessionId := AcceptStep(StateOf(old(sessions), sessionId), counter).0]
      ensures Step(StateOf(old(sessions), sessionId), RxOp(counter)) == (sessions[sessionId], [], if ok then [counter] else [])
    {
      var s := GetOrCreate(sessionId);
      if counter <= s.rxCounterMax {
        return false;
      }
      sessions := sessions[sessionId := s.(rxCounterMax := counter)];
      ok := true;
    }

    method SetState(sessionId: string, newState: string)
      requires Valid()
      modifies this
      ensures Valid()
      ensures sessions == old(sessions)[sessionId := StateOf(old(sessions), sessionId).(state := newState)]
    {
      var s := GetOrCreate(sessionId);
      sessions := sessions[sessionId := s.(state := newState)];
    }

    method SetActivePath(sessionId: string, path: string)
      requires Valid()
      modifies this
      ensures Valid()
      ensures sessions == old(sessions)[sessionId := StateOf(old(sessions), sessionId).(activePath := path)]
    {
      var s := GetOrCreate(sessionId);
      sessions := sessions[sessionId := s.(activePath := path)];
    }
  }
}
