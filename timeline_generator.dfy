// demo_engine/timeline_generator.py: the canonical timeline of a demo
// trace keeps the key events, sorts them stably by `ts_ms` (Python's
// `sorted` is stable) and reduces each to its timestamp, name and session
// id.  Loading the input and writing the output file are not modelled.
module Timeline {
  import opened TraceEvents

  const KeyEvents: set<string> := {
    "SESSION_CREATED", "VOLATILITY_SIGNAL", "DEGRADED_ENTERED", "BEST_CANDIDATE_SELECTED",
    "TRANSPORT_SWITCH", "RECOVERY_SIGNAL", "ATTACHED_RESTORED", "SESSION_EXPIRED"}

  /** `e["event"] in KEY_EVENTS`. */
  predicate IsKeyEvent(ev: Event)
    requires "event" in ev
  {
    ev["event"].VStr? && ev["event"].s in KeyEvents
  }

  /** Every event has a name, and every key event the fields `normalize`
      reads, with an int-like `ts_ms` to sort by. */
  predicate Indexable(events: seq<Event>)
  {
    forall i :: 0 <= i < |events| ==>
      "event" in events[i]
      && (IsKeyEvent(events[i]) ==>
            "ts_ms" in events[i] && IsPyInt(events[i]["ts_ms"]) && "session_id" in events[i])
  }

  /** The sort key: the event's `ts_ms`, where it is int-like. */
  function Key(ev: Event): int
  {
    if "ts_ms" in ev && IsPyInt(ev["ts_ms"]) then AsInt(ev["ts_ms"]) else 0
  }

  /** `filter_key_events`. */
  function FilterKeyEvents(events: seq<Event>): seq<Event>
    requires forall i :: 0 <= i < |events| ==> "event" in events[i]
    decreases |events|
  {
    if events == [] then []
    else
      var last := events[|events| - 1];
      FilterKeyEvents(events[..|events| - 1]) + (if IsKeyEvent(last) then [last] else [])
  }

  /** The filter keeps exactly the key events: each kept event is a key
      event of the input, every key event of the input is kept, and each
      event occurs in the result as often as in the input if it is a key
      event, and not at all otherwise. */
  lemma {:induction false} FilterKeepsKeyEvents(events: seq<Event>)
    requires forall i :: 0 <= i < |events| ==> "event" in events[i]
    ensures var r := FilterKeyEvents(events);
            (forall e :: e in r ==> e in events && "event" in e && IsKeyEvent(e))
            && (forall i :: 0 <= i < |events| && IsKeyEvent(events[i]) ==> events[i] in r)
            && (forall e :: multiset(r)[e] == if "event" in e && IsKeyEvent(e) then multiset(events)[e] else 0)
            && |r| <= |events|
    decreases |events|
  {
    if events != [] {
      var init := events[..|events| - 1];
      var last := events[|events| - 1];
      assert events == init + [last];
      FilterKeepsKeyEvents(init);
      var r, before := FilterKeyEvents(events), FilterKeyEvents(init);
      forall e | e in r ensures e in events && "event" in e && IsKeyEvent(e) {
        if e in before {
          var k :| 0 <= k < |init| && init[k] == e;
          assert events[k] == e;
        }
      }
      forall i | 0 <= i < |events| && IsKeyEvent(events[i]) ensures events[i] in r {
        if i < |events| - 1 {
          assert init[i] == events[i];
        }
      }
      forall e ensures multiset(r)[e] == if "event" in e && IsKeyEvent(e) then multiset(events)[e] else 0 {
        assert multiset(events) == multiset(init) + multiset{last};
        assert multiset(r) == multiset(before) + (if IsKeyEvent(last) then multiset{last} else multiset{});
      }
    }
  }

  /** The positions below `n` of the key events, in increasing order. */
  function KeyPositions(events: seq<Event>, n: nat): seq<nat>
    requires n <= |events|
    requires forall i :: 0 <= i < |events| ==> "event" in events[i]
    decreases n
  {
    if n == 0 then []
    else KeyPositions(events, n - 1) + (if IsKeyEvent(events[n - 1]) then [n - 1] else [])
  }

  /** The filter's result is the subsequence of the input at the key
      positions, in input order: its k-th event is the input's event at the
      k-th key position, the positions strictly increase, and a position
      is listed exactly when the input holds a key event there. */
  lemma {:induction false} FilterIsKeySubsequence(events: seq<Event>)
    requires forall i :: 0 <= i < |events| ==> "event" in events[i]
    ensures var r, pos := FilterKeyEvents(events), KeyPositions(events, |events|);
            |r| == |pos|
            && (forall k :: 0 <= k < |pos| ==> pos[k] < |events| && r[k] == events[pos[k]])
            && (forall k, l :: 0 <= k < l < |pos| ==> pos[k] < pos[l])
            && (forall i :: 0 <= i < |events| ==> (i in pos <==> IsKeyEvent(events[i])))
    decreases |events|
  {
    if events != [] {
      var init := events[..|events| - 1];
      FilterIsKeySubsequence(init);
      PositionsOfPrefix(events, init, |init|);
      var pos0 := KeyPositions(events, |init|);
      forall i | 0 <= i < |init| ensures init[i] == events[i] {}
      forall k | 0 <= k < |pos0| ensures pos0[k] < |init| {}
    }
  }

  /** Prefix positions do not depend on what follows the prefix. */
  lemma {:induction false} PositionsOfPrefix(events: seq<Event>, init: seq<Event>, n: nat)
    requires forall i :: 0 <= i < |events| ==> "event" in events[i]
    requires n <= |init| <= |events| && init == events[..|init|]
    ensures KeyPositions(events, n) == KeyPositions(init, n)
    decreases n
  {
    if n > 0 {
      PositionsOfPrefix(events, init, n - 1);
      assert init[n - 1] == events[n - 1];
    }
  }

  predicate SortedByKey(xs: seq<Event>)
  {
    forall i, j :: 0 <= i < j < |xs| ==> Key(xs[i]) <= Key(xs[j])
  }

  /** The events of `xs` whose key is `t`, in order. */
  function WithKey(xs: seq<Event>, t: int): seq<Event>
    decreases |xs|
  {
    if xs == [] then []
    else WithKey(xs[..|xs| - 1], t) + (if Key(xs[|xs| - 1]) == t then [xs[|xs| - 1]] else [])
  }

  lemma {:induction false} WithKeyAppend(a: seq<Event>, b: seq<Event>, t: int)
    ensures WithKey(a + b, t) == WithKey(a, t) + WithKey(b, t)
    decreases |b|
  {
    if b != [] {
      var b' := b[..|b| - 1];
      assert (a + b)[..|a + b| - 1] == a + b';
      assert (a + b)[|a + b| - 1] == b[|b| - 1];
      WithKeyAppend(a, b', t);
      var piece := if Key(b[|b| - 1]) == t then [b[|b| - 1]] else [];
      assert WithKey(a + b, t) == WithKey(a + b', t) + piece;
      assert WithKey(b, t) == WithKey(b', t) + piece;
    } else {
      assert a + b == a;
    }
  }

  /** Places `x` after every element of a sorted `s` whose key is at most
      its own: `x` goes after the equal keys already there. */
  function Insert(s: seq<Event>, x: Event): seq<Event>
    decreases |s|
  {
    if s == [] || Key(s[|s| - 1]) <= Key(x) then s + [x]
    else Insert(s[..|s| - 1], x) + [s[|s| - 1]]
  }

  /** The stable sort by key: each event is inserted after the ones before
      it. */
  function SortByTs(xs: seq<Event>): seq<Event>
    decreases |xs|
  {
    if xs == [] then [] else Insert(SortByTs(xs[..|xs| - 1]), xs[|xs| - 1])
  }

  /** Inserting into a sorted sequence keeps it sorted; the new last key
      is the larger of the old last key and `x`'s. */
  lemma {:induction false} InsertSorted(s: seq<Event>, x: Event)
    requires SortedByKey(s)
    ensures var r := Insert(s, x);
            SortedByKey(r) && |r| == |s| + 1
            && Key(r[|r| - 1]) == if s == [] || Key(s[|s| - 1]) <= Key(x) then Key(x) else Key(s[|s| - 1])
    decreases |s|
  {
    if s != [] && Key(s[|s| - 1]) > Key(x) {
      var init, last := s[..|s| - 1], s[|s| - 1];
      assert SortedByKey(init) by {
        forall i, j | 0 <= i < j < |init| ensures Key(init[i]) <= Key(init[j]) {
          assert init[i] == s[i] && init[j] == s[j];
        }
      }
      InsertSorted(init, x);
      var r' := Insert(init, x);
      var r := r' + [last];
      assert Key(r'[|r'| - 1]) <= Key(last) by {
        if init != [] {
          assert Key(s[|s| - 2]) <= Key(s[|s| - 1]);
        }
      }
      forall i, j | 0 <= i < j < |r| ensures Key(r[i]) <= Key(r[j]) {
        if j < |r'| {
          assert r[i] == r'[i] && r[j] == r'[j];
        } else {
          assert r[i] == r'[i] && Key(r'[i]) <= Key(r'[|r'| - 1]);
        }
      }
    } else {
      var r := s + [x];
      forall i, j | 0 <= i < j < |r| ensures Key(r[i]) <= Key(r[j]) {
        if j < |s| {
          assert r[i] == s[i] && r[j] == s[j];
        } else {
          assert r[i] == s[i] && Key(s[i]) <= Key(s[|s| - 1]);
        }
      }
    }
  }

  lemma {:induction false} InsertPermutes(s: seq<Event>, x: Event)
    ensures multiset(Insert(s, x)) == multiset(s) + multiset{x}
    decreases |s|
  {
    if s != [] && Key(s[|s| - 1]) > Key(x) {
      var init, last := s[..|s| - 1], s[|s| - 1];
      InsertPermutes(init, x);
      assert s == init + [last];
    }
  }

  /** Inserting keeps the order among equal keys: `x` comes after the
      elements of its key already in `s`. */
  lemma {:induction false} InsertIsStable(s: seq<Event>, x: Event, t: int)
    ensures WithKey(Insert(s, x), t) == WithKey(s, t) + (if Key(x) == t then [x] else [])
    decreases |s|
  {
    if s == [] || Key(s[|s| - 1]) <= Key(x) {
      WithKeyAppend(s, [x], t);
      assert WithKey([x], t) == WithKey([], t) + (if Key(x) == t then [x] else []);
    } else {
      var init, last := s[..|s| - 1], s[|s| - 1];
      var xPiece := if Key(x) == t then [x] else [];
      var lastPiece := if Key(last) == t then [last] else [];
      InsertIsStable(init, x, t);
      assert Insert(s, x) == Insert(init, x) + [last];
      WithKeyAppend(Insert(init, x), [last], t);
      assert WithKey([last], t) == WithKey([], t) + lastPiece;
      assert WithKey(s, t) == WithKey(init, t) + lastPiece;
      // Key(last) > Key(x), so at most one of the two pieces is non-empty.
      assert xPiece == [] || lastPiece == [];
      assert WithKey(Insert(s, x), t) == WithKey(init, t) + xPiece + lastPiece;
    }
  }

  /** The sort orders by key and keeps the length. */
  lemma {:induction false} SortByTsSorted(xs: seq<Event>)
    ensures SortedByKey(SortByTs(xs)) && |SortByTs(xs)| == |xs|
    decreases |xs|
  {
    if xs != [] {
      var init := xs[..|xs| - 1];
      SortByTsSorted(init);
      InsertSorted(SortByTs(init), xs[|xs| - 1]);
    }
  }

  /** The sort is a permutation. */
  lemma {:induction false} SortByTsPermutes(xs: seq<Event>)
    ensures multiset(SortByTs(xs)) == multiset(xs)
    decreases |xs|
  {
    if xs != [] {
      var init, last := xs[..|xs| - 1], xs[|xs| - 1];
      SortByTsPermutes(init);
      InsertPermutes(SortByTs(init), last);
      assert xs == init + [last];
    }
  }

  /** The sort is stable: for every key, the events of that key keep their
      input order. */
  lemma {:induction false} SortByTsStable(xs: seq<Event>, t: int)
    ensures WithKey(SortByTs(xs), t) == WithKey(xs, t)
    decreases |xs|
  {
    if xs != [] {
      var init, last := xs[..|xs| - 1], xs[|xs| - 1];
      SortByTsStable(init, t);
      InsertIsStable(SortByTs(init), last, t);
    }
  }

  /** `normalize`: the event reduced to its timestamp, name and session id. */
  function Normalize(ev: Event): (r: Event)
    requires "ts_ms" in ev && "event" in ev && "session_id" in ev
    ensures r.Keys == {"ts_ms", "event", "session_id"}
    ensures forall k :: k in r ==> r[k] == ev[k]
  {
    map["ts_ms" := ev["ts_ms"], "event" := ev["event"], "session_id" := ev["session_id"]]
  }

  predicate Normalizable(xs: seq<Event>)
  {
    forall i :: 0 <= i < |xs| ==> "ts_ms" in xs[i] && "event" in xs[i] && "session_id" in xs[i]
  }

  function NormalizeAll(xs: seq<Event>): (r: seq<Event>)
    requires Normalizable(xs)
    ensures |r| == |xs|
    decreases |xs|
  {
    if xs == [] then [] else NormalizeAll(xs[..|xs| - 1]) + [Normalize(xs[|xs| - 1])]
  }

  lemma {:induction false} NormalizeAllAt(xs: seq<Event>, k: nat)
    requires Normalizable(xs) && k < |xs|
    ensures NormalizeAll(xs)[k] == Normalize(xs[k])
    decreases |xs|
  {
    if k < |xs| - 1 {
      NormalizeAllAt(xs[..|xs| - 1], k);
    }
  }

  /** The sorted key events carry the fields `normalize` reads. */
  lemma SortedKeyEventsNormalizable(events: seq<Event>)
    requires Indexable(events)
    ensures Normalizable(SortByTs(FilterKeyEvents(events)))
  {
    var key := FilterKeyEvents(events);
    FilterKeepsKeyEvents(events);
    SortByTsSorted(key);
    SortByTsPermutes(key);
    var sorted := SortByTs(key);
    forall i | 0 <= i < |sorted| ensures "ts_ms" in sorted[i] && "event" in sorted[i] && "session_id" in sorted[i] {
      assert sorted[i] in multiset(key);
      assert sorted[i] in key;
      var k :| 0 <= k < |events| && events[k] == sorted[i];
    }
  }

  /** The lines `generate` writes, one event each. */
  function Generate(events: seq<Event>): seq<Event>
    requires Indexable(events)
  {
    SortedKeyEventsNormalizable(events);
    NormalizeAll(SortByTs(FilterKeyEvents(events)))
  }

  /** The timeline has one line per key event, in `ts_ms` order; each line
      is the normalized form of the key event at that place of the stable
      sort, and holds just a timestamp, a name and a session id. */
  lemma GenerateFacts(events: seq<Event>)
    requires Indexable(events)
    ensures var key := FilterKeyEvents(events);
            var out := Generate(events);
            |out| == |key|
            && (forall i :: 0 <= i < |out| ==> out[i].Keys == {"ts_ms", "event", "session_id"})
            && (forall i, j :: 0 <= i < j < |out| ==> Key(out[i]) <= Key(out[j]))
            && var sorted := SortByTs(key);
               |sorted| == |out| && Normalizable(sorted)
               && (forall i :: 0 <= i < |out| ==> out[i] == Normalize(sorted[i]))
  {
    var key := FilterKeyEvents(events);
    SortByTsSorted(key);
    SortByTsPermutes(key);
    SortedKeyEventsNormalizable(events);
    var sorted := SortByTs(key);
    var out := Generate(events);
    forall i | 0 <= i < |out| ensures out[i] == Normalize(sorted[i]) {
      NormalizeAllAt(sorted, i);
    }
  }
}
