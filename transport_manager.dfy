// core/orchestrator/transport_manager.py: a bounded set of transport
// candidates with a deterministic ranking, stale and overflow eviction, and
// the choice of one active candidate.
module TransportManager {
  import opened OptionType

  datatype Candidate = Candidate(
    transportId: string,
    proto: string,
    remote: string,
    priority: int,
    observedRttMs: int,
    observedLossPct: real,
    lastSeenMs: int)

  datatype SelectionReason = NoCandidates | ActiveSelectedSwitch | ActiveSelectedNoChange

  datatype SelectionResult = SelectionResult(selected: Option<Candidate>, reason: SelectionReason, candidatesConsidered: int)

  // ---------------------------------------------------------------
  // The ranking order: (priority, observed_loss_pct, observed_rtt_ms,
  // transport_id), ascending, strings compared as Python compares them.
  // ---------------------------------------------------------------

  /** Python's `<` on strings: code point by code point, a proper prefix first. */
  predicate StrLess(a: string, b: string)
    decreases |a|
  {
    if a == [] then b != []
    else if b == [] then false
    else if a[0] != b[0] then a[0] < b[0]
    else StrLess(a[1..], b[1..])
  }

  lemma {:induction false} StrLessIrreflexive(a: string)
    ensures !StrLess(a, a)
    decreases |a|
  {
    if a != [] {
      StrLessIrreflexive(a[1..]);
    }
  }

  lemma {:induction false} StrLessTransitive(a: string, b: string, c: string)
    requires StrLess(a, b) && StrLess(b, c)
    ensures StrLess(a, c)
    decreases |a|
  {
    if a != [] && a[0] == b[0] && b[0] == c[0] {
      StrLessTransitive(a[1..], b[1..], c[1..]);
    }
  }

  lemma {:induction false} StrLessTotal(a: string, b: string)
    requires a != b
    ensures StrLess(a, b) || StrLess(b, a)
    decreases |a|
  {
    if a != [] && b != [] && a[0] == b[0] {
      assert a == [a[0]] + a[1..] && b == [b[0]] + b[1..];
      StrLessTotal(a[1..], b[1..]);
    }
  }

  /** `a` ranks strictly before `b`. */
  predicate RankLess(a: Candidate, b: Candidate)
  {
    a.priority < b.priority
    || (a.priority == b.priority && a.observedLossPct < b.observedLossPct)
    || (a.priority == b.priority && a.observedLossPct == b.observedLossPct && a.observedRttMs < b.observedRttMs)
    || (a.priority == b.priority && a.observedLossPct == b.observedLossPct && a.observedRttMs == b.observedRttMs
        && StrLess(a.transportId, b.transportId))
  }

  lemma RankLessIrreflexive(a: Candidate)
    ensures !RankLess(a, a)
  {
    StrLessIrreflexive(a.transportId);
  }

  lemma RankLessTransitive(a: Candidate, b: Candidate, c: Candidate)
    requires RankLess(a, b) && RankLess(b, c)
    ensures RankLess(a, c)
  {
    if a.priority == b.priority == c.priority && a.observedLossPct == b.observedLossPct == c.observedLossPct
       && a.observedRttMs == b.observedRttMs == c.observedRttMs {
      StrLessTransitive(a.transportId, b.transportId, c.transportId);
    }
  }

  /** Candidates with different ids are always ordered one way or the other:
      since ids are the keys of the candidate table, the ranking is total. */
  lemma RankLessTotal(a: Candidate, b: Candidate)
    requires a.transportId != b.transportId
    ensures RankLess(a, b) || RankLess(b, a)
  {
    StrLessTotal(a.transportId, b.transportId);
  }

  // ---------------------------------------------------------------
  // Specification helpers over candidate tables.
  // ---------------------------------------------------------------

  /** Every candidate is stored under its own id. */
  predicate KeysConsistent(m: map<string, Candidate>)
  {
    forall k :: k in m ==> m[k].transportId == k
  }

  /** `s` lists the table's candidates, best first. */
  predicate IsRanking(m: map<string, Candidate>, s: seq<Candidate>)
  {
    |s| == |m|
    && (forall i :: 0 <= i < |s| ==> s[i].transportId in m && m[s[i].transportId] == s[i])
    && (forall k :: k in m ==> m[k] in s)
    && (forall i, j :: 0 <= i < j < |s| ==> RankLess(s[i], s[j]))
  }

  /** `c` ranks before every other candidate of the table. */
  predicate IsBest(m: map<string, Candidate>, c: Candidate)
  {
    c.transportId in m && m[c.transportId] == c
    && forall k :: k in m && k != c.transportId ==> RankLess(c, m[k])
  }

  /** `c` ranks before every other candidate of the table whose id is not `excluded`. */
  predicate IsBestExcept(m: map<string, Candidate>, excluded: string, c: Candidate)
  {
    c.transportId in m && m[c.transportId] == c && c.transportId != excluded
    && forall k :: k in m && k != excluded && k != c.transportId ==> RankLess(c, m[k])
  }

  predicate Stale(c: Candidate, nowMs: int, ttlMs: int)
  {
    nowMs - c.lastSeenMs > ttlMs
  }

  /** The table without its stale candidates. */
  function FreshOnly(m: map<string, Candidate>, nowMs: int, ttlMs: int): map<string, Candidate>
  {
    map k | k in m && !Stale(m[k], nowMs, ttlMs) :: m[k]
  }

  /** The active id survives a removal only if its candidate is still there. */
  function ActiveAfter(active: Option<string>, m: map<string, Candidate>): Option<string>
  {
    if active.Some? && active.value in m then active else None
  }

  /** The length of `ranked[:n]` for a list of length `len` (Python slicing,
      so a negative `n` drops that many from the end). */
  function SliceLen(len: nat, n: int): (l: nat)
    ensures l <= len
    ensures n >= 0 ==> l <= n
  {
    if n >= 0 then (if n < len then n else len)
    else if len + n > 0 then len + n else 0
  }

  /** `kept` is the `n` best-ranked candidates of `m`. */
  predicate BestKept(kept: map<string, Candidate>, m: map<string, Candidate>, n: nat)
  {
    kept.Keys <= m.Keys && (forall k :: k in kept ==> kept[k] == m[k])
    && |kept| == n
    && forall k, k' :: k in kept && k' in m && k' !in kept ==> RankLess(m[k], m[k'])
  }

  function IdsOf(s: seq<Candidate>): set<string>
  {
    set i | 0 <= i < |s| :: s[i].transportId
  }

  lemma IdsOfCons(s: seq<Candidate>)
    requires s != []
    ensures IdsOf(s) == {s[0].transportId} + IdsOf(s[1..])
  {
    forall x | x in IdsOf(s) ensures x in {s[0].transportId} + IdsOf(s[1..]) {
      var i :| 0 <= i < |s| && s[i].transportId == x;
      if i > 0 { assert s[1..][i - 1] == s[i]; }
    }
    forall x | x in IdsOf(s[1..]) ensures x in IdsOf(s) {
      var i :| 0 <= i < |s[1..]| && s[1..][i].transportId == x;
      assert s[i + 1] == s[1..][i];
    }
  }

  /** A strictly ranked list drawn from one table names each id once. */
  lemma {:induction false} SortedIdsDistinctSize(m: map<string, Candidate>, s: seq<Candidate>)
    requires forall i :: 0 <= i < |s| ==> s[i].transportId in m && m[s[i].transportId] == s[i]
    requires forall i, j :: 0 <= i < j < |s| ==> RankLess(s[i], s[j])
    ensures |IdsOf(s)| == |s|
    decreases |s|
  {
    if s != [] {
      var t := s[1..];
      assert forall i :: 0 <= i < |t| ==> t[i] == s[i + 1];
      SortedIdsDistinctSize(m, t);
      IdsOfCons(s);
      if s[0].transportId in IdsOf(t) {
        var i :| 0 <= i < |t| && t[i].transportId == s[0].transportId;
        assert RankLess(s[0], s[i + 1]) && s[0] == s[i + 1];
        RankLessIrreflexive(s[0]);
      }
    }
  }

  class Manager {
    const maxCandidates: int
    const candidateTtlMs: int
    var candidates: map<string, Candidate>
    var activeId: Option<string>
    var lastSwitchMs: Option<int>

    ghost predicate Valid()
      reads this
    {
      KeysConsistent(candidates) && (activeId.Some? ==> activeId.value in candidates)
    }

    /** Defaults in the source: 8 candidates, 15 000 ms TTL. */
    constructor (maxCandidates: int, candidateTtlMs: int)
      ensures Valid()
      ensures this.maxCandidates == maxCandidates && this.candidateTtlMs == candidateTtlMs
      ensures candidates == map[] && activeId == None && lastSwitchMs == None
    {
      this.maxCandidates := maxCandidates;
      this.candidateTtlMs := candidateTtlMs;
      candidates := map[];
      activeId := None;
      lastSwitchMs := None;
    }

    method RemoveCandidate(transportId: string)
      requires Valid()
      modifies this
      ensures Valid()
      ensures candidates == old(candidates) - {transportId}
      ensures activeId == ActiveAfter(old(activeId), candidates)
      ensures lastSwitchMs == old(lastSwitchMs)
    {
      candidates := candidates - {transportId};
      if activeId == Some(transportId) {
        activeId := None;
      }
    }

    /** The active candidate, or None when nothing is active. */
    function ActiveTransport(): (r: Option<Candidate>)
      reads this
      ensures r.None? <==> activeId.None? || activeId.value !in candidates
      ensures r.Some? ==> r.value == candidates[activeId.value]
    {
      if activeId.None? then None
      else if activeId.value in candidates then Some(candidates[activeId.value])
      else None
    }

    /** Used when the transport is declared dead; the candidate stays. */
    method ClearActive()
      requires Valid()
      modifies this
      ensures Valid()
      ensures activeId == None && candidates == old(candidates) && lastSwitchMs == old(lastSwitchMs)
    {
      activeId := None;
    }

    /** The candidate of least rank among `keys`. */
    method BestAmong(keys: set<string>) returns (best: string)
      requires Valid() && keys != {} && keys <= candidates.Keys
      ensures best in keys
      ensures forall k :: k in keys && k != best ==> RankLess(candidates[best], candidates[k])
    {
      var first :| first in keys;
      best := first;
      var rest := keys - {first};
      while rest != {}
        invariant rest <= keys && best in keys && best !in rest
        invariant forall k :: k in keys && k !in rest && k != best ==> RankLess(candidates[best], candidates[k])
        decreases |rest|
      {
        var k :| k in rest;
        if RankLess(candidates[k], candidates[best]) {
          forall k' | k' in keys && k' !in rest && k' != best
            ensures RankLess(candidates[k], candidates[k'])
          {
            RankLessTransitive(candidates[k], candidates[best], candidates[k']);
          }
          best := k;
        } else {
          RankLessTotal(candidates[k], candidates[best]);
        }
        rest := rest - {k};
      }
    }

    /** The candidates sorted by rank (Python's `sorted`, here as repeated
        selection of the best remaining candidate). */
    method RankedCandidates() returns (ranked: seq<Candidate>)
      requires Valid()
      ensures IsRanking(candidates, ranked)
    {
      ranked := [];
      var rest := candidates.Keys;
      while rest != {}
        invariant rest <= candidates.Keys
        invariant |ranked| + |rest| == |candidates|
        invariant forall i :: 0 <= i < |ranked| ==> ranked[i].transportId in candidates
                                                    && candidates[ranked[i].transportId] == ranked[i]
                                                    && ranked[i].transportId !in rest
        invariant forall k :: k in candidates && k !in rest ==> candidates[k] in ranked
        invariant forall i, j :: 0 <= i < j < |ranked| ==> RankLess(ranked[i], ranked[j])
        invariant forall i, k :: 0 <= i < |ranked| && k in rest ==> RankLess(ranked[i], candidates[k])
        decreases |rest|
      {
        var k := BestAmong(rest);
        ranked := ranked + [candidates[k]];
        rest := rest - {k};
      }
    }

    /** Removes every candidate not seen within the TTL. */
    method EvictStale(nowMs: int)
      requires Valid()
      modifies this
      ensures Valid()
      ensures candidates == FreshOnly(old(candidates), nowMs, candidateTtlMs)
      ensures activeId == ActiveAfter(old(activeId), candidates)
      ensures lastSwitchMs == old(lastSwitchMs)
    {
      var staleIds := set k | k in candidates && Stale(candidates[k], nowMs, candidateTtlMs);
      ghost var orig := candidates;
      var pending := staleIds;
      while pending != {}
        invariant Valid() && pending <= staleIds
        invariant candidates == map k | k in orig && (k !in staleIds || k in pending) :: orig[k]
        invariant activeId == ActiveAfter(old(activeId), candidates)
        invariant lastSwitchMs == old(lastSwitchMs)
        decreases |pending|
      {
        var tid :| tid in pending;
        RemoveCandidate(tid);
        pending := pending - {tid};
      }
      assert candidates == map k | k in orig && k !in staleIds :: orig[k];
      assert forall k :: k in orig ==> (k in staleIds <==> Stale(orig[k], nowMs, candidateTtlMs));
      assert candidates.Keys == FreshOnly(orig, nowMs, candidateTtlMs).Keys;
      assert candidates == FreshOnly(orig, nowMs, candidateTtlMs);
    }

    /** Keeps only the best `max_candidates` (Python slice semantics). */
    method EvictOverflow(nowMs: int)
      requires Valid()
      modifies this
      ensures Valid()
      ensures |old(candidates)| <= maxCandidates ==> candidates == old(candidates)
      ensures |old(candidates)| > maxCandidates ==>
                BestKept(candidates, old(candidates), SliceLen(|old(candidates)|, maxCandidates))
      ensures activeId == ActiveAfter(old(activeId), candidates)
      ensures lastSwitchMs == old(lastSwitchMs)
    {
      if |candidates| <= maxCandidates {
        return;
      }
      var ranked := RankedCandidates();
      var n := SliceLen(|ranked|, maxCandidates);
      var keep := IdsOf(ranked[..n]);
      ghost var orig := candidates;
      RemoveAllBut(keep);
      OverflowKeepsBest(orig, ranked, n, keep, candidates);
    }

    /** Removes, one by one, every candidate whose id is not in `keep`. */
    method RemoveAllBut(keep: set<string>)
      requires Valid()
      modifies this
      ensures Valid()
      ensures candidates == map k | k in old(candidates) && k in keep :: old(candidates)[k]
      ensures activeId == ActiveAfter(old(activeId), candidates)
      ensures lastSwitchMs == old(lastSwitchMs)
    {
      ghost var orig := candidates;
      var pending := candidates.Keys;
      while pending != {}
        invariant Valid() && pending <= orig.Keys
        invariant candidates == map k | k in orig && (k in keep || k in pending) :: orig[k]
        invariant activeId == ActiveAfter(old(activeId), candidates)
        invariant lastSwitchMs == old(lastSwitchMs)
        decreases |pending|
      {
        var tid :| tid in pending;
        if tid !in keep {
          RemoveCandidate(tid);
        }
        pending := pending - {tid};
      }
    }

    /** Adds or replaces a candidate, then evicts stale ones and the overflow. */
    method UpsertCandidate(cand: Candidate, nowMs: int)
      requires Valid()
      modifies this
      ensures Valid()
      ensures var live := FreshOnly(old(candidates)[cand.transportId := cand], nowMs, candidateTtlMs);
              (|live| <= maxCandidates ==> candidates == live)
              && (|live| > maxCandidates ==> BestKept(candidates, live, SliceLen(|live|, maxCandidates)))
      ensures maxCandidates >= 0 ==> |candidates| <= maxCandidates
      ensures activeId == ActiveAfter(old(activeId), candidates)
      ensures lastSwitchMs == old(lastSwitchMs)
    {
      candidates := candidates[cand.transportId := cand];
      EvictStale(nowMs);
      EvictOverflow(nowMs);
    }

    /** Evicts stale candidates, then makes the best-ranked one active. */
    method SelectActive(nowMs: int) returns (r: SelectionResult)
      requires Valid()
      modifies this
      ensures Valid()
      ensures candidates == FreshOnly(old(candidates), nowMs, candidateTtlMs)
      ensures candidates == map[] ==>
                r == SelectionResult(None, NoCandidates, 0) && activeId == None && lastSwitchMs == old(lastSwitchMs)
      ensures candidates != map[] ==>
                r.selected.Some? && IsBest(candidates, r.selected.value)
                && activeId == Some(r.selected.value.transportId)
                && r.candidatesConsidered == |candidates|
      ensures var prev := ActiveAfter(old(activeId), candidates);
              candidates != map[] && prev != activeId ==> r.reason == ActiveSelectedSwitch && lastSwitchMs == Some(nowMs)
      ensures var prev := ActiveAfter(old(activeId), candidates);
              candidates != map[] && prev == activeId ==> r.reason == ActiveSelectedNoChange && lastSwitchMs == old(lastSwitchMs)
    {
      EvictStale(nowMs);
      if candidates == map[] {
        return SelectionResult(None, NoCandidates, 0);
      }
      var ranked := RankedCandidates();
      RankingHeadIsBest(candidates, ranked);
      var selected := ranked[0];
      var prev := activeId;
      activeId := Some(selected.transportId);
      var reason;
      if prev != activeId {
        lastSwitchMs := Some(nowMs);
        reason := ActiveSelectedSwitch;
      } else {
        reason := ActiveSelectedNoChange;
      }
      return SelectionResult(Some(selected), reason, |ranked|);
    }

    /** The next-best candidate, without activating it: the best one when
        nothing is active, otherwise the best one that is not active. */
    method PickBackup(nowMs: int) returns (r: Option<Candidate>)
      requires Valid()
      modifies this
      ensures Valid()
      ensures candidates == FreshOnly(old(candidates), nowMs, candidateTtlMs)
      ensures activeId == ActiveAfter(old(activeId), candidates) && lastSwitchMs == old(lastSwitchMs)
      ensures activeId.None? ==> (r.None? <==> candidates == map[]) && (r.Some? ==> IsBest(candidates, r.value))
      ensures activeId.Some? ==> (r.None? <==> candidates.Keys == {activeId.value})
                                 && (r.Some? ==> IsBestExcept(candidates, activeId.value, r.value))
    {
      EvictStale(nowMs);
      var ranked := RankedCandidates();
      if |ranked| == 0 {
        return None;
      }
      if activeId.None? {
        RankingHeadIsBest(candidates, ranked);
        return Some(ranked[0]);
      }
      var active := activeId.value;
      var i := 0;
      while i < |ranked|
        invariant 0 <= i <= |ranked|
        invariant forall j :: 0 <= j < i ==> ranked[j].transportId == active
      {
        if ranked[i].transportId != active {
          RankingFirstOtherIsBest(candidates, ranked, active, i);
          return Some(ranked[i]);
        }
        i := i + 1;
      }
      RankingAllActive(candidates, ranked, active);
      return None;
    }
  }

  // ---------------------------------------------------------------
  // Lemmas connecting the ranking to the selection results.
  // ---------------------------------------------------------------

  lemma RankingHeadIsBest(m: map<string, Candidate>, s: seq<Candidate>)
    requires KeysConsistent(m) && IsRanking(m, s) && m != map[]
    ensures |s| > 0 && IsBest(m, s[0])
  {
    var k0 :| k0 in m;
    assert m[k0] in s;
    forall k | k in m && k != s[0].transportId ensures RankLess(s[0], m[k]) {
      var j :| 0 <= j < |s| && s[j] == m[k];
      assert j != 0;
    }
  }

  lemma RankingFirstOtherIsBest(m: map<string, Candidate>, s: seq<Candidate>, active: string, i: nat)
    requires KeysConsistent(m) && IsRanking(m, s)
    requires i < |s| && s[i].transportId != active
    requires forall j :: 0 <= j < i ==> s[j].transportId == active
    ensures IsBestExcept(m, active, s[i])
  {
    forall k | k in m && k != active && k != s[i].transportId ensures RankLess(s[i], m[k]) {
      var j :| 0 <= j < |s| && s[j] == m[k];
      assert j != i;
      assert j > i;
    }
  }

  lemma RankingAllActive(m: map<string, Candidate>, s: seq<Candidate>, active: string)
    requires KeysConsistent(m) && IsRanking(m, s) && |s| > 0
    requires forall j :: 0 <= j < |s| ==> s[j].transportId == active
    ensures m.Keys == {active}
  {
    forall k | k in m ensures k == active {
      var j :| 0 <= j < |s| && s[j] == m[k];
    }
    assert s[0].transportId in m;
  }

  lemma OverflowKeepsBest(m: map<string, Candidate>, s: seq<Candidate>, n: nat, keep: set<string>, kept: map<string, Candidate>)
    requires KeysConsistent(m) && IsRanking(m, s) && n <= |s|
    requires keep == IdsOf(s[..n])
    requires kept == map k | k in m && k in keep :: m[k]
    ensures BestKept(kept, m, n)
  {
    assert forall i :: 0 <= i < n ==> s[..n][i] == s[i];
    SortedIdsDistinctSize(m, s[..n]);
    assert keep <= m.Keys;
    assert kept.Keys == keep;
    forall k, k' | k in kept && k' in m && k' !in kept ensures RankLess(m[k], m[k']) {
      var i :| 0 <= i < n && s[..n][i].transportId == k;
      var j :| 0 <= j < |s| && s[j] == m[k'];
      assert j >= n;
      assert s[i] == m[k];
    }
  }

  lemma {:induction false} SubsetCard(a: set<string>, b: set<string>)
    requires a <= b
    ensures |a| <= |b|
    decreases |a|
  {
    if a != {} {
      var e :| e in a;
      SubsetCard(a - {e}, b - {e});
    }
  }

  /** At most one candidate of a table is the best one. */
  lemma BestIsUnique(m: map<string, Candidate>, a: Candidate, b: Candidate)
    requires KeysConsistent(m) && IsBest(m, a) && IsBest(m, b)
    ensures a == b
  {
    if a.transportId != b.transportId {
      RankLessTransitive(a, b, a);
      RankLessIrreflexive(a);
    }
  }

  /** The overflow eviction's result is determined by the table and the bound,
      whatever order the removals happen in. */
  lemma BestKeptUnique(k1: map<string, Candidate>, k2: map<string, Candidate>, m: map<string, Candidate>, n: nat)
    requires BestKept(k1, m, n) && BestKept(k2, m, n)
    ensures k1 == k2
  {
    if x :| x in k1 && x !in k2 {
      if k2.Keys <= k1.Keys {
        assert k2.Keys <= k1.Keys - {x};
        SubsetCard(k2.Keys, k1.Keys - {x});
        assert false;
      }
      var y :| y in k2 && y !in k1;
      RankLessTransitive(m[x], m[y], m[x]);
      RankLessIrreflexive(m[x]);
    } else if y :| y in k2 && y !in k1 {
      assert k1.Keys <= k2.Keys - {y};
      SubsetCard(k1.Keys, k2.Keys - {y});
      assert false;
    }
    assert k1.Keys == k2.Keys;
  }

  /** A manager with default bounds. */
  method NewDefaultManager() returns (mgr: Manager)
    ensures fresh(mgr) && mgr.Valid() && mgr.maxCandidates == 8 && mgr.candidateTtlMs == 15_000
  {
    mgr := new Manager(8, 15_000);
  }
}
