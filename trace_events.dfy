// The events of a JSON-lines demo trace, as the trace checkers of
// demo_engine/ read them: a map from field names to JSON values.  File
// reading and JSON decoding are not modelled.
module TraceEvents {
  import opened OptionType

  /** A decoded JSON value, as far as the checkers distinguish them; any
      other value (a float, a list, an object) is kept with the text Python's
      `str()` gives it. */
  datatype Value = VInt(i: int) | VStr(s: string) | VBool(b: bool) | VNull | VOther(text: string)

  type Event = map<string, Value>

  /** `ev.get(key)`: None when the key is absent or holds JSON null. */
  function Get(ev: Event, key: string): (r: Option<Value>)
    ensures r.None? <==> key !in ev || ev[key] == VNull
    ensures r.Some? ==> r.value == ev[key]
  {
    if key in ev && ev[key] != VNull then Some(ev[key]) else None
  }

  /** The event's `event` field is the string `name`. */
  predicate IsNamed(ev: Event, name: string)
  {
    "event" in ev && ev["event"] == VStr(name)
  }

  /** Python's `isinstance(v, int)`, under which a bool is an int too. */
  predicate IsPyInt(v: Value)
  {
    v.VInt? || v.VBool?
  }

  /** The decimal digits of a natural number. */
  function Digits(n: nat): (r: string)
    ensures |r| > 0 && forall k :: 0 <= k < |r| ==> '0' <= r[k] <= '9'
    decreases n
  {
    if n < 10 then ["0123456789"[n]] else Digits(n / 10) + ["0123456789"[n % 10]]
  }

  /** Python's `str()` of a value. */
  function Render(v: Value): string
  {
    match v
    case VInt(i) => if i < 0 then "-" + Digits(-i) else Digits(i)
    case VStr(s) => s
    case VBool(b) => if b then "True" else "False"
    case VNull => "None"
    case VOther(text) => text
  }

  /** The integer Python compares for an int-like value (True is 1). */
  function AsInt(v: Value): int
    requires IsPyInt(v)
  {
    if v.VInt? then v.i else if v.b then 1 else 0
  }

  predicate NonDecreasing(xs: seq<int>)
  {
    forall i, j :: 0 <= i < j < |xs| ==> xs[i] <= xs[j]
  }

  predicate StepsNonDecreasing(xs: seq<int>)
  {
    forall i :: 0 < i < |xs| ==> xs[i - 1] <= xs[i]
  }

  /** Checking neighbours is checking every pair. */
  lemma {:induction false} StepsIffNonDecreasing(xs: seq<int>)
    ensures StepsNonDecreasing(xs) <==> NonDecreasing(xs)
    decreases |xs|
  {
    if |xs| >= 2 && StepsNonDecreasing(xs) {
      var init := xs[..|xs| - 1];
      assert StepsNonDecreasing(init) by {
        forall i | 0 < i < |init| ensures init[i - 1] <= init[i] {
          assert init[i - 1] == xs[i - 1] && init[i] == xs[i];
        }
      }
      StepsIffNonDecreasing(init);
      forall i, j | 0 <= i < j < |xs| ensures xs[i] <= xs[j] {
        if j < |xs| - 1 {
          assert xs[i] == init[i] && xs[j] == init[j];
        } else if i < j - 1 {
          assert xs[i] == init[i] && xs[j - 1] == init[j - 1];
        }
      }
    }
  }

  predicate StrictlyIncreasing(xs: seq<int>)
  {
    forall i, j :: 0 <= i < j < |xs| ==> xs[i] < xs[j]
  }

  predicate StepsIncreasing(xs: seq<int>)
  {
    forall i :: 0 < i < |xs| ==> xs[i - 1] < xs[i]
  }

  lemma {:induction false} StepsIffIncreasing(xs: seq<int>)
    ensures StepsIncreasing(xs) <==> StrictlyIncreasing(xs)
    decreases |xs|
  {
    if |xs| >= 2 && StepsIncreasing(xs) {
      var init := xs[..|xs| - 1];
      assert StepsIncreasing(init) by {
        forall i | 0 < i < |init| ensures init[i - 1] < init[i] {
          assert init[i - 1] == xs[i - 1] && init[i] == xs[i];
        }
      }
      StepsIffIncreasing(init);
      forall i, j | 0 <= i < j < |xs| ensures xs[i] < xs[j] {
        if j < |xs| - 1 {
          assert xs[i] == init[i] && xs[j] == init[j];
        } else if i < j - 1 {
          assert xs[i] == init[i] && xs[j - 1] == init[j - 1];
        }
      }
    }
  }

  /** Appending keeps a strictly increasing sequence so exactly when the
      new value is above the last one. */
  lemma StepsIncreasingSnoc(xs: seq<int>, c: int)
    ensures StepsIncreasing(xs + [c]) <==> StepsIncreasing(xs) && (xs == [] || xs[|xs| - 1] < c)
  {
    var ys := xs + [c];
    if StepsIncreasing(ys) {
      forall i | 0 < i < |xs| ensures xs[i - 1] < xs[i] {
        assert xs[i - 1] == ys[i - 1] && xs[i] == ys[i];
      }
      if xs != [] {
        assert ys[|xs| - 1] == xs[|xs| - 1] && ys[|xs|] == c;
      }
    }
    if StepsIncreasing(xs) && (xs == [] || xs[|xs| - 1] < c) {
      forall i | 0 < i < |ys| ensures ys[i - 1] < ys[i] {
        if i < |xs| {
          assert xs[i - 1] == ys[i - 1] && xs[i] == ys[i];
        }
      }
    }
  }

  /** Whether a checker looks at `key` in `ev`; with `nullSkips` a JSON null
      counts as absent (`ev.get(key) is None`), otherwise only presence of
      the key matters (`key in ev`). */
  predicate Counted(ev: Event, key: string, nullSkips: bool)
  {
    key in ev && !(nullSkips && ev[key] == VNull)
  }

  /** Every value a checker compares is int-like (the source raises on
      values it cannot order). */
  predicate IntsWhereCounted(events: seq<Event>, key: string, nullSkips: bool)
  {
    forall i :: 0 <= i < |events| && Counted(events[i], key, nullSkips) ==> IsPyInt(events[i][key])
  }

  /** The compared values of the first `n` events, in order. */
  function CountedInts(events: seq<Event>, key: string, nullSkips: bool, n: nat): seq<int>
    requires n <= |events| && IntsWhereCounted(events, key, nullSkips)
    decreases n
  {
    if n == 0 then []
    else CountedInts(events, key, nullSkips, n - 1)
         + (if Counted(events[n - 1], key, nullSkips) then [AsInt(events[n - 1][key])] else [])
  }

  /** When every event has the key, every event's value is compared. */
  lemma {:induction false} CountedIntsLength(events: seq<Event>, key: string, n: nat)
    requires n <= |events| && IntsWhereCounted(events, key, false)
    requires forall i :: 0 <= i < |events| ==> key in events[i]
    ensures |CountedInts(events, key, false, n)| == n
    decreases n
  {
    if n > 0 {
      CountedIntsLength(events, key, n - 1);
    }
  }

  /** A compared value of an event before `n` is among the first `n`
      compared values. */
  lemma {:induction false} CountedIntsContain(events: seq<Event>, key: string, nullSkips: bool, i: nat, n: nat)
    requires i < n <= |events| && IntsWhereCounted(events, key, nullSkips)
    requires Counted(events[i], key, nullSkips)
    ensures AsInt(events[i][key]) in CountedInts(events, key, nullSkips, n)
    decreases n
  {
    if i < n - 1 {
      CountedIntsContain(events, key, nullSkips, i, n - 1);
    }
  }

  /** An event whose value is below the previous compared value. */
  datatype Decrease = Decrease(index: nat, value: int, previous: int)

  /** Every decrease among the first `n` events, in order; each value is
      compared with the last compared value before it. */
  function Decreases(events: seq<Event>, key: string, nullSkips: bool, n: nat): seq<Decrease>
    requires n <= |events| && IntsWhereCounted(events, key, nullSkips)
    decreases n
  {
    if n == 0 then []
    else
      var before := CountedInts(events, key, nullSkips, n - 1);
      Decreases(events, key, nullSkips, n - 1)
      + (if Counted(events[n - 1], key, nullSkips) && before != [] && AsInt(events[n - 1][key]) < before[|before| - 1]
         then [Decrease(n - 1, AsInt(events[n - 1][key]), before[|before| - 1])] else [])
  }

  /** There is no decrease exactly when the compared values are
      non-decreasing. */
  lemma {:induction false} NoDecreasesIffSorted(events: seq<Event>, key: string, nullSkips: bool, n: nat)
    requires n <= |events| && IntsWhereCounted(events, key, nullSkips)
    ensures Decreases(events, key, nullSkips, n) == [] <==> StepsNonDecreasing(CountedInts(events, key, nullSkips, n))
    decreases n
  {
    if n > 0 {
      NoDecreasesIffSorted(events, key, nullSkips, n - 1);
      var before := CountedInts(events, key, nullSkips, n - 1);
      var now := CountedInts(events, key, nullSkips, n);
      if Counted(events[n - 1], key, nullSkips) {
        assert now == before + [AsInt(events[n - 1][key])];
        var added := if before != [] && AsInt(events[n - 1][key]) < before[|before| - 1]
                      then [Decrease(n - 1, AsInt(events[n - 1][key]), before[|before| - 1])] else [];
        assert Decreases(events, key, nullSkips, n) == Decreases(events, key, nullSkips, n - 1) + added;
        if StepsNonDecreasing(now) {
          assert StepsNonDecreasing(before) by {
            forall i | 0 < i < |before| ensures before[i - 1] <= before[i] {
              assert before[i - 1] == now[i - 1] && before[i] == now[i];
            }
          }
        }
        if StepsNonDecreasing(before) && (before != [] ==> before[|before| - 1] <= AsInt(events[n - 1][key])) {
          forall i | 0 < i < |now| ensures now[i - 1] <= now[i] {
            if i < |before| {
              assert before[i - 1] == now[i - 1] && before[i] == now[i];
            }
          }
        } else if StepsNonDecreasing(before) {
          assert now[|before| - 1] == before[|before| - 1] && now[|before|] == AsInt(events[n - 1][key]);
        }
      } else {
        assert now == before;
      }
    }
  }

  /** The scan shared by the monotonicity checks: remembers the last
      compared value and reports every value below it. */
  method FindDecreases(events: seq<Event>, key: string, nullSkips: bool) returns (ds: seq<Decrease>)
    requires IntsWhereCounted(events, key, nullSkips)
    ensures ds == Decreases(events, key, nullSkips, |events|)
    ensures ds == [] <==> NonDecreasing(CountedInts(events, key, nullSkips, |events|))
  {
    ds := [];
    var last: Option<int> := None;
    var i := 0;
    while i < |events|
      invariant 0 <= i <= |events|
      invariant ds == Decreases(events, key, nullSkips, i)
      invariant var before := CountedInts(events, key, nullSkips, i);
                (last.None? <==> before == []) && (last.Some? ==> last.value == before[|before| - 1])
    {
      var ev := events[i];
      if key in ev && !(nullSkips && ev[key] == VNull) {
        var v := AsInt(ev[key]);
        if last.Some? && v < last.value {
          ds := ds + [Decrease(i, v, last.value)];
        }
        last := Some(v);
      }
      i := i + 1;
    }
    NoDecreasesIffSorted(events, key, nullSkips, |events|);
    StepsIffNonDecreasing(CountedInts(events, key, nullSkips, |events|));
  }

  /** The number of events named `name`. */
  function CountNamed(events: seq<Event>, name: string): (c: nat)
    ensures c <= |events|
    ensures c == 0 <==> forall i :: 0 <= i < |events| ==> !IsNamed(events[i], name)
    decreases |events|
  {
    if events == [] then 0
    else CountNamed(events[..|events| - 1], name) + (if IsNamed(events[|events| - 1], name) then 1 else 0)
  }

  /** Some event is named `name`. */
  predicate HasNamed(events: seq<Event>, name: string)
  {
    exists i :: 0 <= i < |events| && IsNamed(events[i], name)
  }

  /** The events named `name`, in order (`[e for e in events if
      e["event"] == name]`). */
  function Named(events: seq<Event>, name: string): (r: seq<Event>)
    ensures |r| <= |events|
    decreases |events|
  {
    if events == [] then []
    else Named(events[..|events| - 1], name) + (if IsNamed(events[|events| - 1], name) then [events[|events| - 1]] else [])
  }

  /** The filtered events are the events of that name, as many as
      CountNamed counts, the first being the first such event. */
  lemma {:induction false} NamedFacts(events: seq<Event>, name: string)
    ensures var r := Named(events, name);
            |r| == CountNamed(events, name)
            && (r == [] <==> !HasNamed(events, name))
            && (forall e :: e in r ==> e in events && IsNamed(e, name))
    ensures Named(events, name) != [] ==>
              exists i :: 0 <= i < |events| && events[i] == Named(events, name)[0] && IsNamed(events[i], name)
                          && forall j :: 0 <= j < i ==> !IsNamed(events[j], name)
    decreases |events|
  {
    if events != [] {
      var init := events[..|events| - 1];
      NamedFacts(init, name);
      var r, before := Named(events, name), Named(init, name);
      forall e | e in r ensures e in events && IsNamed(e, name) {
        if e in before {
          var k :| 0 <= k < |init| && init[k] == e;
          assert events[k] == e;
        }
      }
      if HasNamed(events, name) && !IsNamed(events[|events| - 1], name) {
        var i :| 0 <= i < |events| && IsNamed(events[i], name);
        assert init[i] == events[i];
      }
      if before != [] {
        var i :| 0 <= i < |init| && init[i] == before[0] && IsNamed(init[i], name)
                 && forall j :: 0 <= j < i ==> !IsNamed(init[j], name);
        assert r[0] == before[0];
        assert events[i] == init[i];
        forall j | 0 <= j < i ensures !IsNamed(events[j], name) {
          assert events[j] == init[j];
        }
      } else if r != [] {
        assert !HasNamed(init, name);
        forall j | 0 <= j < |events| - 1 ensures !IsNamed(events[j], name) {
          assert events[j] == init[j];
        }
      }
    }
  }

  /** The set of event names (`{e["event"] for e in events}`). */
  function Names(events: seq<Event>): (s: set<Value>)
    requires forall i :: 0 <= i < |events| ==> "event" in events[i]
    ensures forall name :: VStr(name) in s <==> HasNamed(events, name)
  {
    set i | 0 <= i < |events| :: events[i]["event"]
  }
}
