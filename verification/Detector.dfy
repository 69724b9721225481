/**
 The burn-rate spike detector: a state per SLO, updated in place by each call, and a cooldown
 between detections. A call reads the clock twice: once to test the cooldown and, when it
 detects, once more to stamp the detection.
 */
module Detector {
  import opened Arithmetic
  import opened Strings

  const CRITICAL_THRESHOLD := 14.0
  const DEGRADED_THRESHOLD := 6.0
  const WARNING_THRESHOLD := 1.0

  /** Nanoseconds; the largest value of a signed 64-bit duration. */
  const MAX_DURATION: int := 0x7FFF_FFFF_FFFF_FFFF

  /** The zero time lies so far in the past that the time since then saturates. */
  datatype Stamp = Never | At(t: int)

  /** time.Since with its saturation, for a clock that shows `now`. */
  function Since(stamp: Stamp, now: int): int {
    match stamp
    case Never => MAX_DURATION
    case At(t) => if now - t > MAX_DURATION then MAX_DURATION else now - t
  }

  datatype Spike = Spike(detected: bool, severity: string, current: real, previous: real, crossed: real)

  /** The state of one SLO as a value. */
  datatype State = State(previous: real, last: Stamp)

  type View = map<string, State>

  function Key(namespace: string, name: string): string {
    namespace + "/" + name
  }

  // ----- one call, as a function on the state of its SLO -----

  /** Which threshold, if any, lies between the previous and the current rate. */
  function Crossing(previous: real, current: real): Option<(string, real)> {
    if current > CRITICAL_THRESHOLD && previous <= CRITICAL_THRESHOLD then Some(("critical", CRITICAL_THRESHOLD))
    else if current > DEGRADED_THRESHOLD && previous <= DEGRADED_THRESHOLD then Some(("degraded", DEGRADED_THRESHOLD))
    else if current > WARNING_THRESHOLD && previous <= WARNING_THRESHOLD then Some(("warning", WARNING_THRESHOLD))
    else None
  }

  function Step(state: Option<State>, cooldown: int, rate: real, tested: int, stamped: int): (State, Spike) {
    match state
    case None => (State(rate, Never), Spike(false, "", rate, 0.0, 0.0))
    case Some(s) =>
      if Since(s.last, tested) < cooldown then (State(rate, s.last), Spike(false, "", rate, s.previous, 0.0))
      else
        match Crossing(s.previous, rate)
        case None => (State(rate, s.last), Spike(false, "", rate, s.previous, 0.0))
        case Some(c) => (State(rate, At(stamped)), Spike(true, c.0, rate, s.previous, c.1))
  }

  function Lookup(view: View, key: string): Option<State> {
    if key in view then Some(view[key]) else None
  }

  // ----- the detector object -----

  class BurnRateState {
    var previousBurnRate: real
    var lastCorrelation: Stamp

    constructor (rate: real)
      ensures previousBurnRate == rate && lastCorrelation == Never
    {
      previousBurnRate := rate;
      lastCorrelation := Never;
    }
  }

  class AnomalyDetector {
    var states: map<string, BurnRateState>
    const cooldown: int

    /** No two keys share a state object. */
    ghost predicate Valid()
      reads this
    {
      forall j, k | j in states && k in states && j != k :: states[j] != states[k]
    }

    /** The states by key, as values. */
    ghost function Model(): View
      reads this, states.Values
    {
      map k | k in states :: State(states[k].previousBurnRate, states[k].lastCorrelation)
    }

    constructor (cooldown: int)
      ensures Valid() && this.cooldown == cooldown && states == map[]
    {
      this.states := map[];
      this.cooldown := cooldown;
    }

    method DetectSpike(namespace: string, name: string, rate: real, tested: int, stamped: int) returns (result: Spike)
      requires Valid()
      modifies this, states.Values
      ensures Valid() && fresh(states.Values - old(states.Values))
      ensures var step := Step(Lookup(old(Model()), Key(namespace, name)), cooldown, rate, tested, stamped);
              && Model() == old(Model())[Key(namespace, name) := step.0]
              && result == step.1
    {
      var key := namespace + "/" + name;
      if key !in states {
        var state := new BurnRateState(rate);
        states := states[key := state];
        return Spike(false, "", rate, 0.0, 0.0);
      }
      var state := states[key];
      var previous := state.previousBurnRate;
      state.previousBurnRate := rate;
      if Since(state.lastCorrelation, tested) < cooldown {
        return Spike(false, "", rate, previous, 0.0);
      }
      if rate > CRITICAL_THRESHOLD && previous <= CRITICAL_THRESHOLD {
        state.lastCorrelation := At(stamped);
        return Spike(true, "critical", rate, previous, CRITICAL_THRESHOLD);
      }
      if rate > DEGRADED_THRESHOLD && previous <= DEGRADED_THRESHOLD {
        state.lastCorrelation := At(stamped);
        return Spike(true, "degraded", rate, previous, DEGRADED_THRESHOLD);
      }
      if rate > WARNING_THRESHOLD && previous <= WARNING_THRESHOLD {
        state.lastCorrelation := At(stamped);
        return Spike(true, "warning", rate, previous, WARNING_THRESHOLD);
      }
      return Spike(false, "", rate, previous, 0.0);
    }

    method GetState(namespace: string, name: string) returns (state: Option<State>)
      ensures state == Lookup(Model(), Key(namespace, name))
    {
      var key := namespace + "/" + name;
      if key in states {
        state := Some(State(states[key].previousBurnRate, states[key].lastCorrelation));
      } else {
        state := None;
      }
    }

    method ResetCooldown(namespace: string, name: string)
      requires Valid()
      modifies states.Values
      ensures Valid() && states == old(states)
      ensures var key := Key(namespace, name); var before := old(Model());
              Model() == if key in before then before[key := before[key].(last := Never)] else before
    {
      var key := namespace + "/" + name;
      if key in states {
        states[key].lastCorrelation := Never;
      }
    }

    method Clear()
      modifies this
      ensures Valid() && states == map[] && Model() == map[]
    {
      states := map[];
    }
  }

  // ----- runs -----

  datatype Call = Call(namespace: string, name: string, rate: real, tested: int, stamped: int)

  function KeyOf(c: Call): string {
    Key(c.namespace, c.name)
  }

  /** The states after a run of calls, and the result of each call. */
  function Run(cooldown: int, calls: seq<Call>): (r: (View, seq<Spike>))
    ensures |r.1| == |calls|
  {
    if |calls| == 0 then (map[], []) else
      var c := calls[|calls| - 1];
      var (view, results) := Run(cooldown, calls[..|calls| - 1]);
      var step := Step(Lookup(view, KeyOf(c)), cooldown, c.rate, c.tested, c.stamped);
      (view[KeyOf(c) := step.0], results + [step.1])
  }

  /** A new detector, called over and over, gives the results of the run. */
  method Replay(cooldown: int, calls: seq<Call>) returns (results: seq<Spike>)
    ensures results == Run(cooldown, calls).1
  {
    var d := new AnomalyDetector(cooldown);
    results := [];
    for i := 0 to |calls|
      invariant d.Valid() && d.cooldown == cooldown && fresh(d) && fresh(d.states.Values)
      invariant (d.Model(), results) == Run(cooldown, calls[..i])
    {
      assert calls[..i + 1][..i] == calls[..i];
      var c := calls[i];
      var result := d.DetectSpike(c.namespace, c.name, c.rate, c.tested, c.stamped);
      results := results + [result];
    }
    assert calls[..|calls|] == calls;
  }

  /** The calls of a run that concern one key. */
  function CallsFor(key: string, calls: seq<Call>): seq<Call> {
    if |calls| == 0 then [] else
      var c := calls[|calls| - 1];
      CallsFor(key, calls[..|calls| - 1]) + if KeyOf(c) == key then [c] else []
  }

  /** The results that these calls obtained. */
  function ResultsFor(key: string, calls: seq<Call>, results: seq<Spike>): seq<Spike>
    requires |results| == |calls|
  {
    if |calls| == 0 then [] else
      var n := |calls| - 1;
      ResultsFor(key, calls[..n], results[..n]) + if KeyOf(calls[n]) == key then [results[n]] else []
  }

  /** Kubernetes namespaces hold no slash, so two SLOs share a key only if they are the same. */
  lemma KeyInjective(a: string, m: string, b: string, n: string)
    requires '/' !in a && '/' !in b
    ensures Key(a, m) == Key(b, n) <==> a == b && m == n
  {
    CutApart("", '/', a, m, b, n);
    assert "" + a + ['/'] + m == Key(a, m) && "" + b + ['/'] + n == Key(b, n);
  }

  /** With slashes in namespaces two SLOs would share one state. */
  lemma SlashedNamespacesCollide()
    ensures Key("a/b", "c") == Key("a", "b/c")
  {
    assert Key("a/b", "c") == "a/b/c" == Key("a", "b/c");
  }

  /** Some names in two namespaces share a key exactly when one namespace begins with the other and a slash. */
  lemma CollideExactly(a: string, b: string)
    requires a != b
    ensures (exists m, n :: Key(a, m) == Key(b, n)) <==> a + "/" <= b || b + "/" <= a
  {
    if m, n :| Key(a, m) == Key(b, n) {
      if |a| <= |b| {
        LongerHolds(a, m, b, n);
      } else {
        LongerHolds(b, n, a, m);
      }
    }
    if a + "/" <= b {
      var m := b[|a| + 1..] + "/";
      assert b == a + "/" + b[|a| + 1..];
      assert Key(a, m) == Key(b, "");
    }
    if b + "/" <= a {
      var n := a[|b| + 1..] + "/";
      assert a == b + "/" + a[|b| + 1..];
      assert Key(a, "") == Key(b, n);
    }
  }

  lemma LongerHolds(a: string, m: string, b: string, n: string)
    requires a != b && |a| <= |b| && Key(a, m) == Key(b, n)
    ensures a + "/" <= b
  {
    var s := Key(a, m);
    assert s[..|a|] == a && s[..|b|] == b;
    assert |a| != |b|;
    assert s[|a|] == '/' && b[|a|] == s[|a|];
    assert b[..|a|] == s[..|b|][..|a|] == a;
    assert b[..|a| + 1] == a + "/";
  }

  /**
   In every interleaved run over many SLOs, one SLO's results and final state are those of the
   run of its own calls alone.
   */
  lemma {:induction false} RunsIndependent(cooldown: int, calls: seq<Call>, key: string)
    ensures var (view, results) := Run(cooldown, calls);
            var (alone, own) := Run(cooldown, CallsFor(key, calls));
            Lookup(view, key) == Lookup(alone, key) && ResultsFor(key, calls, results) == own
  {
    if |calls| == 0 {
    } else {
      var n := |calls| - 1;
      RunsIndependent(cooldown, calls[..n], key);
      var results := Run(cooldown, calls).1;
      assert results[..n] == Run(cooldown, calls[..n]).1;
      var own, before := CallsFor(key, calls), CallsFor(key, calls[..n]);
      if KeyOf(calls[n]) == key {
        assert own == before + [calls[n]];
        assert own[..|own| - 1] == before && own[|own| - 1] == calls[n];
      } else {
        assert own == before;
      }
    }
  }

  // ----- one SLO over time -----

  /** Bands of the burn rate: 0 calm, 1 warning, 2 degraded, 3 critical. */
  function Band(rate: real): nat {
    if rate > CRITICAL_THRESHOLD then 3
    else if rate > DEGRADED_THRESHOLD then 2
    else if rate > WARNING_THRESHOLD then 1
    else 0
  }

  function BandName(band: nat): string {
    if band == 3 then "critical" else if band == 2 then "degraded" else "warning"
  }

  /** The cut below a band. */
  function BandCut(band: nat): real {
    if band == 3 then CRITICAL_THRESHOLD else if band == 2 then DEGRADED_THRESHOLD else WARNING_THRESHOLD
  }

  /** A crossing is a rise of the band; its severity is the new band and its threshold the cut below it. */
  lemma CrossingIsRise(previous: real, current: real)
    ensures Crossing(previous, current).Some? <==> Band(current) > Band(previous)
    ensures Crossing(previous, current).Some? ==>
              Crossing(previous, current).value == (BandName(Band(current)), BandCut(Band(current)))
  {
  }

  /** All calls concern one SLO, and the clock never runs backwards within or between calls. */
  ghost predicate History(calls: seq<Call>, key: string) {
    && (forall i | 0 <= i < |calls| :: KeyOf(calls[i]) == key && calls[i].tested <= calls[i].stamped)
    && (forall i, j | 0 <= i < j < |calls| :: calls[i].stamped <= calls[j].tested)
  }

  /** After a history: the last rate, and the stamp of the last detection. */
  ghost predicate Remembers(state: State, calls: seq<Call>, results: seq<Spike>)
    requires |results| == |calls| && |calls| > 0
  {
    && state.previous == calls[|calls| - 1].rate
    && (state.last == Never ==> forall i | 0 <= i < |calls| :: !results[i].detected)
    && (state.last.At? ==>
          exists i :: 0 <= i < |calls| && results[i].detected && state.last.t == calls[i].stamped
                      && forall j | i < j < |calls| :: !results[j].detected)
  }

  lemma {:induction false} HistoryState(cooldown: int, calls: seq<Call>, key: string)
    requires |calls| > 0 && History(calls, key)
    ensures var (view, results) := Run(cooldown, calls);
            key in view && Remembers(view[key], calls, results)
  {
    var n := |calls| - 1;
    var (before, earlier) := Run(cooldown, calls[..n]);
    var (view, results) := Run(cooldown, calls);
    if n == 0 {
      assert before == map[];
    } else {
      HistoryState(cooldown, calls[..n], key);
      assert forall i | 0 <= i < n :: results[i] == earlier[i];
      if results[n].detected {
        assert view[key].last == At(calls[n].stamped);
      } else {
        assert view[key].last == before[key].last;
        if view[key].last.At? {
          var i :| 0 <= i < n && earlier[i].detected && view[key].last.t == calls[i].stamped
            && forall j | i < j < n :: !earlier[j].detected;
          assert results[i].detected && forall j | i < j < n + 1 :: !results[j].detected;
        }
      }
    }
  }

  /** The cooldown has elapsed since every detection among the first k calls. */
  ghost predicate Rested(cooldown: int, calls: seq<Call>, results: seq<Spike>, k: nat)
    requires |results| == |calls| && k < |calls|
  {
    forall i | 0 <= i < k && results[i].detected :: calls[k].tested - calls[i].stamped >= cooldown
  }

  lemma {:induction false} RunPrefix(cooldown: int, calls: seq<Call>, k: nat)
    requires k <= |calls|
    ensures Run(cooldown, calls).1[..k] == Run(cooldown, calls[..k]).1
  {
    var n := |calls| - 1;
    if k == |calls| {
      assert calls[..k] == calls;
    } else {
      RunPrefix(cooldown, calls[..n], k);
      assert calls[..n][..k] == calls[..k];
      assert Run(cooldown, calls).1[..k] == Run(cooldown, calls[..n]).1[..k];
    }
  }

  /** The result of call k, from the state that the calls before it left. */
  lemma StepAt(cooldown: int, calls: seq<Call>, k: nat)
    requires k < |calls|
    ensures var view := Run(cooldown, calls[..k]).0; var c := calls[k];
            Run(cooldown, calls).1[k] == Step(Lookup(view, KeyOf(c)), cooldown, c.rate, c.tested, c.stamped).1
  {
    RunPrefix(cooldown, calls, k + 1);
    assert calls[..k + 1][..k] == calls[..k];
    assert Run(cooldown, calls).1[k] == Run(cooldown, calls).1[..k + 1][k];
  }

  /** Since the last detection long enough ago means since every detection long enough ago. */
  lemma CooldownMeaning(cooldown: int, calls: seq<Call>, results: seq<Spike>, key: string, k: nat, state: State)
    requires 0 < k < |calls| && |results| == |calls| && History(calls, key) && cooldown <= MAX_DURATION
    requires Remembers(state, calls[..k], results[..k])
    ensures Since(state.last, calls[k].tested) >= cooldown <==> Rested(cooldown, calls, results, k)
  {
    if state.last.At? {
      var i :| 0 <= i < k && results[..k][i].detected && state.last.t == calls[..k][i].stamped
        && forall j | i < j < k :: !results[..k][j].detected;
      assert results[i].detected;
      assert forall j | i < j < k :: !results[..k][j].detected && results[..k][j] == results[j];
      forall j | 0 <= j < k && results[j].detected ensures calls[j].stamped <= calls[i].stamped {
        if j < i {
          assert calls[j].stamped <= calls[i].tested <= calls[i].stamped;
        }
      }
    } else {
      assert forall i | 0 <= i < k :: results[..k][i] == results[i];
    }
  }

  /**
   Over every history of one key: call k detects exactly when it is not the first, its band is
   strictly above the band of the call before, and the cooldown has elapsed since every earlier
   detection; severity and crossed threshold are then those of the sample's band. Every result
   carries the sample and the one before it.
   */
  lemma DetectionAlone(cooldown: int, calls: seq<Call>, key: string, k: nat)
    requires History(calls, key) && k < |calls| && cooldown <= MAX_DURATION
    ensures var results := Run(cooldown, calls).1;
            && (results[k].detected <==>
                  k > 0 && Band(calls[k].rate) > Band(calls[k - 1].rate) && Rested(cooldown, calls, results, k))
            && (results[k].detected ==>
                  && results[k].severity == BandName(Band(calls[k].rate))
                  && results[k].crossed == BandCut(Band(calls[k].rate)))
            && results[k].current == calls[k].rate && results[k].previous == (if k > 0 then calls[k - 1].rate else 0.0)
  {
    var results := Run(cooldown, calls).1;
    StepAt(cooldown, calls, k);
    if k > 0 {
      HistoryState(cooldown, calls[..k], key);
      RunPrefix(cooldown, calls, k);
      var state := Run(cooldown, calls[..k]).0[key];
      CooldownMeaning(cooldown, calls, results, key, k, state);
      CrossingIsRise(calls[k - 1].rate, calls[k].rate);
    } else {
      assert calls[..0] == [];
    }
  }

  /** Number of detections among the calls. */
  function Detections(results: seq<Spike>): nat {
    if |results| == 0 then 0 else
      Detections(results[..|results| - 1]) + if results[|results| - 1].detected then 1 else 0
  }

  /** The detections from call `a` up to call k span at least (count - 1) cooldowns. */
  lemma {:induction false} DetectionsSpan(cooldown: int, calls: seq<Call>, key: string, a: nat, k: nat)
    returns (last: nat)
    requires History(calls, key) && a <= k <= |calls| && 0 < cooldown <= MAX_DURATION
    requires Detections(Run(cooldown, calls).1[a..k]) > 0
    ensures a <= last < k && Run(cooldown, calls).1[last].detected
    ensures calls[last].stamped - calls[a].tested >= (Detections(Run(cooldown, calls).1[a..k]) - 1) * cooldown
    decreases k
  {
    hide Run;
    var results := Run(cooldown, calls).1;
    var n := k - 1;
    assert results[a..k][..n - a] == results[a..n];
    if !results[n].detected {
      last := DetectionsSpan(cooldown, calls, key, a, n);
    } else {
      last := n;
      if Detections(results[a..n]) > 0 {
        var p := DetectionsSpan(cooldown, calls, key, a, n);
        DetectionAlone(cooldown, calls, key, n);
        NextMultiple(Detections(results[a..n]) - 1, cooldown);
      } else if a < n {
        assert calls[a].stamped <= calls[n].tested;
      }
    }
  }

  lemma BoundAlone(cooldown: int, calls: seq<Call>, key: string, a: nat, k: nat, t: nat)
    requires History(calls, key) && a < k <= |calls| && 0 < cooldown <= MAX_DURATION
    requires calls[k - 1].stamped - calls[a].tested <= t
    ensures Detections(Run(cooldown, calls).1[a..k]) <= 1 + t / cooldown
  {
    hide Detections, Run;
    var d := Detections(Run(cooldown, calls).1[a..k]);
    if d > 0 {
      var last := DetectionsSpan(cooldown, calls, key, a, k);
      assert calls[last].stamped <= calls[k - 1].stamped by {
        if last < k - 1 { assert calls[last].stamped <= calls[k - 1].tested; }
      }
      Quotient(d - 1, cooldown, t);
    }
  }

  lemma TimesMonotone(m: int, k: int, c: int)
    requires c > 0 && m <= k
    ensures m * c <= k * c
  {
  }

  lemma Quotient(m: int, c: int, t: nat)
    requires c > 0 && m * c <= t
    ensures m <= t / c
  {
    if m > t / c {
      TimesMonotone(t / c + 1, m, c);
      DivMod(t, c);
      NextMultiple(t / c, c);
      assert false;
    }
  }

  // ----- one SLO in an interleaved run -----

  /** Calls are atomic: the clock never runs backwards, within a call or from one to the next. */
  ghost predicate Clocked(calls: seq<Call>) {
    && (forall i | 0 <= i < |calls| :: calls[i].tested <= calls[i].stamped)
    && (forall i, j | 0 <= i < j < |calls| :: calls[i].stamped <= calls[j].tested)
  }

  /** Namespaces as Kubernetes admits them. */
  ghost predicate SlashFree(calls: seq<Call>) {
    forall i | 0 <= i < |calls| :: '/' !in calls[i].namespace
  }

  /** The calls of a run for one SLO. */
  function SloCalls(namespace: string, name: string, calls: seq<Call>): seq<Call> {
    if |calls| == 0 then [] else
      var c := calls[|calls| - 1];
      SloCalls(namespace, name, calls[..|calls| - 1]) + if c.namespace == namespace && c.name == name then [c] else []
  }

  /** The results that these calls obtained. */
  function SloResults(namespace: string, name: string, calls: seq<Call>, results: seq<Spike>): (own: seq<Spike>)
    requires |results| == |calls|
    ensures |own| == |SloCalls(namespace, name, calls)|
  {
    if |calls| == 0 then [] else
      var n := |calls| - 1;
      SloResults(namespace, name, calls[..n], results[..n])
      + if calls[n].namespace == namespace && calls[n].name == name then [results[n]] else []
  }

  lemma {:induction false} SameAsKey(namespace: string, name: string, calls: seq<Call>, results: seq<Spike>)
    requires '/' !in namespace && SlashFree(calls) && |results| == |calls|
    ensures SloCalls(namespace, name, calls) == CallsFor(Key(namespace, name), calls)
    ensures SloResults(namespace, name, calls, results) == ResultsFor(Key(namespace, name), calls, results)
  {
    hide Key;
    if |calls| == 0 {
    } else {
      var n := |calls| - 1;
      SameAsKey(namespace, name, calls[..n], results[..n]);
      KeyInjective(calls[n].namespace, calls[n].name, namespace, name);
    }
  }

  lemma {:induction false} OwnHistory(calls: seq<Call>, key: string)
    requires Clocked(calls)
    ensures History(CallsFor(key, calls), key)
    ensures forall c | c in CallsFor(key, calls) :: c in calls
  {
    if |calls| == 0 {
    } else {
      var n := |calls| - 1;
      OwnHistory(calls[..n], key);
      var before, own := CallsFor(key, calls[..n]), CallsFor(key, calls);
      forall i | 0 <= i < |before| ensures before[i] in calls[..n] && before[i].stamped <= calls[n].tested {
        assert before[i] in calls[..n];
      }
    }
  }

  /** An SLO's calls in a run are a history of its own, and its results are those of that history. */
  lemma OwnRun(cooldown: int, calls: seq<Call>, namespace: string, name: string)
    requires Clocked(calls) && SlashFree(calls) && '/' !in namespace
    ensures var own := SloCalls(namespace, name, calls);
            && History(own, Key(namespace, name))
            && SloResults(namespace, name, calls, Run(cooldown, calls).1) == Run(cooldown, own).1
  {
    hide History, Run, CallsFor, ResultsFor, SloCalls, SloResults, Lookup;
    SameAsKey(namespace, name, calls, Run(cooldown, calls).1);
    OwnHistory(calls, Key(namespace, name));
    RunsIndependent(cooldown, calls, Key(namespace, name));
  }

  /**
   In every interleaved run over many SLOs: the k-th call of one SLO detects exactly when it is
   not the SLO's first, its band is strictly above the band of the SLO's call before, and the
   cooldown has elapsed since every earlier detection of that SLO; severity and crossed
   threshold are then those of the sample's band. Every result carries the sample and the one
   before it.
   */
  lemma DetectionExactly(cooldown: int, calls: seq<Call>, namespace: string, name: string, k: nat)
    requires Clocked(calls) && SlashFree(calls) && '/' !in namespace && cooldown <= MAX_DURATION
    requires k < |SloCalls(namespace, name, calls)|
    ensures var own := SloCalls(namespace, name, calls);
            var results := SloResults(namespace, name, calls, Run(cooldown, calls).1);
            && |results| == |own|
            && (results[k].detected <==>
                  k > 0 && Band(own[k].rate) > Band(own[k - 1].rate) && Rested(cooldown, own, results, k))
            && (results[k].detected ==>
                  && results[k].severity == BandName(Band(own[k].rate))
                  && results[k].crossed == BandCut(Band(own[k].rate)))
            && results[k].current == own[k].rate && results[k].previous == (if k > 0 then own[k - 1].rate else 0.0)
  {
    hide History, Run, SloCalls, SloResults, Key, Rested;
    OwnRun(cooldown, calls, namespace, name);
    DetectionAlone(cooldown, SloCalls(namespace, name, calls), Key(namespace, name), k);
  }

  /**
   The detection law with its three cuts. In every interleaved run, the k-th call of one SLO is
   answered with `critical` exactly when the cooldown is over and the rate has come from at most
   14 to above 14; with `degraded` when it has come from at most 6 to above 6, but not above 14;
   with `warning` when it has come from at most 1 to above 1, but not above 6; and with nothing
   otherwise. The crossed threshold is that cut.
   */
  lemma DetectionByCuts(cooldown: int, calls: seq<Call>, namespace: string, name: string, k: nat)
    requires Clocked(calls) && SlashFree(calls) && '/' !in namespace && cooldown <= 0x7FFF_FFFF_FFFF_FFFF
    requires k < |SloCalls(namespace, name, calls)|
    ensures var own := SloCalls(namespace, name, calls);
            var results := SloResults(namespace, name, calls, Run(cooldown, calls).1);
            var r, now, before := results[k], own[k].rate, if k > 0 then own[k - 1].rate else own[k].rate;
            var due := k > 0 && Rested(cooldown, own, results, k);
            && (r.detected && r.severity == "critical" <==> due && before <= 14.0 < now)
            && (r.detected && r.severity == "degraded" <==> due && before <= 6.0 < now <= 14.0)
            && (r.detected && r.severity == "warning" <==> due && before <= 1.0 < now <= 6.0)
            && (r.detected ==>
                  || (r.severity == "critical" && r.crossed == 14.0)
                  || (r.severity == "degraded" && r.crossed == 6.0)
                  || (r.severity == "warning" && r.crossed == 1.0))
  {
    hide Run, SloCalls, SloResults, Clocked, SlashFree, Rested;
    DetectionExactly(cooldown, calls, namespace, name, k);
    assert "critical" != "degraded" && "critical" != "warning" && "degraded" != "warning";
  }

  /**
   A rise inside the cooldown is not made up for. The SLO's band rises at call `from` before the
   cooldown has elapsed, then never rises again up to call k, where the cooldown is over and the
   band is still above what it was before the rise: nothing is detected at any of these calls.
   */
  lemma MissedRiseStaysMissed(cooldown: int, calls: seq<Call>, namespace: string, name: string, from: nat, k: nat)
    requires Clocked(calls) && SlashFree(calls) && '/' !in namespace && cooldown <= MAX_DURATION
    requires 0 < from < k < |SloCalls(namespace, name, calls)|
    requires var own := SloCalls(namespace, name, calls);
             var results := SloResults(namespace, name, calls, Run(cooldown, calls).1);
             && Band(own[from].rate) > Band(own[from - 1].rate) && !Rested(cooldown, own, results, from)
             && (forall i | from < i <= k :: Band(own[i].rate) <= Band(own[i - 1].rate))
             && Band(own[k].rate) > Band(own[from - 1].rate) && Rested(cooldown, own, results, k)
    ensures var results := SloResults(namespace, name, calls, Run(cooldown, calls).1);
            forall i | from <= i <= k :: !results[i].detected
  {
    hide Run, SloCalls, SloResults, Rested, Clocked, SlashFree, Band;
    var results := SloResults(namespace, name, calls, Run(cooldown, calls).1);
    forall i | from <= i <= k ensures !results[i].detected {
      DetectionExactly(cooldown, calls, namespace, name, i);
    }
  }

  /** Such a run: calm, a warning, calm, critical inside the cooldown, still critical after it. */
  lemma RiseMissed(namespace: string, name: string)
    requires '/' !in namespace
    ensures var rates := [0.0, 2.0, 0.0, 20.0, 20.0];
            var calls := seq(5, i requires 0 <= i < 5 => Call(namespace, name, rates[i], i * i, i * i));
            Run(10, calls).1 == [
              Spike(false, "", 0.0, 0.0, 0.0), Spike(true, "warning", 2.0, 0.0, 1.0), Spike(false, "", 0.0, 2.0, 0.0),
              Spike(false, "", 20.0, 0.0, 0.0), Spike(false, "", 20.0, 20.0, 0.0)]
  {
    var rates := [0.0, 2.0, 0.0, 20.0, 20.0];
    var calls := seq(5, i requires 0 <= i < 5 => Call(namespace, name, rates[i], i * i, i * i));
    var key := Key(namespace, name);
    assert calls[..0] == [] && calls[..1][..0] == [] && Run(10, calls[..0]) == (map[], []);
    assert calls[..2][..1] == calls[..1] && calls[..3][..2] == calls[..2] && calls[..4][..3] == calls[..3];
    assert calls[..4] == calls[..|calls| - 1];
    assert Run(10, calls[..1]).0[key] == State(0.0, Never);
    assert Run(10, calls[..2]).0[key] == State(2.0, At(1));
    assert Run(10, calls[..3]).0[key] == State(0.0, At(1));
    assert Run(10, calls[..4]).0[key] == State(20.0, At(1));
  }

  /** Two detections of an SLO are at least the cooldown apart: from the stamp of one to the test of the next. */
  lemma DetectionsApart(cooldown: int, calls: seq<Call>, namespace: string, name: string, i: nat, j: nat)
    requires Clocked(calls) && SlashFree(calls) && '/' !in namespace && cooldown <= MAX_DURATION
    requires i < j < |SloCalls(namespace, name, calls)|
    requires var results := SloResults(namespace, name, calls, Run(cooldown, calls).1);
             results[i].detected && results[j].detected
    ensures var own := SloCalls(namespace, name, calls); own[j].tested - own[i].stamped >= cooldown
  {
    hide Run, SloCalls, SloResults, Clocked, SlashFree;
    DetectionExactly(cooldown, calls, namespace, name, j);
  }

  /** An interval of length t of an SLO's calls holds at most 1 + t / cooldown detections of it. */
  lemma DetectionsBounded(cooldown: int, calls: seq<Call>, namespace: string, name: string, a: nat, k: nat, t: nat)
    requires Clocked(calls) && SlashFree(calls) && '/' !in namespace && 0 < cooldown <= MAX_DURATION
    requires a < k <= |SloCalls(namespace, name, calls)|
    requires var own := SloCalls(namespace, name, calls); own[k - 1].stamped - own[a].tested <= t
    ensures var results := SloResults(namespace, name, calls, Run(cooldown, calls).1);
            |results| >= k && Detections(results[a..k]) <= 1 + t / cooldown
  {
    hide Run, SloCalls, SloResults, Clocked, SlashFree, History, Detections, Key;
    OwnRun(cooldown, calls, namespace, name);
    BoundAlone(cooldown, SloCalls(namespace, name, calls), Key(namespace, name), a, k, t);
  }
}
