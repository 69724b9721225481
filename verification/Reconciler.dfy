/**
 One reconciliation of an SLO: query the recorded series, compute the budget and the status,
 and feed the spike detector.
 */
module Reconciler {
  import opened Strings
  import B = ErrorBudget
  import D = Detector
  import C = Collector
  import E = Engine

  /** The controller's presets: pairs of windows, checked in this order. */
  const PRESETS: seq<(string, string)> := [("5m", "1h"), ("1h", "6h"), ("6h", "3d"), ("7d", "30d")]

  // ----- collecting burn rates -----

  /** Entries for the presets whose two queries were both answered. */
  function Collected(presets: seq<(string, string)>, shorts: seq<Option<real>>, longs: seq<Option<real>>): seq<B.BurnRate>
    requires |shorts| == |longs| == |presets|
  {
    if |presets| == 0 then [] else
      var n := |presets| - 1;
      Collected(presets[..n], shorts[..n], longs[..n])
      + if shorts[n].Some? && longs[n].Some?
        then [B.BurnRate(shorts[n].value, longs[n].value, presets[n].0, presets[n].1)] else []
  }

  method CollectBurnRates(presets: seq<(string, string)>, shorts: seq<Option<real>>, longs: seq<Option<real>>)
    returns (rates: seq<B.BurnRate>)
    requires |shorts| == |longs| == |presets|
    ensures rates == Collected(presets, shorts, longs)
  {
    rates := [];
    for i := 0 to |presets|
      invariant rates == Collected(presets[..i], shorts[..i], longs[..i])
    {
      assert presets[..i + 1][..i] == presets[..i];
      assert shorts[..i + 1][..i] == shorts[..i] && longs[..i + 1][..i] == longs[..i];
      if shorts[i].None? {
        continue;
      }
      if longs[i].None? {
        continue;
      }
      rates := rates + [B.BurnRate(shorts[i].value, longs[i].value, presets[i].0, presets[i].1)];
    }
    assert presets[..|presets|] == presets && shorts[..|presets|] == shorts && longs[..|presets|] == longs;
  }

  predicate DistinctPresets(presets: seq<(string, string)>) {
    forall i, j | 0 <= i < j < |presets| :: presets[i] != presets[j]
  }

  /** Answers that fill the gaps of others. */
  ghost predicate Fills(partial: seq<Option<real>>, full: seq<Option<real>>) {
    |full| == |partial| && forall i | 0 <= i < |full| :: full[i].Some? && (partial[i].Some? ==> partial[i] == full[i])
  }

  lemma {:induction false} BurnAppend(w: (string, string), a: seq<B.BurnRate>, b: seq<B.BurnRate>)
    ensures B.Burn(w.0, w.1, a + b) ==
            if exists r :: r in a && r.shortWindow == w.0 && r.longWindow == w.1 then B.Burn(w.0, w.1, a)
            else B.Burn(w.0, w.1, b)
  {
    if |a| == 0 {
      assert a + b == b;
    } else {
      assert (a + b)[1..] == a[1..] + b;
      BurnAppend(w, a[1..], b);
      assert a[0] in a && forall r | r in a :: r == a[0] || r in a[1..];
      assert forall r | r in a[1..] :: r in a;
    }
  }

  lemma {:induction false} CollectedWindows(presets: seq<(string, string)>, shorts: seq<Option<real>>,
                                            longs: seq<Option<real>>, r: B.BurnRate)
    requires |shorts| == |longs| == |presets| && r in Collected(presets, shorts, longs)
    ensures (r.shortWindow, r.longWindow) in presets
  {
    var n := |presets| - 1;
    if r in Collected(presets[..n], shorts[..n], longs[..n]) {
      CollectedWindows(presets[..n], shorts[..n], longs[..n], r);
    }
  }

  /** A preset's pair is what its queries answered; a preset with a failed query counts as zero. */
  lemma {:induction false} BurnCollected(presets: seq<(string, string)>, shorts: seq<Option<real>>,
                                         longs: seq<Option<real>>, i: nat)
    requires |shorts| == |longs| == |presets| && DistinctPresets(presets) && i < |presets|
    ensures B.Burn(presets[i].0, presets[i].1, Collected(presets, shorts, longs)) ==
            if shorts[i].Some? && longs[i].Some? then (shorts[i].value, longs[i].value) else (0.0, 0.0)
  {
    var n := |presets| - 1;
    var front := Collected(presets[..n], shorts[..n], longs[..n]);
    var back := if shorts[n].Some? && longs[n].Some?
      then [B.BurnRate(shorts[n].value, longs[n].value, presets[n].0, presets[n].1)] else [];
    BurnAppend(presets[i], front, back);
    if i < n {
      BurnCollected(presets[..n], shorts[..n], longs[..n], i);
      if !(exists r :: r in front && r.shortWindow == presets[i].0 && r.longWindow == presets[i].1) {
        BurnAppend(presets[i], front, []);
        assert front + [] == front;
        assert presets[i] != presets[n];
      }
    } else {
      forall r | r in front ensures (r.shortWindow, r.longWindow) != presets[n] {
        CollectedWindows(presets[..n], shorts[..n], longs[..n], r);
      }
    }
  }

  /**
   Skipping presets whose queries failed never gives a worse status than the full list would,
   whatever the missing answers were.
   */
  lemma SkippingNeverWorse(percent: real, shorts: seq<Option<real>>, longs: seq<Option<real>>,
                           fullShorts: seq<Option<real>>, fullLongs: seq<Option<real>>)
    requires |shorts| == |longs| == |PRESETS| && Fills(shorts, fullShorts) && Fills(longs, fullLongs)
    ensures B.Severity(B.DetermineStatus(percent, Collected(PRESETS, shorts, longs)))
         <= B.Severity(B.DetermineStatus(percent, Collected(PRESETS, fullShorts, fullLongs)))
  {
    PresetsDistinct();
    forall i | 0 <= i < 3
      ensures var p := B.Burn(PRESETS[i].0, PRESETS[i].1, Collected(PRESETS, shorts, longs));
              p == (0.0, 0.0) || p == B.Burn(PRESETS[i].0, PRESETS[i].1, Collected(PRESETS, fullShorts, fullLongs))
    {
      BurnCollected(PRESETS, shorts, longs, i);
      BurnCollected(PRESETS, fullShorts, fullLongs, i);
    }
    assert PRESETS[0] == ("5m", "1h") && PRESETS[1] == ("1h", "6h") && PRESETS[2] == ("6h", "3d");
  }

  lemma PresetsDistinct()
    ensures DistinctPresets(PRESETS)
  {
    assert "5m" != "1h" && "5m" != "6h" && "5m" != "7d" && "1h" != "6h" && "1h" != "7d" && "6h" != "7d";
  }

  /**
   The spike detector is fed the short rate of the first collected entry. It is the 5m rate
   exactly when both queries of the first preset were answered; otherwise another window's
   rate stands in for it.
   */
  lemma {:induction false} FirstCollected(presets: seq<(string, string)>, shorts: seq<Option<real>>,
                                          longs: seq<Option<real>>)
    requires |shorts| == |longs| == |presets| && |presets| > 0 && DistinctPresets(presets)
    ensures var rates := Collected(presets, shorts, longs);
            |rates| > 0 ==>
              ((rates[0].shortWindow, rates[0].longWindow) == presets[0] <==> shorts[0].Some? && longs[0].Some?)
              && (shorts[0].Some? && longs[0].Some? ==> rates[0].shortRate == shorts[0].value)
  {
    var n := |presets| - 1;
    var front := Collected(presets[..n], shorts[..n], longs[..n]);
    if n == 0 {
    } else {
      FirstCollected(presets[..n], shorts[..n], longs[..n]);
      if shorts[0].Some? && longs[0].Some? {
        SomeCollected(presets[..n], shorts[..n], longs[..n]);
      }
      assert presets[0] != presets[n];
    }
  }

  /**
   A spike out of nothing: all burn rates stay what they are, 0.5 over 5m and 2 over every other
   window, but the second reconciliation gets no answer for 5m. The detector then compares the 1h
   rate with the 5m rate of before, and reports a rise to the warning band.
   */
  lemma StandInSpike(namespace: string, name: string, cooldown: int, first: int, second: int)
    requires cooldown <= D.MAX_DURATION
    ensures var shorts, longs := [Some(0.5), Some(2.0), Some(2.0), Some(2.0)], seq(4, i => Some(2.0));
            var before, after := Collected(PRESETS, shorts, longs), Collected(PRESETS, shorts[0 := None], longs);
            && |before| > 0 && |after| > 0
            && D.Run(cooldown, [D.Call(namespace, name, before[0].shortRate, first, first),
                                D.Call(namespace, name, after[0].shortRate, second, second)]).1
               == [D.Spike(false, "", 0.5, 0.0, 0.0), D.Spike(true, "warning", 2.0, 0.5, 1.0)]
  {
    var shorts, longs := [Some(0.5), Some(2.0), Some(2.0), Some(2.0)], seq(4, i => Some(2.0));
    FirstRate(shorts, longs);
    FirstRate(shorts[0 := None], longs);
    var calls := [D.Call(namespace, name, 0.5, first, first), D.Call(namespace, name, 2.0, second, second)];
    hide Collected;
    var calm := D.Spike(false, "", 0.5, 0.0, 0.0);
    assert calls[..1][..0] == [] && D.Run(cooldown, calls[..1][..0]) == (map[], []);
    assert D.Run(cooldown, calls[..1]).0[D.KeyOf(calls[0])] == D.State(0.5, D.Never);
    assert D.Run(cooldown, calls[..1]).1 == [] + [calm] == [calm];
    assert D.KeyOf(calls[1]) == D.KeyOf(calls[0]);
  }

  /** The rate that the detector gets: of the first preset that was answered. */
  lemma FirstRate(shorts: seq<Option<real>>, longs: seq<Option<real>>)
    requires |shorts| == |longs| == 4 && longs[0].Some? && shorts[1].Some? && longs[1].Some?
    ensures var rates := Collected(PRESETS, shorts, longs);
            |rates| > 0 && rates[0].shortRate == if shorts[0].Some? then shorts[0].value else shorts[1].value
  {
    hide Collected;
    FourEntries(shorts, longs);
  }

  lemma {:induction false} SomeCollected(presets: seq<(string, string)>, shorts: seq<Option<real>>,
                                          longs: seq<Option<real>>)
    requires |shorts| == |longs| == |presets| && |presets| > 0 && shorts[0].Some? && longs[0].Some?
    ensures |Collected(presets, shorts, longs)| > 0
  {
    var n := |presets| - 1;
    if n == 0 {
    } else {
      SomeCollected(presets[..n], shorts[..n], longs[..n]);
    }
  }

  // ----- the reconciliation step -----

  /** What Prometheus answered to the queries of one reconciliation. */
  datatype Answers = Answers(errorRate5m: Option<real>, windowed: Option<real>,
                             shorts: seq<Option<real>>, longs: seq<Option<real>>)

  datatype ObjectiveStatus =
    | Unknown
    | Known(actual: real, budget: B.Budget, status: B.Status, rates: seq<B.BurnRate>)

  function StatusFor(window: string, a: Answers): ObjectiveStatus
    requires |a.shorts| == |a.longs| == |PRESETS|
  {
    if a.errorRate5m.None? || a.windowed.None? || B.ParseWindow(window).Err? then Unknown else
      var seconds := B.DurationSeconds(B.ParseWindow(window).value);
      var (budget, actual) := B.BudgetFor(seconds, a.windowed.value, a.errorRate5m.value);
      var rates := Collected(PRESETS, a.shorts, a.longs);
      Known(actual, budget, B.DetermineStatus(budget.percentRemaining, rates), rates)
  }

  /** The entry of a preset, if both its queries were answered. */
  function Entry(short: Option<real>, long: Option<real>, shortWindow: string, longWindow: string): seq<B.BurnRate> {
    if short.Some? && long.Some? then [B.BurnRate(short.value, long.value, shortWindow, longWindow)] else []
  }

  lemma FourEntries(shorts: seq<Option<real>>, longs: seq<Option<real>>)
    requires |shorts| == |longs| == 4
    ensures Collected(PRESETS, shorts, longs)
         == Entry(shorts[0], longs[0], "5m", "1h") + Entry(shorts[1], longs[1], "1h", "6h")
            + Entry(shorts[2], longs[2], "6h", "3d") + Entry(shorts[3], longs[3], "7d", "30d")
  {
    assert PRESETS[..3][..2] == PRESETS[..2] && PRESETS[..2][..1] == PRESETS[..1] && PRESETS[..1][..0] == [];
    assert shorts[..3][..2] == shorts[..2] && shorts[..2][..1] == shorts[..1];
    assert longs[..3][..2] == longs[..2] && longs[..2][..1] == longs[..1];
    assert Collected(PRESETS[..1], shorts[..1], longs[..1]) == Entry(shorts[0], longs[0], "5m", "1h");
    assert Collected(PRESETS[..2], shorts[..2], longs[..2])
        == Collected(PRESETS[..1], shorts[..1], longs[..1]) + Entry(shorts[1], longs[1], "1h", "6h");
    assert Collected(PRESETS[..3], shorts[..3], longs[..3])
        == Collected(PRESETS[..2], shorts[..2], longs[..2]) + Entry(shorts[2], longs[2], "6h", "3d");
  }

  /**
   The amounts in the status: the actual value is that of the 5m error rate, the budget that of
   the window's own burn rate b, of whose minutes it is the share b, and the collected rates are
   those of the four pairs of windows that were answered, in order.
   */
  lemma StatusAmounts(window: string, a: Answers)
    requires |a.shorts| == |a.longs| == |PRESETS| && StatusFor(window, a).Known?
    ensures var known := StatusFor(window, a); var e, b := a.errorRate5m.value, a.windowed.value;
            && a.errorRate5m.Some? && a.windowed.Some? && B.ParseWindow(window).Ok?
            && 100.0 - 100.0 * e - 0.005 <= known.actual <= 100.0 - 100.0 * e + 0.005
            && known.budget.total * 60.0 == B.DurationSeconds(B.ParseWindow(window).value)
            && known.budget.consumed == b * known.budget.total
            && known.budget.remaining == (if known.budget.consumed <= known.budget.total
                                          then known.budget.total - known.budget.consumed else 0.0)
            && (b <= 1.0 ==> 100.0 - 100.0 * b - 0.005 <= known.budget.percentRemaining <= 100.0 - 100.0 * b + 0.005)
            && (b > 1.0 ==> known.budget.percentRemaining == 0.0)
            && known.rates == Entry(a.shorts[0], a.longs[0], "5m", "1h") + Entry(a.shorts[1], a.longs[1], "1h", "6h")
                              + Entry(a.shorts[2], a.longs[2], "6h", "3d") + Entry(a.shorts[3], a.longs[3], "7d", "30d")
  {
    hide B.BudgetFor, B.ParseWindow, B.DetermineStatus, B.DurationSeconds, Collected, Entry;
    B.Amounts(B.DurationSeconds(B.ParseWindow(window).value), a.windowed.value, a.errorRate5m.value);
    FourEntries(a.shorts, a.longs);
  }

  /** What the controller knows besides the queries: its clock readings, and what the engine is given. */
  datatype Surroundings = Surroundings(
    tested: int, stamped: int, trigger: int, minute: string, now: int,
    selector: Option<E.WorkloadSelector>, refined: Option<string>)

  class SloReconciler {
    var status: ObjectiveStatus
    const detector: D.AnomalyDetector?
    const engine: E.CorrelationEngine?

    constructor (detector: D.AnomalyDetector?, engine: E.CorrelationEngine?)
      ensures this.detector == detector && this.engine == engine && status == Unknown
    {
      this.detector := detector;
      this.engine := engine;
      this.status := Unknown;
    }

    /**
     A detected spike, and nothing else, is analysed: with the rates and the severity of the
     detection, over what the collector retains and the SLO's selector admits.
     */
    ghost predicate Analysed(name: string, namespace: string, env: Surroundings, s: D.Spike, report: Option<E.Report>)
      requires engine != null && engine.collector.Valid()
      reads engine, engine.collector, engine.collector.buffer
    {
      && (report.Some? <==> s.detected)
      && (report.Some? ==>
            var collector := engine.collector;
            var candidates := E.Candidates(C.Latest(collector.log, collector.count), namespace, env.trigger,
                                           env.now - collector.retention, env.selector);
            && report.value.name == name + "-" + env.minute && report.value.namespace == namespace
            && report.value.sloName == name
            && report.value.burnRate == s.current && report.value.previousBurnRate == s.previous
            && report.value.refined ==
               (if env.refined.Some? && env.refined.value != "" && candidates != [] then env.refined else None)
            && exists scored :: E.IsAnalysis(report.value.correlation, scored, candidates, namespace, env.trigger,
                                             E.SelectorLabels(env.selector), s.severity))
    }

    method CheckSpike(namespace: string, name: string, rates: seq<B.BurnRate>, env: Surroundings)
      returns (spike: Option<D.Spike>, report: Option<E.Report>)
      requires (detector != null ==> detector.Valid()) && (engine != null ==> engine.collector.Valid())
      modifies if detector != null then {detector} + detector.states.Values else {}
      ensures detector != null ==> detector.Valid()
      ensures detector == null || engine == null || rates == [] ==>
                spike == None && report == None && (detector != null ==> detector.Model() == old(detector.Model()))
      ensures detector != null && engine != null && rates != [] ==>
                var key := D.Key(namespace, name);
                var step := D.Step(D.Lookup(old(detector.Model()), key), detector.cooldown,
                                   rates[0].shortRate, env.tested, env.stamped);
                && spike == Some(step.1) && detector.Model() == old(detector.Model())[key := step.0]
                && Analysed(name, namespace, env, step.1, report)
    {
      hide D.Step, D.Lookup, D.Key, E.Candidates, E.IsAnalysis, C.Latest, E.SelectorLabels;
      spike, report := None, None;
      if detector != null && engine != null && |rates| > 0 {
        var s := detector.DetectSpike(namespace, name, rates[0].shortRate, env.tested, env.stamped);
        spike := Some(s);
        if s.detected {
          var r := engine.Analyze(name, namespace, env.trigger, env.minute, s.current, s.previous, s.severity,
                                  env.selector, env.refined, env.now);
          report := Some(r);
        }
      }
    }

    /**
     The detector is consulted only when the status could be computed, both parts are there and
     some burn rate was collected; in every other case its states stay as they were.
     */
    method Reconcile(namespace: string, name: string, window: string, a: Answers, env: Surroundings)
      returns (spike: Option<D.Spike>, report: Option<E.Report>)
      requires |a.shorts| == |a.longs| == |PRESETS|
      requires (detector != null ==> detector.Valid()) && (engine != null ==> engine.collector.Valid())
      modifies this, if detector != null then {detector} + detector.states.Values else {}
      ensures detector != null ==> detector.Valid()
      ensures status == StatusFor(window, a)
      ensures status.Unknown? || detector == null || engine == null || status.rates == [] ==>
                spike == None && report == None && (detector != null ==> detector.Model() == old(detector.Model()))
      ensures status.Known? && detector != null && engine != null && status.rates != [] ==>
                var key := D.Key(namespace, name);
                var step := D.Step(D.Lookup(old(detector.Model()), key), detector.cooldown,
                                   status.rates[0].shortRate, env.tested, env.stamped);
                && spike == Some(step.1) && detector.Model() == old(detector.Model())[key := step.0]
                && Analysed(name, namespace, env, step.1, report)
    {
      hide B.BudgetFor, B.ParseWindow, B.DetermineStatus, D.Step, D.Lookup, D.Key, Collected, Analysed;
      spike, report := None, None;
      if a.errorRate5m.None? || a.windowed.None? {
        status := Unknown;
        return;
      }
      var result := B.Calculate(window, a.windowed.value, a.errorRate5m.value);
      if result.Err? {
        status := Unknown;
        return;
      }
      var (budget, actual) := result.value;
      var rates := CollectBurnRates(PRESETS, a.shorts, a.longs);
      var determined := B.DetermineStatus(budget.percentRemaining, rates);
      spike, report := CheckSpike(namespace, name, rates, env);
      status := Known(actual, budget, determined, rates);
    }
  }
}
