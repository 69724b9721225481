/** When the alerts of an identity fire, in terms of the series its recording rules left behind. */
module AlertMeaning {
  import opened Strings
  import opened PromSyntax
  import opened PromEval
  import opened RuleGenerator
  import opened RuleMeaning

  function AboveTree(id: Identity, window: string, threshold: real): Expr {
    Bin(Gt, AllLabels, Select(SelectorOf(id, BurnMetric(id, window))), NumberTree(threshold))
  }

  function BurnRateAlertTree(id: Identity, p: BurnRatePreset): Expr {
    Bin(And, OnLabels(IdLabels(id)), AboveTree(id, p.shortWindow, p.burnRate), AboveTree(id, p.longWindow, p.burnRate))
  }

  function ExhaustedTree(id: Identity, window: string): Expr {
    Bin(Gt, AllLabels, Select(SelectorOf(id, SliMetric(id, window))), Select(SelectorOf(id, BudgetMetric(id))))
  }

  lemma AboveText(id: Identity, window: string, threshold: real, level: nat)
    requires level <= 2
    ensures FitsAt(AboveTree(id, window, threshold), level)
    ensures Print(AboveTree(id, window, threshold))
         == SelectorText(SelectorOf(id, BurnMetric(id, window))) + [TOp(Gt)] + NumberText(threshold)
  {
    var number := NumberTree(threshold);
    assert Print(number) == NumberText(threshold) && FitsAt(number, 3);
  }

  /** `>` binds tighter than `and`: the alert compares each window before it joins the two. */
  lemma BurnRateAlertMeans(id: Identity, p: BurnRatePreset)
    ensures Parse(BurnRateAlertText(id, p)) == Done(BurnRateAlertTree(id, p), [])
  {
    AboveText(id, p.shortWindow, p.burnRate, 1);
    AboveText(id, p.longWindow, p.burnRate, 2);
    Means(BurnRateAlertTree(id, p), BurnRateAlertText(id, p));
  }

  lemma ExhaustedMeans(id: Identity, window: string)
    ensures Parse(ExhaustedText(id, window)) == Done(ExhaustedTree(id, window), [])
  {
    assert MatchingText(AllLabels) == [];
    Means(ExhaustedTree(id, window), ExhaustedText(id, window));
  }

  /** There is a value, and it exceeds the threshold. */
  predicate Exceeds(v: Option<real>, threshold: real) {
    v.Some? && v.value > threshold
  }

  /** The series of an identity for a window, were it to have this value. */
  function SampleOf(id: Identity, window: string, v: Option<real>): Sample {
    Sample(BaseLabels(id, window), if v.Some? then v.value else 0.0)
  }

  lemma AboveValue(id: Identity, window: string, threshold: real, st: Store, v: Option<real>)
    requires Shows(id, st, BurnMetric(id, window), window, v)
    ensures Eval(AboveTree(id, window, threshold), st)
         == Vec(if Exceeds(v, threshold) then [SampleOf(id, window, v)] else [])
  {
    var x := SampleOf(id, window, v);
    assert Eval(NumberTree(threshold), st) == Scalar(threshold);
    assert WithScalar(Gt, [x][1..], threshold) == Some([]);
    assert Eval(Select(SelectorOf(id, BurnMetric(id, window))), st) == Vec(if v.Some? then [x] else []);
  }

  lemma AndSolo(m: Matching, x: Sample, y: Sample, left: bool, right: bool)
    requires Key(m, x.labels) == Key(m, y.labels)
    ensures BinValue(And, m, Vec(if left then [x] else []), Vec(if right then [y] else []))
         == Vec(if left && right then [x] else [])
  {
    assert y in [y];
    assert HasPartner(m, x, [y]) && !HasPartner(m, x, []);
    assert Keep(m, [x][1..], [y], true) == [] && Keep(m, [x][1..], [], true) == [];
  }

  lemma BurnRateAlertValue(id: Identity, p: BurnRatePreset, st: Store, short: Option<real>, long: Option<real>)
    requires Shows(id, st, BurnMetric(id, p.shortWindow), p.shortWindow, short)
    requires Shows(id, st, BurnMetric(id, p.longWindow), p.longWindow, long)
    ensures Eval(BurnRateAlertTree(id, p), st)
         == Vec(if Exceeds(short, p.burnRate) && Exceeds(long, p.burnRate)
                then [SampleOf(id, p.shortWindow, short)] else [])
  {
    hide AboveTree, Shows, Exceeds;
    AboveValue(id, p.shortWindow, p.burnRate, st, short);
    AboveValue(id, p.longWindow, p.burnRate, st, long);
    SameKey(id, p.shortWindow, p.longWindow);
    AndSolo(OnLabels(IdLabels(id)), SampleOf(id, p.shortWindow, short), SampleOf(id, p.longWindow, long),
            Exceeds(short, p.burnRate), Exceeds(long, p.burnRate));
  }

  /**
   A burn-rate alert fires exactly when both its windows have a burn rate and both exceed the
   threshold, although the two series differ in `slok_window`.
   */
  lemma BurnRateAlertFires(id: Identity, p: BurnRatePreset, st: Store, short: Option<real>, long: Option<real>)
    requires Shows(id, st, BurnMetric(id, p.shortWindow), p.shortWindow, short)
    requires Shows(id, st, BurnMetric(id, p.longWindow), p.longWindow, long)
    ensures Fires(BurnRateAlertText(id, p), st) <==> Exceeds(short, p.burnRate) && Exceeds(long, p.burnRate)
  {
    hide Shows, BurnRateAlertText, BurnRateAlertTree, Parse, Exceeds;
    BurnRateAlertMeans(id, p);
    BurnRateAlertValue(id, p, st, short, long);
  }

  lemma SelectSolo(id: Identity, metric: string, window: string, st: Store, v: real)
    requires SoloOf(id, st, metric, window, v)
    ensures Eval(Select(SelectorOf(id, metric)), st) == Vec([Sample(BaseLabels(id, window), v)])
  {
  }

  lemma GreaterSolo(x: Sample, y: Sample)
    ensures BinValue(Gt, AllLabels, Vec([x]), Vec([y]))
         == Vec(if x.labels == y.labels && x.v > y.v then [x] else [])
  {
    assert y in [y];
    assert HasPartner(AllLabels, x, [y]) <==> x.labels == y.labels;
    assert Pairs(Gt, AllLabels, [x][1..], [y]) == Some([]);
  }

  lemma ExhaustedValue(id: Identity, window: string, st: Store, e: real, budget: real)
    requires SoloOf(id, st, SliMetric(id, window), window, e)
    requires SoloOf(id, st, BudgetMetric(id), "30d", budget)
    ensures Eval(ExhaustedTree(id, window), st) == Vec(
              if BaseLabels(id, window) == BaseLabels(id, "30d") && e > budget
              then [Sample(BaseLabels(id, window), e)] else [])
  {
    hide BaseLabels, SelectorOf, BinValue, SliMetric, BudgetMetric, SoloOf;
    SelectSolo(id, SliMetric(id, window), window, st, e);
    SelectSolo(id, BudgetMetric(id), "30d", st, budget);
    GreaterSolo(Sample(BaseLabels(id, window), e), Sample(BaseLabels(id, "30d"), budget));
  }

  lemma WindowLabel(id: Identity, window: string)
    ensures BaseLabels(id, window) == BaseLabels(id, "30d") <==> window == "30d"
  {
    assert BaseLabels(id, window)["slok_window"] == window;
  }

  /**
   The budget-exhausted alert compares an error rate labelled with the SLO's own window with a
   budget labelled "30d", matching on all labels. It fires exactly when the rate exceeds the
   budget and the SLO's window is "30d": for every other window it stays silent for ever.
   */
  lemma ExhaustedAlertFires(id: Identity, window: string, st: Store, e: real, budget: real)
    requires SoloOf(id, st, SliMetric(id, window), window, e)
    requires SoloOf(id, st, BudgetMetric(id), "30d", budget)
    ensures Fires(ExhaustedText(id, window), st) <==> window == "30d" && e > budget
  {
    hide Parse, ExhaustedText, ExhaustedTree, BaseLabels, Eval, SoloOf;
    ExhaustedMeans(id, window);
    ExhaustedValue(id, window, st, e, budget);
    WindowLabel(id, window);
  }

  /** An SLO window without a recording rule has no error-rate series, and the alert never fires. */
  lemma ExhaustedAlertWithoutSeries(id: Identity, window: string, st: Store)
    requires Pick(IdMatchers(id), SeriesOf(st, SliMetric(id, window))) == []
    ensures !Fires(ExhaustedText(id, window), st)
  {
    ExhaustedMeans(id, window);
    assert Eval(Select(SelectorOf(id, SliMetric(id, window))), st) == Vec([]);
  }

  /** An outage: every request of the window failed, and the target is 99. */
  function OutageStore(id: Identity, window: string): Store {
    Store(map[SliMetric(id, window) := [Sample(BaseLabels(id, window), 1.0)],
              BudgetMetric(id) := [Sample(BaseLabels(id, "30d"), 0.01)]], map[])
  }

  /** With a window of 7d nothing fires, although the budget is burned a hundred times over. */
  lemma SilentOutage(id: Identity)
    ensures Fires(ExhaustedText(id, "30d"), OutageStore(id, "30d"))
    ensures !Fires(ExhaustedText(id, "7d"), OutageStore(id, "7d"))
  {
    hide Fires, ExhaustedText, BaseLabels;
    OutageSeries(id, "7d");
    OutageSeries(id, "30d");
    ExhaustedAlertFires(id, "7d", OutageStore(id, "7d"), 1.0, 0.01);
    ExhaustedAlertFires(id, "30d", OutageStore(id, "30d"), 1.0, 0.01);
  }

  lemma OutageSeries(id: Identity, window: string)
    ensures SoloOf(id, OutageStore(id, window), SliMetric(id, window), window, 1.0)
    ensures SoloOf(id, OutageStore(id, window), BudgetMetric(id), "30d", 0.01)
  {
    hide BaseLabels, IdMatchers, HoldsAll;
    Initials(id, window);
    OwnLabels(id, window);
    OwnLabels(id, "30d");
    var rate, budget := Sample(BaseLabels(id, window), 1.0), Sample(BaseLabels(id, "30d"), 0.01);
    assert SliMetric(id, window)[5] != BudgetMetric(id)[5];
    assert SeriesOf(OutageStore(id, window), SliMetric(id, window)) == [rate];
    assert SeriesOf(OutageStore(id, window), BudgetMetric(id)) == [budget];
    assert Pick(IdMatchers(id), []) == [] && [rate][1..] == [] && [budget][1..] == [];
  }

  // ----- budget alerts -----

  function RemainingTree(s: SloInfo, op: Operator, r: real): Expr {
    Bin(op, AllLabels, Select(RemainingSelector(s)), NumberTree(r))
  }

  function AtRiskTree(s: SloInfo): Expr {
    Bin(And, AllLabels, RemainingTree(s, Gt, 0.0), RemainingTree(s, Lt, 10.0))
  }

  lemma RemainingPrints(s: SloInfo, op: Operator, r: real)
    requires IsComparison(op)
    ensures Print(RemainingTree(s, op, r)) == SelectorText(RemainingSelector(s)) + [TOp(op)] + NumberText(r)
    ensures FitsAt(RemainingTree(s, op, r), 2)
  {
    var number := NumberTree(r);
    assert Print(number) == NumberText(r) && FitsAt(number, 3);
  }

  lemma BudgetAlertsMean(s: SloInfo, percent: real)
    ensures Parse(AtRiskText(s)) == Done(AtRiskTree(s), [])
    ensures Parse(BudgetGoneText(s)) == Done(RemainingTree(s, Le, 0.0), [])
    ensures Parse(BelowText(s, percent)) == Done(RemainingTree(s, Lt, TwoDecimals(percent)), [])
  {
    hide SelectorText, Parse, RemainingSelector, TwoDecimals;
    RemainingPrints(s, Gt, 0.0);
    RemainingPrints(s, Lt, 10.0);
    RemainingPrints(s, Le, 0.0);
    RemainingPrints(s, Lt, TwoDecimals(percent));
    Means(AtRiskTree(s), AtRiskText(s));
    Means(RemainingTree(s, Le, 0.0), BudgetGoneText(s));
    Means(RemainingTree(s, Lt, TwoDecimals(percent)), BelowText(s, percent));
  }

  /** The sample that answers the selector, if there is one. */
  function OneAtMost(present: bool, x: Sample): Value {
    Vec(if present then [x] else [])
  }

  lemma CompareOne(op: Operator, present: bool, x: Sample, r: real)
    requires IsComparison(op)
    ensures BinValue(op, AllLabels, OneAtMost(present, x), Scalar(r)) == OneAtMost(present && Compares(op, x.v, r), x)
  {
    assert WithScalar(op, [x][1..], r) == Some([]);
  }

  lemma NumberWorth(r: real, st: Store)
    ensures Eval(NumberTree(r), st) == Scalar(r)
  {
  }

  lemma RemainingMetric(s: SloInfo)
    ensures RemainingSelector(s).metric == REMAINING_METRIC
  {
  }

  lemma RemainingValue(s: SloInfo, op: Operator, r: real, st: Store, present: bool, x: Sample)
    requires IsComparison(op)
    requires Pick(RemainingSelector(s).matchers, SeriesOf(st, REMAINING_METRIC)) == if present then [x] else []
    ensures Eval(RemainingTree(s, op, r), st) == OneAtMost(present && Compares(op, x.v, r), x)
  {
    hide NumberTree, RemainingSelector, BinValue, Pick;
    NumberWorth(r, st);
    RemainingMetric(s);
    assert Eval(Select(RemainingSelector(s)), st) == OneAtMost(present, x);
    CompareOne(op, present, x, r);
  }

  /**
   The budget alerts, on one series of the remaining percentage: at risk strictly between 0 and
   10 percent, violated at 0 and below, and a custom alert below its percentage, which the text
   rounds to hundredths. Without that series none of them fires.
   */
  lemma BudgetAlertsFire(s: SloInfo, percent: real, st: Store, present: bool, x: Sample)
    requires Pick(RemainingSelector(s).matchers, SeriesOf(st, REMAINING_METRIC)) == if present then [x] else []
    ensures Fires(AtRiskText(s), st) <==> present && 0.0 < x.v < 10.0
    ensures Fires(BudgetGoneText(s), st) <==> present && x.v <= 0.0
    ensures Fires(BelowText(s, percent), st) <==> present && x.v < TwoDecimals(percent)
  {
    hide Parse, RemainingTree, TwoDecimals, RemainingSelector, AtRiskText, BudgetGoneText, BelowText, Pick;
    BudgetAlertsMean(s, percent);
    RemainingValue(s, Gt, 0.0, st, present, x);
    RemainingValue(s, Lt, 10.0, st, present, x);
    RemainingValue(s, Le, 0.0, st, present, x);
    RemainingValue(s, Lt, TwoDecimals(percent), st, present, x);
    AndSolo(AllLabels, x, x, present && x.v > 0.0, present && x.v < 10.0);
  }

  /** No recording group writes the series that the budget alerts read: they stay as silent as they were. */
  lemma BudgetAlertsUnfed(id: Identity, windows: seq<string>, texts: seq<Text>, target: real, s: SloInfo,
                          percent: real, st: Store)
    requires |texts| == |windows|
    ensures var final := EvalGroup(RecordingRules(id, windows, texts, target), st);
            && (Fires(AtRiskText(s), final) <==> Fires(AtRiskText(s), st))
            && (Fires(BudgetGoneText(s), final) <==> Fires(BudgetGoneText(s), st))
            && (Fires(BelowText(s, percent), final) <==> Fires(BelowText(s, percent), st))
  {
    hide EvalGroup, RecordingRules, Parse, AtRiskText, BudgetGoneText, BelowText, TwoDecimals, Eval;
    var final := EvalGroup(RecordingRules(id, windows, texts, target), st);
    RemainingUnrecorded(id, windows);
    UntouchedByGroup(id, windows, texts, target, st, REMAINING_METRIC);
    BudgetAlertsMean(s, percent);
    RemainingReads(s);
    EvalFrame(AtRiskTree(s), final, st);
    EvalFrame(RemainingTree(s, Le, 0.0), final, st);
    EvalFrame(RemainingTree(s, Lt, TwoDecimals(percent)), final, st);
  }

  lemma RemainingReads(s: SloInfo)
    ensures forall op, r :: Reads(RemainingTree(s, op, r)) == {REMAINING_METRIC}
    ensures Reads(AtRiskTree(s)) == {REMAINING_METRIC}
  {
    forall op, r ensures Reads(RemainingTree(s, op, r)) == {REMAINING_METRIC} {
      assert Reads(NumberTree(r)) == {};
      assert Reads(Select(RemainingSelector(s))) == {REMAINING_METRIC};
    }
  }

  lemma RemainingUnrecorded(id: Identity, windows: seq<string>)
    ensures !Recorded(id, windows, REMAINING_METRIC)
  {
    Initials(id, "30d");
    assert REMAINING_METRIC[5] == 'i';
    forall i | 0 <= i < |windows|
      ensures REMAINING_METRIC != SliMetric(id, windows[i]) && REMAINING_METRIC != BurnMetric(id, windows[i])
    {
      Initials(id, windows[i]);
    }
  }

  // ----- custom thresholds -----

  /** A number and a unit that alert windows admit; recording windows may also be in weeks. */
  predicate IsAlertWindow(window: string) {
    Seconds(window) > 0 && window[|window| - 1] != 'w'
  }

  lemma HoursAreSeconds(window: string)
    ensures AlertWindowHours(window).Some? <==> IsAlertWindow(window)
    ensures AlertWindowHours(window).Some? ==> AlertWindowHours(window).value * 3600.0 == Seconds(window) as real
  {
    hide AllDigits, Decimal;
  }

  lemma {:induction false} AllPresets(alerts: seq<BurnRateAlert>, sloWindow: string)
    ensures AlertPresets(alerts, sloWindow).Some? <==>
              forall i | 0 <= i < |alerts| :: AlertPreset(alerts[i], sloWindow).Some?
  {
    hide AlertPreset;
    if |alerts| == 0 {
    } else {
      AllPresets(alerts[..|alerts| - 1], sloWindow);
    }
  }

  /**
   Which alerting configurations are accepted: none of its own, or one in which every alert names
   two recorded windows and both its own consume window and the SLO's window are durations.
   */
  lemma PresetsExactly(objective: Objective)
    ensures PresetsOf(objective).Some? <==>
              objective.burnRateAlerts.Some? ==>
                forall i | 0 <= i < |objective.burnRateAlerts.value.alerts| ::
                  var a := objective.burnRateAlerts.value.alerts[i];
                  && a.shortWindow in ["5m", "1h", "6h", "3d", "7d", "30d"]
                  && a.longWindow in ["5m", "1h", "6h", "3d", "7d", "30d"]
                  && IsAlertWindow(a.consumeWindow) && IsAlertWindow(objective.window)
  {
    hide IsAlertWindow, AlertWindowHours;
    if objective.burnRateAlerts.Some? {
      var alerts := objective.burnRateAlerts.value.alerts;
      AllPresets(alerts, objective.window);
      HoursAreSeconds(objective.window);
      forall i | 0 <= i < |alerts|
        ensures AlertPreset(alerts[i], objective.window).Some? <==>
                  && alerts[i].shortWindow in RECORDING_WINDOWS && alerts[i].longWindow in RECORDING_WINDOWS
                  && IsAlertWindow(alerts[i].consumeWindow) && IsAlertWindow(objective.window)
      {
        HoursAreSeconds(alerts[i].consumeWindow);
      }
    }
  }

  /** At this burn rate, the time `consume` uses up that percentage of the budget of the time `slo`. */
  ghost predicate Consumes(burnRate: real, consume: real, slo: real, percent: real) {
    slo > 0.0 && burnRate * consume / slo * 100.0 == percent
  }

  /**
   The threshold of a custom alert is the burn rate at which `consumeWindow` uses up
   `consumePercent` of the budget: a burn rate b spends b * t / window of it in time t.
   */
  lemma ThresholdConsumes(alert: BurnRateAlert, sloWindow: string, threshold: real)
    requires BurnRateThreshold(alert, sloWindow) == Some(threshold)
    ensures var slo, consume := Seconds(sloWindow) as real, Seconds(alert.consumeWindow) as real;
            slo > 0.0 && consume > 0.0 && Consumes(threshold, consume, slo, alert.consumePercent)
  {
    HoursAreSeconds(sloWindow);
    HoursAreSeconds(alert.consumeWindow);
    hide AlertWindowHours, Seconds, ConsumingRate, Consumes;
    var slo, consume := AlertWindowHours(sloWindow).value, AlertWindowHours(alert.consumeWindow).value;
    RateConsumes(alert.consumePercent, slo, consume);
  }

  lemma RateConsumes(percent: real, slo: real, consume: real)
    requires slo > 0.0 && consume > 0.0
    ensures Consumes(ConsumingRate(percent, slo, consume), consume * 3600.0, slo * 3600.0, percent)
  {
    var t := ConsumingRate(percent, slo, consume);
    Undivide(percent, slo, consume, t);
    SameShare(t, consume, slo);
  }

  lemma SameShare(t: real, consume: real, slo: real)
    requires slo > 0.0
    ensures t * (consume * 3600.0) / (slo * 3600.0) == t * consume / slo
  {
    var q, p := t * consume / slo, t * consume;
    assert q * slo == p;
    assert t * (consume * 3600.0) == p * 3600.0;
    assert q * (slo * 3600.0) == p * 3600.0;
  }

  lemma Undivide(percent: real, slo: real, consume: real, t: real)
    requires slo > 0.0 && consume > 0.0 && t == percent / 100.0 * slo / consume
    ensures t * consume / slo * 100.0 == percent
  {
    var whole := percent / 100.0 * slo;
    assert t * consume == whole;
    assert whole / slo == percent / 100.0;
  }

  lemma {:induction false} PresetAt(alerts: seq<BurnRateAlert>, sloWindow: string, i: nat)
    requires AlertPresets(alerts, sloWindow).Some? && i < |alerts|
    ensures var ps := AlertPresets(alerts, sloWindow).value;
            |ps| == |alerts| && AlertPreset(alerts[i], sloWindow) == Some(ps[i])
  {
    hide AlertPreset;
    var n := |alerts| - 1;
    if i < n {
      PresetAt(alerts[..n], sloWindow, i);
    } else if n > 0 {
      PresetAt(alerts[..n], sloWindow, 0);
    }
  }

  /** A custom alert is a preset of its own windows, name and severity, at the threshold that consumes its share. */
  lemma CustomPreset(objective: Objective, i: nat)
    requires PresetsOf(objective).Some? && objective.burnRateAlerts.Some?
    requires i < |objective.burnRateAlerts.value.alerts|
    ensures var a, presets := objective.burnRateAlerts.value.alerts[i], PresetsOf(objective).value;
            && |presets| == |objective.burnRateAlerts.value.alerts|
            && presets[i].shortWindow == a.shortWindow && presets[i].longWindow == a.longWindow
            && presets[i].suffix == a.name && presets[i].severity == a.severity
            && Seconds(objective.window) > 0 && Seconds(a.consumeWindow) > 0
            && Consumes(presets[i].burnRate, Seconds(a.consumeWindow) as real, Seconds(objective.window) as real,
                        a.consumePercent)
  {
    hide Seconds, BurnRateThreshold, Consumes;
    var alerts := objective.burnRateAlerts.value.alerts;
    PresetAt(alerts, objective.window, i);
    ThresholdConsumes(alerts[i], objective.window, PresetsOf(objective).value[i].burnRate);
  }

  /** Every preset an accepted objective gets names two windows that have recording rules. */
  lemma PresetWindowsRecorded(objective: Objective, i: nat)
    requires PresetsOf(objective).Some? && i < |PresetsOf(objective).value|
    ensures var p := PresetsOf(objective).value[i];
            p.shortWindow in RECORDING_WINDOWS && p.longWindow in RECORDING_WINDOWS
  {
    var p := PresetsOf(objective).value[i];
    if objective.burnRateAlerts.None? || objective.burnRateAlerts.value.alerts == [] {
      assert RECORDING_WINDOWS[0] == "5m" && RECORDING_WINDOWS[1] == "1h" && RECORDING_WINDOWS[2] == "6h";
      assert RECORDING_WINDOWS[3] == "3d" && RECORDING_WINDOWS[4] == "7d" && RECORDING_WINDOWS[5] == "30d";
      assert p in DEFAULT_PRESETS;
    } else {
      var alerts := objective.burnRateAlerts.value.alerts;
      PresetAt(alerts, objective.window, 0);
      PresetAt(alerts, objective.window, i);
    }
  }
}
