/**
 The rules that are emitted for an SLO and for a composition, as Prometheus sees them: the names
 and labels of the recorded series, and when each of the emitted alerts fires.
 */
module EmittedRules {
  import opened Strings
  import opened PromSyntax
  import opened PromEval
  import opened Templates
  import opened RuleGenerator
  import opened RuleMeaning
  import opened AlertMeaning
  import opened CompositionGenerator

  // ----- recorded series -----

  /** What a window's rules leave behind, under the names and labels that others query. */
  lemma SloSeries(s: SloInfo, w: string, e: Option<real>, target: real, st: Store)
    requires target != 100.0 && Leaves(SloId(s), w, e, target, st)
    ensures var own := [Matcher("slo_name", false, s.name), Matcher("slo_namespace", false, s.namespace),
                        Matcher("objective_name", false, s.objective)];
            var labels := map["slo_name" := s.name, "slo_namespace" := s.namespace, "objective_name" := s.objective,
                              "objective_id" := s.name + "/" + s.objective];
            && Pick(own, SeriesOf(st, "slok:sli_error_rate:" + w))
               == (if e.Some? then [Sample(labels["slok_window" := w], e.value)] else [])
            && Pick(own, SeriesOf(st, "slok:burn_rate:" + w))
               == (if e.Some? then [Sample(labels["slok_window" := w], e.value / (1.0 - target / 100.0))] else [])
            && Pick(own, SeriesOf(st, "slok:objective_target"))
               == [Sample(labels["slok_window" := "30d"], target / 100.0)]
            && Pick(own, SeriesOf(st, "slok:error_budget_target"))
               == [Sample(labels["slok_window" := "30d"], 1.0 - target / 100.0)]
  {
    hide Pick;
  }

  lemma CompositionSeries(name: string, namespace: string, w: string, e: Option<real>, target: real, st: Store)
    requires target != 100.0 && Leaves(CompositionId(name, namespace), w, e, target, st)
    ensures var own := [Matcher("slo_composition_name", false, name),
                        Matcher("slo_composition_namespace", false, namespace)];
            var labels := map["slo_composition_name" := name, "slo_composition_namespace" := namespace,
                              "composition_id" := name + "/" + namespace];
            && Pick(own, SeriesOf(st, "slok:sli_error_composition_rate:" + w))
               == (if e.Some? then [Sample(labels["slok_window" := w], e.value)] else [])
            && Pick(own, SeriesOf(st, "slok:burn_rate_composition:" + w))
               == (if e.Some? then [Sample(labels["slok_window" := w], e.value / (1.0 - target / 100.0))] else [])
            && Pick(own, SeriesOf(st, "slok:objective_target_composition"))
               == [Sample(labels["slok_window" := "30d"], target / 100.0)]
            && Pick(own, SeriesOf(st, "slok:error_budget_target_composition"))
               == [Sample(labels["slok_window" := "30d"], 1.0 - target / 100.0)]
  {
    hide Pick;
  }

  // ----- burn-rate alerts -----

  /** The rate of a window, if it has one. */
  function RateAt(errors: map<string, real>, w: string): Option<real> {
    if w in errors then Some(errors[w]) else None
  }

  /** Every recording window is as the identity's group leaves it, with these error rates and no others. */
  ghost predicate LeftBy(id: Identity, st: Store, errors: map<string, real>, target: real) {
    && target != 100.0
    && (forall w | w in errors :: w in RECORDING_WINDOWS)
    && forall w | w in RECORDING_WINDOWS :: Leaves(id, w, RateAt(errors, w), target, st)
  }

  /** The window has an error rate, and its quotient by the budget exceeds `rate`. */
  predicate Burns(errors: map<string, real>, w: string, target: real, rate: real)
    requires target != 100.0
  {
    w in errors && errors[w] / (1.0 - target / 100.0) > rate
  }

  lemma BurnShown(id: Identity, w: string, st: Store, errors: map<string, real>, target: real)
    requires LeftBy(id, st, errors, target) && w in RECORDING_WINDOWS
    ensures Shows(id, st, BurnMetric(id, w), w,
                  if w in errors then Some(errors[w] / (1.0 - target / 100.0)) else None)
  {
    hide SoloOf, Unseen;
    assert Leaves(id, w, RateAt(errors, w), target, st);
  }

  lemma PresetFires(id: Identity, p: BurnRatePreset, st: Store, errors: map<string, real>, target: real)
    requires LeftBy(id, st, errors, target)
    requires p.shortWindow in RECORDING_WINDOWS && p.longWindow in RECORDING_WINDOWS
    ensures Fires(BurnRateAlertText(id, p), st) <==>
            Burns(errors, p.shortWindow, target, p.burnRate) && Burns(errors, p.longWindow, target, p.burnRate)
  {
    hide Shows, Fires, LeftBy;
    assert target != 100.0 by { LeftTarget(id, st, errors, target); }
    BurnShown(id, p.shortWindow, st, errors, target);
    BurnShown(id, p.longWindow, st, errors, target);
    BurnRateAlertFires(id, p, st,
      if p.shortWindow in errors then Some(errors[p.shortWindow] / (1.0 - target / 100.0)) else None,
      if p.longWindow in errors then Some(errors[p.longWindow] / (1.0 - target / 100.0)) else None);
  }

  lemma LeftTarget(id: Identity, st: Store, errors: map<string, real>, target: real)
    requires LeftBy(id, st, errors, target)
    ensures target != 100.0 && forall w | w in errors :: w in RECORDING_WINDOWS
  {
  }

  /** The window is a recording window, or nobody has written error rates for it. */
  ghost predicate OwnWindow(id: Identity, window: string, st: Store) {
    window in RECORDING_WINDOWS || Unseen(id, st, SliMetric(id, window))
  }

  lemma ExhaustedFires(id: Identity, window: string, st: Store, errors: map<string, real>, target: real)
    requires LeftBy(id, st, errors, target) && OwnWindow(id, window, st)
    ensures Fires(ExhaustedText(id, window), st) <==>
            window == "30d" && "30d" in errors && errors["30d"] > 1.0 - target / 100.0
  {
    hide Fires, SoloOf, SliMetric, BudgetMetric;
    assert RECORDING_WINDOWS[5] == "30d";
    if window in errors {
      assert Leaves(id, window, Some(errors[window]), target, st);
      ExhaustedAlertFires(id, window, st, errors[window], 1.0 - target / 100.0);
    } else {
      if window in RECORDING_WINDOWS {
        assert Leaves(id, window, None, target, st);
      }
      ExhaustedAlertWithoutSeries(id, window, st);
    }
  }

  /** An alert without a hold time, under this name, with this severity besides the labels of its identity. */
  ghost predicate IsAlert(r: Rule, name: string, id: Identity, window: string, severity: string) {
    r.Alerting? && r.alert == name && r.hold == None && r.labels == BaseLabels(id, window)["severity" := severity]
  }

  /**
   An emitted alert group: for each preset, in order, an alert that fires exactly when both its
   windows burn faster than the preset's rate, with the preset's severity; and at the end the one
   that fires exactly when the window is `30d` and its error rate exceeds the budget.
   */
  ghost predicate Alerts(rules: seq<Rule>, id: Identity, title: string, presets: seq<BurnRatePreset>, window: string,
                         st: Store, errors: map<string, real>, target: real)
    requires target != 100.0
  {
    && |rules| == |presets| + 1
    && (forall i | 0 <= i < |presets| ::
          var p := presets[i];
          && IsAlert(rules[i], title + " SLOBurnRateHigh - " + p.suffix, id, p.shortWindow, p.severity)
          && (Fires(rules[i].expr, st) <==>
                Burns(errors, p.shortWindow, target, p.burnRate) && Burns(errors, p.longWindow, target, p.burnRate)))
    && IsAlert(rules[|presets|], title + " ErrorBudget Finished - Violated", id, window, "warning")
    && (Fires(rules[|presets|].expr, st) <==>
          window == "30d" && "30d" in errors && errors["30d"] > 1.0 - target / 100.0)
  }

  lemma AlertRulesMeaning(id: Identity, presets: seq<BurnRatePreset>, window: string, st: Store,
                          errors: map<string, real>, target: real)
    requires LeftBy(id, st, errors, target) && OwnWindow(id, window, st)
    requires forall p | p in presets :: p.shortWindow in RECORDING_WINDOWS && p.longWindow in RECORDING_WINDOWS
    ensures Alerts(AlertRules(id, presets, window), id, Title(id), presets, window, st, errors, target)
  {
    hide Fires, BurnRateAlertText, ExhaustedText, BaseLabels, Title, LeftBy, OwnWindow, Burns;
    LeftTarget(id, st, errors, target);
    var rules := AlertRules(id, presets, window);
    assert rules[|presets|] == ExhaustedRule(id, window);
    ExhaustedFires(id, window, st, errors, target);
    forall i | 0 <= i < |presets|
      ensures rules[i] == PresetRule(id, presets[i])
      ensures Fires(rules[i].expr, st) <==> Burns(errors, presets[i].shortWindow, target, presets[i].burnRate)
                                             && Burns(errors, presets[i].longWindow, target, presets[i].burnRate)
    {
      assert presets[i] in presets;
      PresetFires(id, presets[i], st, errors, target);
    }
  }

  lemma DefaultWindows()
    ensures forall p | p in DEFAULT_PRESETS :: p.shortWindow in RECORDING_WINDOWS && p.longWindow in RECORDING_WINDOWS
  {
    assert RECORDING_WINDOWS[0] == "5m" && RECORDING_WINDOWS[1] == "1h" && RECORDING_WINDOWS[2] == "6h";
    assert RECORDING_WINDOWS[3] == "3d" && RECORDING_WINDOWS[4] == "7d" && RECORDING_WINDOWS[5] == "30d";
  }

  /**
   The alert group of an SLO: there is one exactly when burn-rate alerting is enabled, and then it
   holds the alerts of its presets and the budget-exhausted alert.
   */
  lemma SloAlerts(sloName: string, namespace: string, objective: Objective, resolved: Resolved, st: Store,
                  errors: map<string, real>)
    requires Compilable(objective)
    requires LeftBy(SloId(SloInfo(sloName, namespace, objective.name)), st, errors, objective.target)
    requires OwnWindow(SloId(SloInfo(sloName, namespace, objective.name)), objective.window, st)
    ensures var groups := SloRule(sloName, namespace, objective, resolved).groups;
            var enabled := objective.burnRateAlerts.Some? && objective.burnRateAlerts.value.enabled;
            && objective.target != 100.0
            && |groups| == (if enabled then 2 else 1)
            && (enabled ==>
                  && groups[1].name == "slok." + sloName + "." + objective.name + "-burnRateAlerts"
                  && PresetsOf(objective).Some?
                  && Alerts(groups[1].rules, SloId(SloInfo(sloName, namespace, objective.name)),
                            "Objective: " + objective.name, PresetsOf(objective).value, objective.window, st, errors,
                            objective.target))
  {
    hide RecordingRules, BudgetAlertRules, AlertRules, Alerts, LeftBy, OwnWindow, PresetsOf, SliTexts;
    var id := SloId(SloInfo(sloName, namespace, objective.name));
    LeftTarget(id, st, errors, objective.target);
    if AlertsEnabled(objective.burnRateAlerts) {
      var presets := PresetsOf(objective).value;
      forall p | p in presets ensures p.shortWindow in RECORDING_WINDOWS && p.longWindow in RECORDING_WINDOWS {
        var i :| 0 <= i < |presets| && presets[i] == p;
        PresetWindowsRecorded(objective, i);
      }
      AlertRulesMeaning(id, presets, objective.window, st, errors, objective.target);
    }
  }

  lemma AlertGroupName(prefix: string)
    ensures prefix + "-aggregated" + "-burnRateAlerts" == prefix + "-aggregated-burnRateAlerts"
  {
  }

  /** The alert group of a composition of either kind, always with the default presets. */
  lemma CompositionAlerts(name: string, namespace: string, spec: Spec, slos: seq<SloInfo>, st: Store,
                          errors: map<string, real>)
    requires Generates(spec, slos) && LeftBy(CompositionId(name, namespace), st, errors, spec.target)
    requires OwnWindow(CompositionId(name, namespace), spec.window, st)
    ensures var groups := CompositionRule(name, namespace, spec, slos).groups;
            var enabled := spec.burnRateAlerts.Some? && spec.burnRateAlerts.value.enabled;
            && spec.target != 100.0
            && |groups| == (if enabled then 2 else 1)
            && (enabled ==>
                  && groups[1].name == "slok-" + name + "-aggregated-burnRateAlerts"
                  && Alerts(groups[1].rules, CompositionId(name, namespace), "Composition: " + name, DEFAULT_PRESETS,
                            spec.window, st, errors, spec.target))
  {
    AlertGroupName("slok-" + name);
    hide RecordingRules, AlertRules, Alerts, LeftBy, OwnWindow, CompositionTexts, Generates, BaseLabels, Fires;
    LeftTarget(CompositionId(name, namespace), st, errors, spec.target);
    DefaultWindows();
    AlertRulesMeaning(CompositionId(name, namespace), DEFAULT_PRESETS, spec.window, st, errors, spec.target);
  }

  /** The default alerts with their numbers: windows, burn rates, severities. */
  lemma DefaultAlerts(rules: seq<Rule>, id: Identity, title: string, window: string, st: Store,
                      errors: map<string, real>, target: real)
    requires target != 100.0 && Alerts(rules, id, title, DEFAULT_PRESETS, window, st, errors, target)
    ensures |rules| == 5
    ensures Fires(rules[0].expr, st) <==> Burns(errors, "5m", target, 14.0) && Burns(errors, "1h", target, 14.0)
    ensures Fires(rules[1].expr, st) <==> Burns(errors, "1h", target, 6.0) && Burns(errors, "6h", target, 6.0)
    ensures Fires(rules[2].expr, st) <==> Burns(errors, "6h", target, 1.0) && Burns(errors, "3d", target, 1.0)
    ensures Fires(rules[3].expr, st) <==> Burns(errors, "7d", target, 0.5) && Burns(errors, "30d", target, 0.5)
    ensures IsAlert(rules[0], title + " SLOBurnRateHigh - Critical", id, "5m", "critical")
    ensures IsAlert(rules[1], title + " SLOBurnRateHigh - Degraded", id, "1h", "warning")
    ensures IsAlert(rules[2], title + " SLOBurnRateHigh - Warning", id, "6h", "warning")
    ensures IsAlert(rules[3], title + " SLOBurnRateHigh - SlowBurn", id, "7d", "warning")
    ensures IsAlert(rules[4], title + " ErrorBudget Finished - Violated", id, window, "warning")
  {
    hide Fires, Burns, BaseLabels;
    assert DEFAULT_PRESETS[0].shortWindow == "5m" && DEFAULT_PRESETS[1].shortWindow == "1h";
    assert DEFAULT_PRESETS[2].shortWindow == "6h" && DEFAULT_PRESETS[3].shortWindow == "7d";
  }

  // ----- budget alerts -----

  /** Two decimals: a whole number of hundredths, the nearest one, and the even one of two. */
  lemma Hundredths(x: real)
    ensures var n := (TwoDecimals(x) * 100.0).Floor;
            && TwoDecimals(x) == n as real / 100.0
            && n as real - 0.5 <= x * 100.0 <= n as real + 0.5
            && (x * 100.0 == n as real + 0.5 || x * 100.0 == n as real - 0.5 ==> n % 2 == 0)
  {
  }

  /** A budget alert: its name, its severity as the only label, and how long its condition must last. */
  ghost predicate IsBudgetAlert(r: Rule, name: string, severity: string, hold: string) {
    r.Alerting? && r.alert == name && r.labels == map["severity" := severity] && r.hold == Some(hold)
  }

  /**
   After the fourteen recording rules of an SLO's group come, exactly if budget alerts are enabled,
   the two standard ones and the custom ones in order. On one series of the remaining percentage
   the first fires strictly between 0 and 10, the second at 0 and below, a custom one below its own
   percentage in hundredths; without that series none does.
   */
  lemma SloBudgetAlerts(sloName: string, namespace: string, objective: Objective, resolved: Resolved, st: Store,
                        present: bool, x: Sample)
    requires Compilable(objective)
    requires Pick([Matcher("namespace", false, namespace), Matcher("service_level_objective", false, sloName),
                   Matcher("objective_name", false, objective.name)],
                  SeriesOf(st, "optimization_request_objective_percent_remaining")) == if present then [x] else []
    ensures var rules := SloRule(sloName, namespace, objective, resolved).groups[0].rules;
            var alerts := objective.budgetAlerts;
            if alerts.Some? && alerts.value.enabled then
              && |rules| == 16 + |alerts.value.alerts|
              && IsBudgetAlert(rules[14], "SLOObjectiveAtRisk", "warning", "3m")
              && (Fires(rules[14].expr, st) <==> present && 0.0 < x.v < 10.0)
              && IsBudgetAlert(rules[15], "SLOObjectiveViolatedWarning", "warning", "5m")
              && (Fires(rules[15].expr, st) <==> present && x.v <= 0.0)
              && forall i | 0 <= i < |alerts.value.alerts| ::
                   var a := alerts.value.alerts[i];
                   && IsBudgetAlert(rules[16 + i], a.name, a.severity, "1m")
                   && (Fires(rules[16 + i].expr, st) <==> present && x.v < TwoDecimals(a.percent))
            else |rules| == 14
  {
    hide Fires, AtRiskText, BudgetGoneText, BelowText, TwoDecimals, Pick, SliTexts, RecordingRules, AlertRules,
         Compilable;
    var s := SloInfo(sloName, namespace, objective.name);
    BudgetPart(sloName, namespace, objective, resolved);
    hide SloRule;
    BudgetAlertsFire(s, 0.0, st, present, x);
    if objective.budgetAlerts.Some? && objective.budgetAlerts.value.enabled {
      var custom := objective.budgetAlerts.value.alerts;
      var rules := SloRule(sloName, namespace, objective, resolved).groups[0].rules;
      forall i | 0 <= i < |custom|
        ensures rules[16 + i] == CustomBudgetRule(s, custom[i])
        ensures Fires(BelowText(s, custom[i].percent), st) <==> present && x.v < TwoDecimals(custom[i].percent)
      {
        assert rules[16 + i] == rules[14..][2 + i];
        BudgetAlertsFire(s, custom[i].percent, st, present, x);
      }
      assert rules[14] == rules[14..][0] && rules[15] == rules[14..][1];
    }
  }

  lemma BudgetPart(sloName: string, namespace: string, objective: Objective, resolved: Resolved)
    requires Compilable(objective)
    ensures var groups := SloRule(sloName, namespace, objective, resolved).groups;
            && |groups| > 0 && |groups[0].rules| >= 14
            && groups[0].rules[14..]
               == BudgetAlertRules(SloInfo(sloName, namespace, objective.name), objective.budgetAlerts)
  {
    hide BudgetAlertRules, SliRule, BurnRule, ObjectiveRule, BudgetRule, AlertRules;
    var id := SloId(SloInfo(sloName, namespace, objective.name));
    GroupShape(id, RECORDING_WINDOWS, SliTexts(resolved, RECORDING_WINDOWS), objective.target);
    hide RecordingRules, SliTexts;
  }

  // ----- names -----

  /**
   The name of the emitted object runs the two names together: two SLOs of one namespace write to
   the same object exactly when their names, joined by a dash, are the same.
   */
  lemma RuleNames(a: string, b: string, namespace: string, p: Objective, q: Objective, r: Resolved, t: Resolved)
    requires Compilable(p) && Compilable(q)
    ensures var x, y := SloRule(a, namespace, p, r), SloRule(b, namespace, q, t);
            && x.namespace == namespace
            && (x.name == y.name <==> a + "-" + p.name == b + "-" + q.name)
            && ('-' !in a && '-' !in b ==> (x.name == y.name <==> a == b && p.name == q.name))
    ensures var x := SloRule(a, namespace, p, r);
            && x.name == "slok-" + a + "-" + p.name
            && x.labels == map["release" := "prometheus", "slok.io/slo" := a, "slok.io/objective" := p.name]
            && |x.groups| > 0 && x.groups[0].name == "slok." + a + "." + p.name
  {
    hide SliTexts, RecordingRules, BudgetAlertRules, AlertRules, Compilable;
    PrefixedNames(a + "-" + p.name, b + "-" + q.name);
    assert "slok-" + (a + "-" + p.name) == "slok-" + a + "-" + p.name;
    assert "slok-" + (b + "-" + q.name) == "slok-" + b + "-" + q.name;
    if '-' !in a && '-' !in b {
      CutApart("slok-", '-', a, p.name, b, q.name);
    }
  }

  lemma PrefixedNames(x: string, y: string)
    ensures "slok-" + x == "slok-" + y <==> x == y
  {
    assert ("slok-" + x)[5..] == x && ("slok-" + y)[5..] == y;
  }

  /** An SLO `a-b` with objective `c`, and an SLO `a` with objective `b-c`. */
  lemma RuleNamesCollide(namespace: string, p: Objective, q: Objective, r: Resolved, t: Resolved)
    requires Compilable(p) && Compilable(q) && p.name == "c" && q.name == "b-c"
    ensures SloRule("a-b", namespace, p, r).name == SloRule("a", namespace, q, t).name == "slok-a-b-c"
  {
    assert "slok-" + "a-b" + "-" + "c" == "slok-a-b-c" == "slok-" + "a" + "-" + "b-c";
  }

  /**
   A composition's object carries its namespace in its name, and may still be an SLO's: that of an
   SLO whose name ends with the namespace, and whose objective is called `aggregated`.
   */
  lemma CompositionNames(name: string, namespace: string, spec: Spec, slos: seq<SloInfo>, p: Objective, r: Resolved)
    requires Generates(spec, slos) && Compilable(p)
    ensures var x := CompositionRule(name, namespace, spec, slos);
            && x.namespace == namespace && x.name == "slok-" + name + "-" + namespace + "-aggregated"
            && x.labels == map["release" := "prometheus", "slok.io/slo_composition" := name]
            && |x.groups| > 0 && x.groups[0].name == "slok-" + name + "-aggregated"
            && (p.name == "aggregated" ==>
                  SloRule(name + "-" + namespace, namespace, p, r).name == x.name)
  {
    hide SliTexts, RecordingRules, BudgetAlertRules, AlertRules, CompositionTexts, Compilable, Generates;
    AggregatedName(name, namespace);
  }

  lemma AggregatedName(name: string, namespace: string)
    ensures "slok-" + (name + "-" + namespace) + "-" + "aggregated" == "slok-" + name + "-" + namespace + "-aggregated"
  {
  }
}
