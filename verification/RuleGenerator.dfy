/**
 Compilation of an SLO, or of a composition of SLOs, into Prometheus rule groups. A single SLO
 and a composition emit the same kinds of rules under different metric and label names: an
 `Identity` says which.
 */
module RuleGenerator {
  import opened Strings
  import opened PromSyntax
  import opened PromEval
  import opened Templates

  // ----- specifications of SLOs and compositions -----

  datatype BurnRateAlert = BurnRateAlert(
    name: string, consumePercent: real, consumeWindow: string,
    longWindow: string, shortWindow: string, severity: string)

  datatype BurnRates = BurnRates(enabled: bool, alerts: seq<BurnRateAlert>)

  datatype BudgetAlert = BudgetAlert(name: string, percent: real, severity: string)

  datatype BudgetAlerts = BudgetAlerts(enabled: bool, alerts: seq<BudgetAlert>)

  datatype Objective = Objective(
    name: string, target: real, window: string, sli: Sli,
    burnRateAlerts: Option<BurnRates>, budgetAlerts: Option<BudgetAlerts>)

  datatype SloInfo = SloInfo(name: string, namespace: string, objective: string)

  datatype Route = Route(name: string, weight: real, chain: seq<string>)

  datatype Spec = Spec(
    target: real, window: string, aliases: seq<string>, kind: string,
    routes: Option<seq<Route>>, burnRateAlerts: Option<BurnRates>)

  datatype BurnRatePreset = BurnRatePreset(
    shortWindow: string, longWindow: string, burnRate: real, severity: string, suffix: string)

  datatype RuleGroup = RuleGroup(name: string, rules: seq<Rule>)

  datatype PrometheusRule = PrometheusRule(
    name: string, namespace: string, labels: Labels, groups: seq<RuleGroup>)

  const RECORDING_WINDOWS: seq<string> := ["5m", "1h", "6h", "3d", "7d", "30d"]

  const DEFAULT_PRESETS: seq<BurnRatePreset> := [
    BurnRatePreset("5m", "1h", 14.0, "critical", "Critical"),
    BurnRatePreset("1h", "6h", 6.0, "warning", "Degraded"),
    BurnRatePreset("6h", "3d", 1.0, "warning", "Warning"),
    BurnRatePreset("7d", "30d", 0.5, "warning", "SlowBurn")]

  // ----- names -----

  datatype Identity =
    | SloId(slo: SloInfo)
    | CompositionId(name: string, namespace: string)

  function SliMetric(id: Identity, window: string): string {
    (if id.SloId? then "slok:sli_error_rate:" else "slok:sli_error_composition_rate:") + window
  }

  function BurnMetric(id: Identity, window: string): string {
    (if id.SloId? then "slok:burn_rate:" else "slok:burn_rate_composition:") + window
  }

  function ObjectiveMetric(id: Identity): string {
    if id.SloId? then "slok:objective_target" else "slok:objective_target_composition"
  }

  function BudgetMetric(id: Identity): string {
    if id.SloId? then "slok:error_budget_target" else "slok:error_budget_target_composition"
  }

  /** The labels every series of the identity carries; `window` is the rule's own window. */
  function BaseLabels(id: Identity, window: string): Labels {
    match id
    case SloId(s) => map[
      "slo_name" := s.name,
      "slo_namespace" := s.namespace,
      "objective_name" := s.objective,
      "objective_id" := ObjectiveId(s),
      "slok_window" := window]
    case CompositionId(name, namespace) => map[
      "slo_composition_name" := name,
      "slo_composition_namespace" := namespace,
      "composition_id" := name + "/" + namespace,
      "slok_window" := window]
  }

  function ObjectiveId(s: SloInfo): string {
    s.name + "/" + s.objective
  }

  /** The labels that tell one identity from another, in the order they are written. */
  function IdLabels(id: Identity): (ls: seq<string>)
    ensures |ls| > 0
  {
    if id.SloId? then ["slo_name", "slo_namespace", "objective_name"]
    else ["slo_composition_name", "slo_composition_namespace"]
  }

  function IdMatchers(id: Identity): seq<Matcher> {
    match id
    case SloId(s) => [
      Matcher("slo_name", false, s.name),
      Matcher("slo_namespace", false, s.namespace),
      Matcher("objective_name", false, s.objective)]
    case CompositionId(name, namespace) => [
      Matcher("slo_composition_name", false, name),
      Matcher("slo_composition_namespace", false, namespace)]
  }

  function SelectorOf(id: Identity, metric: string): Selector {
    Selector(metric, true, IdMatchers(id))
  }

  // ----- expression texts -----

  /** A number as `%g` prints it. */
  function NumberText(v: real): Text {
    if v < 0.0 then [TOp(Sub), TNum(-v)] else [TNum(v)]
  }

  function SumRateText(query: Text, window: string): Text {
    [TIdent("sum"), LPar, TIdent("rate"), LPar] + query + [LBrack, TDur(window), RBrack, RPar, RPar]
  }

  function SliErrorRateText(error: Text, total: Text, window: string): Text {
    [LPar, LPar] + SumRateText(error, window)
    + [TOp(Or), LPar] + SumRateText(total, window) + [TOp(Mul), TNum(0.0), RPar, RPar, TOp(Div)]
    + [TIdent("clamp_min"), LPar] + SumRateText(total, window) + [Comma, TNum(EPSILON), RPar, RPar]
    + [TOp(Or), TIdent("absent"), LPar] + SumRateText(total, window) + [RPar]
  }

  function SliText(resolved: Resolved, window: string): Text {
    if resolved.raw != [] then Instantiate(resolved.raw, window)
    else SliErrorRateText(resolved.error, resolved.total, window)
  }

  function ConstantText(v: real): Text {
    [TIdent("vector"), LPar] + NumberText(v) + [RPar]
  }

  function BurnRateText(id: Identity, window: string): Text {
    SelectorText(SelectorOf(id, SliMetric(id, window)))
    + [TOp(Div)] + MatchingText(OnLabels(IdLabels(id)))
    + SelectorText(SelectorOf(id, BudgetMetric(id)))
  }

  function BurnRateAlertText(id: Identity, p: BurnRatePreset): Text {
    SelectorText(SelectorOf(id, BurnMetric(id, p.shortWindow))) + [TOp(Gt)] + NumberText(p.burnRate)
    + [TOp(And)] + MatchingText(OnLabels(IdLabels(id)))
    + SelectorText(SelectorOf(id, BurnMetric(id, p.longWindow))) + [TOp(Gt)] + NumberText(p.burnRate)
  }

  function ExhaustedText(id: Identity, window: string): Text {
    SelectorText(SelectorOf(id, SliMetric(id, window))) + [TOp(Gt)]
    + SelectorText(SelectorOf(id, BudgetMetric(id)))
  }

  function AndMinText(ids: seq<string>, window: string): Text {
    [TIdent("max"), TBy, LPar, RPar, LPar,
     TIdent("slok:sli_error_rate:" + window), LBrace, TIdent("objective_id"), EqRegex, TStr(Join(ids, "|")), RBrace,
     RPar]
  }

  function FactorText(s: SloInfo, window: string): Text {
    [LPar, TNum(1.0), TOp(Sub), TIdent("scalar"), LPar]
    + SelectorText(SelectorOf(SloId(s), SliMetric(SloId(s), window)))
    + [RPar, RPar]
  }

  function FactorTexts(slos: seq<SloInfo>, window: string): (ts: seq<Text>)
    ensures |ts| == |slos|
  {
    if |slos| == 0 then [] else FactorTexts(slos[..|slos| - 1], window) + [FactorText(slos[|slos| - 1], window)]
  }

  /** A route with its aliases resolved. */
  datatype Leg = Leg(weight: real, chain: seq<SloInfo>)

  function RouteText(leg: Leg, window: string): Text {
    NumberText(leg.weight) + [TOp(Mul), LPar] + JoinText(FactorTexts(leg.chain, window), [TOp(Mul)]) + [RPar]
  }

  function RouteTexts(legs: seq<Leg>, window: string): (ts: seq<Text>)
    ensures |ts| == |legs|
  {
    if |legs| == 0 then [] else RouteTexts(legs[..|legs| - 1], window) + [RouteText(legs[|legs| - 1], window)]
  }

  function WeightedText(legs: seq<Leg>, window: string): Text {
    [TNum(1.0), TOp(Sub), LPar] + JoinText(RouteTexts(legs, window), [TOp(Add)]) + [RPar]
  }

  // ----- rules -----

  function SliRule(id: Identity, window: string, text: Text): Rule {
    Recording(SliMetric(id, window), text, BaseLabels(id, window))
  }

  function ObjectiveRule(id: Identity, target: real): Rule {
    Recording(ObjectiveMetric(id), ConstantText(target / 100.0), BaseLabels(id, "30d"))
  }

  function BudgetRule(id: Identity, target: real): Rule {
    Recording(BudgetMetric(id), ConstantText(1.0 - target / 100.0), BaseLabels(id, "30d"))
  }

  function BurnRule(id: Identity, window: string): Rule {
    Recording(BurnMetric(id, window), BurnRateText(id, window), BaseLabels(id, window))
  }

  /** One recording rule per window, with the text that `texts` gives for it. */
  function SliRules(id: Identity, windows: seq<string>, texts: seq<Text>): (rules: seq<Rule>)
    requires |windows| == |texts|
    ensures |rules| == |windows|
    ensures forall i | 0 <= i < |rules| :: rules[i] == SliRule(id, windows[i], texts[i])
  {
    hide SliRule;
    if |windows| == 0 then [] else
      var n := |windows| - 1;
      SliRules(id, windows[..n], texts[..n]) + [SliRule(id, windows[n], texts[n])]
  }

  function BurnRules(id: Identity, windows: seq<string>): (rules: seq<Rule>)
    ensures |rules| == |windows|
    ensures forall i | 0 <= i < |rules| :: rules[i] == BurnRule(id, windows[i])
  {
    seq(|windows|, i requires 0 <= i < |windows| => BurnRule(id, windows[i]))
  }

  /** Error rates first, then the two constants, then the burn rates that read both. */
  function RecordingRules(id: Identity, windows: seq<string>, texts: seq<Text>, target: real): seq<Rule>
    requires |texts| == |windows|
  {
    SliRules(id, windows, texts) + [ObjectiveRule(id, target), BudgetRule(id, target)] + BurnRules(id, windows)
  }

  function Title(id: Identity): string {
    match id
    case SloId(s) => "Objective: " + s.objective
    case CompositionId(name, _) => "Composition: " + name
  }

  function PresetRule(id: Identity, p: BurnRatePreset): Rule {
    Alerting(Title(id) + " SLOBurnRateHigh - " + p.suffix, BurnRateAlertText(id, p),
             BaseLabels(id, p.shortWindow)["severity" := p.severity], None)
  }

  function PresetRules(id: Identity, presets: seq<BurnRatePreset>): (rules: seq<Rule>)
    ensures |rules| == |presets|
    ensures forall i | 0 <= i < |rules| :: rules[i] == PresetRule(id, presets[i])
  {
    seq(|presets|, i requires 0 <= i < |presets| => PresetRule(id, presets[i]))
  }

  function ExhaustedRule(id: Identity, window: string): Rule {
    Alerting(Title(id) + " ErrorBudget Finished - Violated", ExhaustedText(id, window),
             BaseLabels(id, window)["severity" := "warning"], None)
  }

  function AlertRules(id: Identity, presets: seq<BurnRatePreset>, window: string): seq<Rule> {
    PresetRules(id, presets) + [ExhaustedRule(id, window)]
  }

  predicate AlertsEnabled(alerts: Option<BurnRates>) {
    alerts.Some? && alerts.value.enabled
  }

  // ----- budget alerts -----

  const REMAINING_METRIC := "optimization_request_objective_percent_remaining"

  function RemainingSelector(s: SloInfo): Selector {
    Selector(REMAINING_METRIC, true, [
      Matcher("namespace", false, s.namespace),
      Matcher("service_level_objective", false, s.name),
      Matcher("objective_name", false, s.objective)])
  }

  /** A number as `%.2f` prints it: the nearest hundredth, and the even one of two. */
  function TwoDecimals(x: real): (y: real)
    ensures x - 0.005 <= y <= x + 0.005
  {
    var floor := (x * 100.0).Floor;
    var part := x * 100.0 - floor as real;
    (if part < 0.5 || (part == 0.5 && floor % 2 == 0) then floor else floor + 1) as real / 100.0
  }

  function AtRiskText(s: SloInfo): Text {
    SelectorText(RemainingSelector(s)) + [TOp(Gt), TNum(0.0), TOp(And)]
    + SelectorText(RemainingSelector(s)) + [TOp(Lt), TNum(10.0)]
  }

  function BudgetGoneText(s: SloInfo): Text {
    SelectorText(RemainingSelector(s)) + [TOp(Le), TNum(0.0)]
  }

  function BelowText(s: SloInfo, percent: real): Text {
    SelectorText(RemainingSelector(s)) + [TOp(Lt)] + NumberText(TwoDecimals(percent))
  }

  function CustomBudgetRule(s: SloInfo, a: BudgetAlert): Rule {
    Alerting(a.name, BelowText(s, a.percent), map["severity" := a.severity], Some("1m"))
  }

  function CustomBudgetRules(s: SloInfo, alerts: seq<BudgetAlert>): (rules: seq<Rule>)
    ensures |rules| == |alerts| && forall i | 0 <= i < |rules| :: rules[i] == CustomBudgetRule(s, alerts[i])
  {
    seq(|alerts|, i requires 0 <= i < |alerts| => CustomBudgetRule(s, alerts[i]))
  }

  function StandardBudgetRules(s: SloInfo): seq<Rule> {
    [Alerting("SLOObjectiveAtRisk", AtRiskText(s), map["severity" := "warning"], Some("3m")),
     Alerting("SLOObjectiveViolatedWarning", BudgetGoneText(s), map["severity" := "warning"], Some("5m"))]
  }

  function BudgetAlertRules(s: SloInfo, alerts: Option<BudgetAlerts>): seq<Rule> {
    if alerts.Some? && alerts.value.enabled then StandardBudgetRules(s) + CustomBudgetRules(s, alerts.value.alerts)
    else []
  }

  // ----- burn-rate presets -----

  /** Hours of a window: a positive whole number followed by its unit. */
  function AlertWindowHours(window: string): (hours: Option<real>)
    ensures hours.Some? ==> hours.value > 0.0
  {
    if |window| < 2 then None else
      var number := window[..|window| - 1];
      if !AllDigits(number) || Decimal(number) == 0 then None else
        var value := Decimal(number) as real;
        match window[|window| - 1]
        case 'd' => Some(value * 24.0)
        case 'h' => Some(value)
        case 'm' => Some(value / 60.0)
        case 's' => Some(value / 3600.0)
        case _ => None
  }

  /** The burn rate that uses up `percent` of the budget of `slo` hours in `consume` hours. */
  function ConsumingRate(percent: real, slo: real, consume: real): real
    requires consume > 0.0
  {
    percent / 100.0 * slo / consume
  }

  function BurnRateThreshold(alert: BurnRateAlert, sloWindow: string): Option<real> {
    match (AlertWindowHours(sloWindow), AlertWindowHours(alert.consumeWindow))
    case (Some(slo), Some(consume)) => Some(ConsumingRate(alert.consumePercent, slo, consume))
    case _ => None
  }

  function AlertPreset(alert: BurnRateAlert, sloWindow: string): Option<BurnRatePreset> {
    if alert.shortWindow !in RECORDING_WINDOWS || alert.longWindow !in RECORDING_WINDOWS then None else
      match BurnRateThreshold(alert, sloWindow)
      case None => None
      case Some(t) => Some(BurnRatePreset(alert.shortWindow, alert.longWindow, t, alert.severity, alert.name))
  }

  function AlertPresets(alerts: seq<BurnRateAlert>, sloWindow: string): Option<seq<BurnRatePreset>> {
    if |alerts| == 0 then Some([]) else
      match (AlertPresets(alerts[..|alerts| - 1], sloWindow), AlertPreset(alerts[|alerts| - 1], sloWindow))
      case (Some(ps), Some(p)) => Some(ps + [p])
      case _ => None
  }

  function PresetsOf(objective: Objective): Option<seq<BurnRatePreset>> {
    if objective.burnRateAlerts.None? || objective.burnRateAlerts.value.alerts == [] then Some(DEFAULT_PRESETS)
    else AlertPresets(objective.burnRateAlerts.value.alerts, objective.window)
  }

  lemma {:induction false} AlertPresetsPrefix(alerts: seq<BurnRateAlert>, n: nat, sloWindow: string)
    requires n <= |alerts| && AlertPresets(alerts[..n], sloWindow) == None
    ensures AlertPresets(alerts, sloWindow) == None
  {
    if n == |alerts| {
      assert alerts[..n] == alerts;
    } else {
      assert alerts[..|alerts| - 1][..n] == alerts[..n];
      AlertPresetsPrefix(alerts[..|alerts| - 1], n, sloWindow);
    }
  }

  lemma AlertPresetsSnoc(alerts: seq<BurnRateAlert>, i: nat, sloWindow: string)
    requires i < |alerts|
    ensures AlertPresets(alerts[..i + 1], sloWindow) ==
              match (AlertPresets(alerts[..i], sloWindow), AlertPreset(alerts[i], sloWindow))
              case (Some(ps), Some(p)) => Some(ps + [p])
              case _ => None
  {
    assert alerts[..i + 1][..i] == alerts[..i];
  }

  /** One custom alert: both windows must have recording rules, and the threshold must exist. */
  method PresetFor(alert: BurnRateAlert, sloWindow: string) returns (r: Result<BurnRatePreset>)
    ensures r.Ok? <==> AlertPreset(alert, sloWindow).Some?
    ensures r.Ok? ==> AlertPreset(alert, sloWindow) == Some(r.value)
  {
    hide BurnRateThreshold;
    if alert.shortWindow !in RECORDING_WINDOWS {
      return Err("invalid burn-rate alert " + alert.name + ": shortWindow must be one of the recording windows");
    }
    if alert.longWindow !in RECORDING_WINDOWS {
      return Err("invalid burn-rate alert " + alert.name + ": longWindow must be one of the recording windows");
    }
    var threshold := BurnRateThreshold(alert, sloWindow);
    if threshold.None? {
      return Err("invalid burn-rate alert " + alert.name + ": invalid duration");
    }
    r := Ok(BurnRatePreset(alert.shortWindow, alert.longWindow, threshold.value, alert.severity, alert.name));
  }

  method CustomPresets(alerts: seq<BurnRateAlert>, sloWindow: string) returns (r: Result<seq<BurnRatePreset>>)
    ensures r.Ok? <==> AlertPresets(alerts, sloWindow).Some?
    ensures r.Ok? ==> AlertPresets(alerts, sloWindow) == Some(r.value)
  {
    var presets: seq<BurnRatePreset> := [];
    assert AlertPresets(alerts[..0], sloWindow) == Some([]) && alerts[..|alerts|] == alerts;
    hide AlertPresets, AlertPreset;
    for i := 0 to |alerts|
      invariant AlertPresets(alerts[..i], sloWindow) == Some(presets)
    {
      AlertPresetsSnoc(alerts, i, sloWindow);
      var preset := PresetFor(alerts[i], sloWindow);
      if preset.Err? {
        AlertPresetsPrefix(alerts, i + 1, sloWindow);
        return Err(preset.error);
      }
      presets := presets + [preset.value];
    }
    r := Ok(presets);
  }

  method BurnRatePresetsForObjective(objective: Objective) returns (r: Result<seq<BurnRatePreset>>)
    ensures r.Ok? <==> PresetsOf(objective).Some?
    ensures r.Ok? ==> PresetsOf(objective) == Some(r.value)
  {
    hide AlertPresets;
    if objective.burnRateAlerts.None? || |objective.burnRateAlerts.value.alerts| == 0 {
      return Ok(DEFAULT_PRESETS);
    }
    r := CustomPresets(objective.burnRateAlerts.value.alerts, objective.window);
  }

  // ----- the rule of one SLO -----

  function SliTexts(resolved: Resolved, windows: seq<string>): (ts: seq<Text>)
    ensures |ts| == |windows|
    ensures forall i | 0 <= i < |ts| :: ts[i] == SliText(resolved, windows[i])
  {
    if |windows| == 0 then [] else
      SliTexts(resolved, windows[..|windows| - 1]) + [SliText(resolved, windows[|windows| - 1])]
  }

  predicate Compilable(objective: Objective) {
    Resolvable(objective.sli) && (AlertsEnabled(objective.burnRateAlerts) ==> PresetsOf(objective).Some?)
  }

  function SloRule(sloName: string, namespace: string, objective: Objective, resolved: Resolved): PrometheusRule
    requires Compilable(objective)
  {
    var id := SloId(SloInfo(sloName, namespace, objective.name));
    var group := "slok." + sloName + "." + objective.name;
    var texts := SliTexts(resolved, RECORDING_WINDOWS);
    PrometheusRule(
      "slok-" + sloName + "-" + objective.name, namespace,
      map["release" := "prometheus", "slok.io/slo" := sloName, "slok.io/objective" := objective.name],
      [RuleGroup(group, RecordingRules(id, RECORDING_WINDOWS, texts, objective.target)
                        + BudgetAlertRules(id.slo, objective.budgetAlerts))]
      + if AlertsEnabled(objective.burnRateAlerts)
        then [RuleGroup(group + "-burnRateAlerts", AlertRules(id, PresetsOf(objective).value, objective.window))] else [])
  }

  lemma BurnRulesSnoc(id: Identity, windows: seq<string>, i: nat)
    requires i < |windows|
    ensures BurnRules(id, windows[..i + 1]) == BurnRules(id, windows[..i]) + [BurnRule(id, windows[i])]
  {
    hide BurnRule;
  }

  method AppendBurnRates(id: Identity, windows: seq<string>, rules0: seq<Rule>) returns (rules: seq<Rule>)
    ensures rules == rules0 + BurnRules(id, windows)
  {
    hide BurnRule;
    rules := rules0;
    for i := 0 to |windows|
      invariant rules == rules0 + BurnRules(id, windows[..i])
    {
      BurnRulesSnoc(id, windows, i);
      rules := rules + [BurnRule(id, windows[i])];
    }
    assert windows[..|windows|] == windows;
  }

  lemma PresetRulesSnoc(id: Identity, presets: seq<BurnRatePreset>, i: nat)
    requires i < |presets|
    ensures PresetRules(id, presets[..i + 1]) == PresetRules(id, presets[..i]) + [PresetRule(id, presets[i])]
  {
    hide PresetRule;
  }

  method AlertGroup(id: Identity, presets: seq<BurnRatePreset>, window: string) returns (rules: seq<Rule>)
    ensures rules == AlertRules(id, presets, window)
  {
    rules := [];
    for i := 0 to |presets|
      invariant rules == PresetRules(id, presets[..i])
    {
      PresetRulesSnoc(id, presets, i);
      rules := rules + [PresetRule(id, presets[i])];
    }
    assert presets[..|presets|] == presets;
    rules := rules + [ExhaustedRule(id, window)];
  }

  method AppendSliRules(id: Identity, resolved: Resolved, windows: seq<string>) returns (rules: seq<Rule>)
    ensures rules == SliRules(id, windows, SliTexts(resolved, windows))
  {
    rules := [];
    ghost var texts := SliTexts(resolved, windows);
    for i := 0 to |windows|
      invariant rules == SliRules(id, windows[..i], texts[..i])
    {
      assert windows[..i + 1][..i] == windows[..i] && texts[..i + 1][..i] == texts[..i];
      rules := rules + [SliRule(id, windows[i], SliText(resolved, windows[i]))];
    }
    assert windows[..|windows|] == windows && texts[..|windows|] == texts;
  }

  lemma CustomBudgetRulesSnoc(s: SloInfo, alerts: seq<BudgetAlert>, i: nat)
    requires i < |alerts|
    ensures CustomBudgetRules(s, alerts[..i + 1]) == CustomBudgetRules(s, alerts[..i]) + [CustomBudgetRule(s, alerts[i])]
  {
    hide CustomBudgetRule;
  }

  method AppendBudgetAlerts(s: SloInfo, alerts: Option<BudgetAlerts>, rules0: seq<Rule>) returns (rules: seq<Rule>)
    ensures rules == rules0 + BudgetAlertRules(s, alerts)
  {
    hide CustomBudgetRule, StandardBudgetRules;
    rules := rules0;
    if alerts.None? || !alerts.value.enabled {
      return;
    }
    rules := rules + StandardBudgetRules(s);
    var custom := alerts.value.alerts;
    for i := 0 to |custom|
      invariant rules == rules0 + StandardBudgetRules(s) + CustomBudgetRules(s, custom[..i])
    {
      CustomBudgetRulesSnoc(s, custom, i);
      rules := rules + [CustomBudgetRule(s, custom[i])];
    }
    assert custom[..|custom|] == custom;
  }

  method CreatePrometheusRule(sloName: string, namespace: string, objective: Objective)
    returns (r: Result<PrometheusRule>)
    ensures r.Ok? <==> Compilable(objective)
    ensures r.Ok? <==>
              && Resolvable(objective.sli)
              && (objective.burnRateAlerts.Some? && objective.burnRateAlerts.value.enabled ==>
                    PresetsOf(objective).Some?)
    ensures r.Ok? ==> exists resolved :: (ResolvesTo(objective.sli, resolved)
                                          && r.value == SloRule(sloName, namespace, objective, resolved))
  {
    var resolved := Resolve(objective.sli);
    if resolved.Err? {
      return Err("failed to resolve SLI queries: " + resolved.error);
    }
    var id := SloId(SloInfo(sloName, namespace, objective.name));
    var group := "slok." + sloName + "." + objective.name;
    var rules := AppendSliRules(id, resolved.value, RECORDING_WINDOWS);
    rules := rules + [ObjectiveRule(id, objective.target), BudgetRule(id, objective.target)];
    rules := AppendBurnRates(id, RECORDING_WINDOWS, rules);
    rules := AppendBudgetAlerts(id.slo, objective.budgetAlerts, rules);
    var groups := [RuleGroup(group, rules)];
    if AlertsEnabled(objective.burnRateAlerts) {
      var presets := BurnRatePresetsForObjective(objective);
      if presets.Err? {
        return Err(presets.error);
      }
      var alerts := AlertGroup(id, presets.value, objective.window);
      groups := groups + [RuleGroup(group + "-burnRateAlerts", alerts)];
    }
    r := Ok(PrometheusRule(
      "slok-" + sloName + "-" + objective.name, namespace,
      map["release" := "prometheus", "slok.io/slo" := sloName, "slok.io/objective" := objective.name],
      groups));
  }
}
