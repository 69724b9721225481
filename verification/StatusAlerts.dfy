/** The status that the controller computes, against the alerts that the rule generator emits. */
module StatusAlerts {
  import opened Strings
  import opened PromSyntax
  import opened PromEval
  import opened Templates
  import opened RuleGenerator
  import opened RuleMeaning
  import opened SliMeaning
  import opened SloMeaning
  import opened AlertMeaning
  import opened EmittedRules
  import opened Reconciler
  import B = ErrorBudget
  import D = Detector

  // ----- the controller's queries -----

  /** The controller writes the identity labels in an order of its own. */
  function QueryMatchers(s: SloInfo): seq<Matcher> {
    [Matcher("objective_name", false, s.objective),
     Matcher("slo_name", false, s.name),
     Matcher("slo_namespace", false, s.namespace)]
  }

  /** The client takes the first sample of the answer; no sample is an error. */
  function QueryAnswer(st: Store, metric: string, s: SloInfo): Option<real> {
    var v := Pick(QueryMatchers(s), SeriesOf(st, metric));
    if v == [] then None else Some(v[0].v)
  }

  lemma SameMatches(s: SloInfo, labels: Labels)
    ensures HoldsAll(QueryMatchers(s), labels) <==> HoldsAll(IdMatchers(SloId(s)), labels)
  {
    var q, m := QueryMatchers(s), IdMatchers(SloId(s));
    assert q[0] == m[2] && q[1] == m[0] && q[2] == m[1];
    assert HoldsAll(q, labels) <==> Holds(q[0], labels) && Holds(q[1], labels) && Holds(q[2], labels);
    assert HoldsAll(m, labels) <==> Holds(m[0], labels) && Holds(m[1], labels) && Holds(m[2], labels);
  }

  lemma {:induction false} SamePick(s: SloInfo, series: seq<Sample>)
    ensures Pick(QueryMatchers(s), series) == Pick(IdMatchers(SloId(s)), series)
  {
    if |series| == 0 {
    } else {
      SameMatches(s, series[0].labels);
      SamePick(s, series[1..]);
    }
  }

  lemma ShownAnswer(st: Store, metric: string, s: SloInfo, window: string, v: Option<real>)
    requires Shows(SloId(s), st, metric, window, v)
    ensures QueryAnswer(st, metric, s) == v
  {
    SamePick(s, SeriesOf(st, metric));
  }

  function ShortAnswers(st: Store, s: SloInfo, presets: seq<(string, string)>): (a: seq<Option<real>>)
    ensures |a| == |presets|
    ensures forall i | 0 <= i < |a| :: a[i] == QueryAnswer(st, "slok:burn_rate:" + presets[i].0, s)
  {
    seq(|presets|, i requires 0 <= i < |presets| => QueryAnswer(st, "slok:burn_rate:" + presets[i].0, s))
  }

  function LongAnswers(st: Store, s: SloInfo, presets: seq<(string, string)>): (a: seq<Option<real>>)
    ensures |a| == |presets|
    ensures forall i | 0 <= i < |a| :: a[i] == QueryAnswer(st, "slok:burn_rate:" + presets[i].1, s)
  {
    seq(|presets|, i requires 0 <= i < |presets| => QueryAnswer(st, "slok:burn_rate:" + presets[i].1, s))
  }

  /** All queries of one reconciliation, against one state of Prometheus. */
  function AnswersFrom(st: Store, s: SloInfo, window: string): (a: Answers)
    ensures |a.shorts| == |a.longs| == |PRESETS|
  {
    Answers(QueryAnswer(st, "slok:sli_error_rate:5m", s), QueryAnswer(st, "slok:burn_rate:" + window, s),
            ShortAnswers(st, s, PRESETS), LongAnswers(st, s, PRESETS))
  }

  // ----- tiers -----

  /** The burn rate of a recorded window, which may be missing. */
  ghost predicate BurnIs(s: SloInfo, st: Store, window: string, b: Option<real>) {
    Shows(SloId(s), st, BurnMetric(SloId(s), window), window, b)
  }

  /**
   A tier of the status holds exactly when the alert with the same windows and threshold fires,
   whether or not both windows have a burn rate: the tier takes a missing pair for zero, which
   exceeds no threshold.
   */
  lemma TierIsAlert(s: SloInfo, st: Store, i: nat, p: BurnRatePreset, short: Option<real>, long: Option<real>)
    requires i < |PRESETS| && p.shortWindow == PRESETS[i].0 && p.longWindow == PRESETS[i].1 && p.burnRate >= 0.0
    requires BurnIs(s, st, p.shortWindow, short) && BurnIs(s, st, p.longWindow, long)
    ensures var rates := Collected(PRESETS, ShortAnswers(st, s, PRESETS), LongAnswers(st, s, PRESETS));
            B.Tier(p.shortWindow, p.longWindow, p.burnRate, rates) <==> Fires(BurnRateAlertText(SloId(s), p), st)
  {
    hide Shows, Fires, Collected, QueryAnswer, B.Burn, BurnRateAlertText;
    ShownAnswer(st, BurnMetric(SloId(s), p.shortWindow), s, p.shortWindow, short);
    ShownAnswer(st, BurnMetric(SloId(s), p.longWindow), s, p.longWindow, long);
    PresetsDistinct();
    BurnCollected(PRESETS, ShortAnswers(st, s, PRESETS), LongAnswers(st, s, PRESETS), i);
    BurnRateAlertFires(SloId(s), p, st, short, long);
  }

  // ----- what the controller reads after the group has run -----

  lemma AnsweredWindow(s: SloInfo, st: Store, w: string, errors: map<string, real>, target: real)
    requires LeftBy(SloId(s), st, errors, target) && w in RECORDING_WINDOWS
    ensures QueryAnswer(st, "slok:sli_error_rate:" + w, s) == RateAt(errors, w)
    ensures QueryAnswer(st, "slok:burn_rate:" + w, s) == BurnAt(errors, w, target)
    ensures BurnIs(s, st, w, BurnAt(errors, w, target))
  {
    hide SoloOf, Unseen, QueryAnswer;
    assert Leaves(SloId(s), w, RateAt(errors, w), target, st);
    ShownAnswer(st, SliMetric(SloId(s), w), s, w, RateAt(errors, w));
    ShownAnswer(st, BurnMetric(SloId(s), w), s, w, BurnAt(errors, w, target));
  }

  /** The burn rate of a window: its error rate over the budget, if it has one. */
  function BurnAt(errors: map<string, real>, w: string, target: real): Option<real>
    requires target != 100.0
  {
    if w in errors then Some(errors[w] / (1.0 - target / 100.0)) else None
  }

  /** The answers of one reconciliation after the SLO's group has run. */
  lemma AnswersLeft(s: SloInfo, st: Store, window: string, errors: map<string, real>, target: real)
    requires LeftBy(SloId(s), st, errors, target) && window in RECORDING_WINDOWS
    ensures target != 100.0
    ensures AnswersFrom(st, s, window) == Answers(RateAt(errors, "5m"), BurnAt(errors, window, target),
              [BurnAt(errors, "5m", target), BurnAt(errors, "1h", target), BurnAt(errors, "6h", target),
               BurnAt(errors, "7d", target)],
              [BurnAt(errors, "1h", target), BurnAt(errors, "6h", target), BurnAt(errors, "3d", target),
               BurnAt(errors, "30d", target)])
  {
    hide QueryAnswer, LeftBy, BurnIs;
    LeftTarget(SloId(s), st, errors, target);
    assert RECORDING_WINDOWS[0] == "5m" && RECORDING_WINDOWS[1] == "1h" && RECORDING_WINDOWS[2] == "6h";
    assert RECORDING_WINDOWS[3] == "3d" && RECORDING_WINDOWS[4] == "7d" && RECORDING_WINDOWS[5] == "30d";
    assert "slok:sli_error_rate:" + "5m" == "slok:sli_error_rate:5m";
    forall w | w in RECORDING_WINDOWS
      ensures QueryAnswer(st, "slok:sli_error_rate:" + w, s) == RateAt(errors, w)
      ensures QueryAnswer(st, "slok:burn_rate:" + w, s) == BurnAt(errors, w, target)
    {
      AnsweredWindow(s, st, w, errors, target);
    }
  }

  lemma WindowAgrees(digits: string)
    requires |digits| > 0 && AllDigits(digits) && Decimal(digits) <= 106751
    ensures B.ParseWindow(digits + "m") == Ok(Seconds(digits + "m") * 1_000_000_000)
    ensures B.ParseWindow(digits + "h") == Ok(Seconds(digits + "h") * 1_000_000_000)
    ensures B.ParseWindow(digits + "d") == Ok(Seconds(digits + "d") * 1_000_000_000)
  {
    hide Seconds, B.ParseWindow, Decimal;
    DurationUnits(digits);
    B.DaysMeaning(digits);
    B.HoursAndMinutes(digits);
  }

  /** The controller and Prometheus read a recording window as the same length of time. */
  lemma RecordingWindowParses(window: string)
    requires window in RECORDING_WINDOWS
    ensures B.ParseWindow(window) == Ok(Seconds(window) * 1_000_000_000)
  {
    hide B.ParseWindow, Seconds, Decimal, AllDigits;
    WindowNumbers();
    assert "5" + "m" == "5m" && "1" + "h" == "1h" && "6" + "h" == "6h";
    assert "3" + "d" == "3d" && "7" + "d" == "7d" && "30" + "d" == "30d";
    assert window in ["5m", "1h", "6h", "3d", "7d", "30d"];
    WindowAgrees("5");
    WindowAgrees("1");
    WindowAgrees("6");
    WindowAgrees("3");
    WindowAgrees("7");
    WindowAgrees("30");
  }

  /**
   What the status reports: the actual value of the 5m error rate e; of a budget as long as the
   window the share b that the window's own burn rate uses up, and what is left of it; and the
   burn rates of the pairs of windows that have both.
   */
  ghost predicate Reports(known: ObjectiveStatus, minutes: real, e: real, b: real, rates: seq<B.BurnRate>) {
    && known.Known?
    && 100.0 - 100.0 * e - 0.005 <= known.actual <= 100.0 - 100.0 * e + 0.005
    && known.budget.total == minutes && known.budget.consumed == b * minutes
    && known.budget.remaining == (if b * minutes <= minutes then minutes - b * minutes else 0.0)
    && (b <= 1.0 ==> 100.0 - 100.0 * b - 0.005 <= known.budget.percentRemaining <= 100.0 - 100.0 * b + 0.005)
    && (b > 1.0 ==> known.budget.percentRemaining == 0.0)
    && known.rates == rates
  }

  /** The pairs of burn rates that an SLO's windows offer, in the order of the controller's presets. */
  function PairsOf(errors: map<string, real>, target: real): seq<B.BurnRate>
    requires target != 100.0
  {
    Entry(BurnAt(errors, "5m", target), BurnAt(errors, "1h", target), "5m", "1h")
    + Entry(BurnAt(errors, "1h", target), BurnAt(errors, "6h", target), "1h", "6h")
    + Entry(BurnAt(errors, "6h", target), BurnAt(errors, "3d", target), "6h", "3d")
    + Entry(BurnAt(errors, "7d", target), BurnAt(errors, "30d", target), "7d", "30d")
  }

  /**
   After an SLO's recording group has run, whichever windows have an error rate, for any target
   but 100 and any recording window as the SLO's own: the status is known exactly when the 5m
   window and the SLO's own have one, and what it then reports is theirs.
   */
  lemma StatusReports(s: SloInfo, st: Store, window: string, errors: map<string, real>, target: real)
    requires LeftBy(SloId(s), st, errors, target) && window in RECORDING_WINDOWS
    ensures target != 100.0
    ensures var known := StatusFor(window, AnswersFrom(st, s, window));
            && (known.Known? <==> "5m" in errors && window in errors)
            && (known.Known? ==> Reports(known, Seconds(window) as real / 60.0, errors["5m"],
                                         errors[window] / (1.0 - target / 100.0), PairsOf(errors, target)))
  {
    hide LeftBy, B.BudgetFor, B.DetermineStatus, B.ParseWindow, Collected, AnswersFrom, Seconds;
    AnswersLeft(s, st, window, errors, target);
    RecordingWindowParses(window);
    var a := AnswersFrom(st, s, window);
    if StatusFor(window, a).Known? {
      StatusAmounts(window, a);
      assert B.DurationSeconds(Seconds(window) * 1_000_000_000) == Seconds(window) as real;
    }
  }

  // ----- status and emitted alerts -----

  lemma TierBurns(i: nat, errors: map<string, real>, target: real, threshold: real, shorts: seq<Option<real>>,
                  longs: seq<Option<real>>)
    requires target != 100.0 && |shorts| == |longs| == |PRESETS| && i < |PRESETS| && threshold >= 0.0
    requires shorts[i] == BurnAt(errors, PRESETS[i].0, target) && longs[i] == BurnAt(errors, PRESETS[i].1, target)
    ensures B.Tier(PRESETS[i].0, PRESETS[i].1, threshold, Collected(PRESETS, shorts, longs)) <==>
            Burns(errors, PRESETS[i].0, target, threshold) && Burns(errors, PRESETS[i].1, target, threshold)
  {
    hide Collected, B.Burn;
    PresetsDistinct();
    BurnCollected(PRESETS, shorts, longs, i);
  }

  /** The highest of the first three emitted alerts that fires. */
  ghost function FiringTier(alerts: seq<Rule>, st: Store): (tier: B.Status)
    requires |alerts| >= 3
    ensures tier != B.Violated
  {
    if Fires(alerts[0].expr, st) then B.Critical
    else if Fires(alerts[1].expr, st) then B.Degraded
    else if Fires(alerts[2].expr, st) then B.Warning
    else B.Met
  }

  lemma StatusOfTiers(s: SloInfo, st: Store, window: string, errors: map<string, real>, target: real,
                      alerts: seq<Rule>, title: string, percent: real)
    requires LeftBy(SloId(s), st, errors, target) && window in RECORDING_WINDOWS && target != 100.0
    requires Alerts(alerts, SloId(s), title, DEFAULT_PRESETS, window, st, errors, target)
    ensures |alerts| == 5
    ensures var a := AnswersFrom(st, s, window);
            B.DetermineStatus(percent, Collected(PRESETS, a.shorts, a.longs))
            == if percent <= 0.0 then B.Violated else FiringTier(alerts, st)
  {
    hide LeftBy, Fires, Burns, Collected, AnswersFrom, IsAlert, B.Tier;
    DefaultAlerts(alerts, SloId(s), title, window, st, errors, target);
    AnswersLeft(s, st, window, errors, target);
    var a := AnswersFrom(st, s, window);
    TierBurns(0, errors, target, 14.0, a.shorts, a.longs);
    TierBurns(1, errors, target, 6.0, a.shorts, a.longs);
    TierBurns(2, errors, target, 1.0, a.shorts, a.longs);
  }

  lemma BurnExceeds(e: real, u: real)
    requires u > 0.0 && e > u
    ensures e / u > 1.0
  {
  }

  /**
   The status of one reconciliation, when b of the window's budget is burned, against the alerts
   that were emitted: violated exactly above 99.995%, which a firing budget-exhausted alert (the
   last) implies; otherwise the highest of the first three alerts that fires, and met when none does.
   */
  ghost predicate Verdict(known: ObjectiveStatus, alerts: seq<Rule>, st: Store, b: real) {
    && known.Known? && |alerts| == 5
    && (known.status == B.Violated <==> b > 0.99995)
    && (Fires(alerts[4].expr, st) ==> known.status == B.Violated)
    && (known.status != B.Violated ==> known.status == FiringTier(alerts, st))
  }

  lemma EmittedVerdict(s: SloInfo, st: Store, window: string, errors: map<string, real>, target: real,
                       alerts: seq<Rule>, title: string)
    requires LeftBy(SloId(s), st, errors, target) && window in RECORDING_WINDOWS && target < 100.0
    requires Alerts(alerts, SloId(s), title, DEFAULT_PRESETS, window, st, errors, target)
    requires "5m" in errors && window in errors
    ensures Verdict(StatusFor(window, AnswersFrom(st, s, window)), alerts, st, errors[window] / (1.0 - target / 100.0))
  {
    hide LeftBy, Fires, Burns, Collected, AnswersFrom, IsAlert, B.Tier, FiringTier, B.DetermineStatus, B.BudgetFor,
         B.DurationSeconds, B.ParseWindow;
    var a, u := AnswersFrom(st, s, window), 1.0 - target / 100.0;
    var b := errors[window] / u;
    AnswersLeft(s, st, window, errors, target);
    RecordingWindowParses(window);
    var seconds := B.DurationSeconds(B.ParseWindow(window).value);
    B.ExhaustedExactly(seconds, b, errors["5m"]);
    StatusOfTiers(s, st, window, errors, target, alerts, title,
                  B.BudgetFor(seconds, b, errors["5m"]).0.percentRemaining);
    if window == "30d" && errors["30d"] > u {
      BurnExceeds(errors["30d"], u);
    }
  }

  /**
   An SLO compiled with the default alerts, and its recording group run: as soon as the status is
   known, status and emitted alerts agree. Target below 100, any recording window as its own.
   */
  lemma StatusMatchesAlerts(sloName: string, namespace: string, objective: Objective, resolved: Resolved, st: Store,
                            errors: map<string, real>)
    requires Compilable(objective) && objective.target < 100.0 && objective.window in RECORDING_WINDOWS
    requires objective.burnRateAlerts.Some? && objective.burnRateAlerts.value == BurnRates(true, [])
    requires LeftBy(SloId(SloInfo(sloName, namespace, objective.name)), st, errors, objective.target)
    ensures var s, w := SloInfo(sloName, namespace, objective.name), objective.window;
            var known := StatusFor(w, AnswersFrom(st, s, w));
            var groups := SloRule(sloName, namespace, objective, resolved).groups;
            && |groups| == 2
            && (known.Known? <==> "5m" in errors && w in errors)
            && (known.Known? ==>
                  && Reports(known, Seconds(w) as real / 60.0, errors["5m"],
                             errors[w] / (1.0 - objective.target / 100.0), PairsOf(errors, objective.target))
                  && Verdict(known, groups[1].rules, st, errors[w] / (1.0 - objective.target / 100.0)))
  {
    hide LeftBy, SloRule, Alerts, Verdict, Reports, StatusFor, AnswersFrom, Fires, Seconds;
    var s, w := SloInfo(sloName, namespace, objective.name), objective.window;
    StatusReports(s, st, w, errors, objective.target);
    SloAlerts(sloName, namespace, objective, resolved, st, errors);
    if "5m" in errors && w in errors {
      EmittedVerdict(s, st, w, errors, objective.target, SloRule(sloName, namespace, objective, resolved).groups[1].rules,
                     "Objective: " + objective.name);
    }
  }

  /**
   The detector's cuts are the burn rates of the first three default alerts. A critical spike of
   the 5m burn rate therefore comes with the first emitted alert exactly when the 1h burn rate is
   above 14 as well.
   */
  lemma SpikeAgainstAlerts(s: SloInfo, st: Store, window: string, errors: map<string, real>, target: real,
                           alerts: seq<Rule>, title: string, previous: real)
    requires LeftBy(SloId(s), st, errors, target) && target != 100.0 && "5m" in errors && "1h" in errors
    requires Alerts(alerts, SloId(s), title, DEFAULT_PRESETS, window, st, errors, target)
    ensures var rate := errors["5m"] / (1.0 - target / 100.0); var spike := D.Crossing(previous, rate);
            var critical, degraded, warning :=
              DEFAULT_PRESETS[0].burnRate, DEFAULT_PRESETS[1].burnRate, DEFAULT_PRESETS[2].burnRate;
            && |PairsOf(errors, target)| > 0 && PairsOf(errors, target)[0].shortRate == rate && |alerts| == 5
            && (spike == Some(("critical", critical)) <==> previous <= critical < rate)
            && (spike == Some(("degraded", degraded)) <==> previous <= degraded < rate <= critical)
            && (spike == Some(("warning", warning)) <==> previous <= warning < rate <= degraded)
            && (spike == Some(("critical", critical)) ==>
                  (Fires(alerts[0].expr, st) <==> errors["1h"] / (1.0 - target / 100.0) > critical))
  {
    hide LeftBy, Fires, IsAlert;
    DefaultAlerts(alerts, SloId(s), title, window, st, errors, target);
    assert "critical" != "degraded" && "critical" != "warning" && "degraded" != "warning";
  }

  // ----- unknown while an alert fires -----

  /** Requests of a service that was last scraped ten minutes ago: none of them fast, and none in the last 5m. */
  function StaleStore(threshold: string): Store {
    var requests := map[3600 := 100.0, 21600 := 100.0, 259200 := 100.0, 604800 := 100.0, 2592000 := 100.0];
    var fast := map[3600 := 0.0, 21600 := 0.0, 259200 := 0.0, 604800 := 0.0, 2592000 := 0.0];
    Store(map[], map[BUCKET_METRIC := [Counter(map["le" := threshold], fast)],
                     COUNT_METRIC := [Counter(map[], requests)]])
  }

  lemma StaleIncreases(threshold: string, window: string)
    ensures var st := StaleStore(threshold);
            var fast := Increases(SelectorFor(BUCKET_METRIC, [] + [Matcher("le", false, threshold)]), window, st);
            var total := Increases(SelectorFor(COUNT_METRIC, []), window, st);
            if Seconds(window) in {3600, 21600, 259200, 604800, 2592000}
            then fast == [Sample(map["le" := threshold], 0.0)] && total == [Sample(map[], 100.0)]
            else fast == [] && total == []
  {
    hide Seconds;
    var le, st := Matcher("le", false, threshold), StaleStore(threshold);
    var fast, total := st.counters[BUCKET_METRIC][0], st.counters[COUNT_METRIC][0];
    assert CountersOf(st, BUCKET_METRIC) == [fast] && CountersOf(st, COUNT_METRIC) == [total];
    OneIncrease([] + [le], Seconds(window), fast);
    OneIncrease([], Seconds(window), total);
  }

  lemma OneIncrease(ms: seq<Matcher>, seconds: nat, c: Counter)
    requires HoldsAll(ms, c.labels)
    ensures PickIncreases(ms, seconds, [c])
         == if seconds in c.increase then [Sample(c.labels, c.increase[seconds])] else []
  {
    assert [c][1..] == [];
    assert PickIncreases(ms, seconds, []) == [];
  }

  lemma StaleAt(threshold: string, window: string)
    requires Seconds(window) > 0
    ensures LatencyAt([], threshold, window, StaleStore(threshold))
         == if Seconds(window) in {3600, 21600, 259200, 604800, 2592000} then Some(1.0) else None
  {
    hide Seconds, Increases, StaleStore;
    StaleIncreases(threshold, window);
    assert Sum([Sample(map["le" := threshold], 0.0)]) == 0.0 && Sum([Sample(map[], 100.0)]) == 100.0;
    NothingFast(100.0 / Seconds(window) as real, Seconds(window) as real);
  }

  lemma NothingFast(rate: real, n: real)
    requires n > 0.0
    ensures 1.0 - 0.0 / n / Max(rate, EPSILON) == 1.0
  {
  }

  /** Rate one in every recording window but the shortest. */
  function StaleRates(): map<string, real> {
    map["1h" := 1.0, "6h" := 1.0, "3d" := 1.0, "7d" := 1.0, "30d" := 1.0]
  }

  lemma StaleErrors(threshold: string)
    ensures forall i | 0 <= i < |RECORDING_WINDOWS| ::
              LatencyErrors([], threshold, StaleStore(threshold))[i] == RateAt(StaleRates(), RECORDING_WINDOWS[i])
  {
    hide Seconds, LatencyAt, StaleStore;
    WindowsTimed();
    forall i | 0 <= i < |RECORDING_WINDOWS|
      ensures LatencyAt([], threshold, RECORDING_WINDOWS[i], StaleStore(threshold))
           == RateAt(StaleRates(), RECORDING_WINDOWS[i])
    {
      StaleWindow(threshold, RECORDING_WINDOWS[i]);
    }
  }

  lemma StaleWindow(threshold: string, w: string)
    requires w in RECORDING_WINDOWS && Seconds(w) > 0
    ensures LatencyAt([], threshold, w, StaleStore(threshold)) == RateAt(StaleRates(), w)
  {
    hide Seconds, LatencyAt, StaleStore;
    WindowLengths();
    assert w in ["5m", "1h", "6h", "3d", "7d", "30d"];
    StaleAt(threshold, w);
  }

  /** What is compiled for the SLO: the latency template without labels. */
  function StaleRule(sloName: string, namespace: string, objective: Objective, threshold: string): PrometheusRule
    requires Compilable(objective)
  {
    SloRule(sloName, namespace, objective, Resolved([], [], LatencyRaw([], threshold)))
  }

  /** The store after one evaluation of the SLO's group over the stale one. */
  function StaleRun(sloName: string, namespace: string, objective: Objective, threshold: string): Store
    requires Compilable(objective)
  {
    EvalGroup(StaleRule(sloName, namespace, objective, threshold).groups[0].rules, StaleStore(threshold))
  }

  lemma StaleLeft(sloName: string, namespace: string, objective: Objective, threshold: string)
    requires Compilable(objective) && objective.target != 100.0
    ensures LeftBy(SloId(SloInfo(sloName, namespace, objective.name)),
                   StaleRun(sloName, namespace, objective, threshold), StaleRates(), objective.target)
  {
    hide EvalGroup, LatencyRaw, LatencyErrors, Leaves, StaleStore, RecordingRules, SliTexts, RateAt;
    var id := SloId(SloInfo(sloName, namespace, objective.name));
    var st := StaleRun(sloName, namespace, objective, threshold);
    StaleOwned(id, threshold);
    LatencyGroupMeaning(sloName, namespace, objective, [], threshold, StaleStore(threshold));
    StaleErrors(threshold);
    forall w | w in RECORDING_WINDOWS ensures Leaves(id, w, RateAt(StaleRates(), w), objective.target, st) {
      var i :| 0 <= i < |RECORDING_WINDOWS| && RECORDING_WINDOWS[i] == w;
    }
    assert RECORDING_WINDOWS[1] == "1h" && RECORDING_WINDOWS[2] == "6h" && RECORDING_WINDOWS[3] == "3d";
    assert RECORDING_WINDOWS[4] == "7d" && RECORDING_WINDOWS[5] == "30d";
  }

  /**
   Ten minutes after the last scrape of a service all of whose requests were slow: the 5m series
   is gone, so the status is unknown, while the second of the emitted alerts, Degraded, fires on
   the 1h and 6h burn rates.
   */
  lemma UnknownWhileFiring(sloName: string, namespace: string, objective: Objective, threshold: string)
    requires Compilable(objective) && 90.0 <= objective.target < 100.0 && objective.window in RECORDING_WINDOWS
    requires objective.burnRateAlerts.Some? && objective.burnRateAlerts.value == BurnRates(true, [])
    ensures var s := SloInfo(sloName, namespace, objective.name);
            var rule, st := StaleRule(sloName, namespace, objective, threshold),
                            StaleRun(sloName, namespace, objective, threshold);
            && StatusFor(objective.window, AnswersFrom(st, s, objective.window)) == Unknown
            && |rule.groups| == 2 && |rule.groups[1].rules| == 5
            && Fires(rule.groups[1].rules[1].expr, st)
  {
    hide StaleRun, LeftBy, AnswersFrom, StaleStore, Fires, Verdict, StatusFor, Compilable, SloRule, Alerts, LatencyRaw,
         IsAlert;
    var s, target := SloInfo(sloName, namespace, objective.name), objective.target;
    var st := StaleRun(sloName, namespace, objective, threshold);
    StaleLeft(sloName, namespace, objective, threshold);
    StatusReports(s, st, objective.window, StaleRates(), target);
    SloAlerts(sloName, namespace, objective, Resolved([], [], LatencyRaw([], threshold)), st, StaleRates());
    DefaultAlerts(StaleRule(sloName, namespace, objective, threshold).groups[1].rules, SloId(s),
                  "Objective: " + objective.name, objective.window, st, StaleRates(), target);
    assert "5m" !in StaleRates() && "1h" in StaleRates() && "6h" in StaleRates();
    FastBurn(target);
  }

  lemma StaleOwned(id: Identity, threshold: string)
    ensures Owned(id, RECORDING_WINDOWS, StaleStore(threshold))
  {
  }

  lemma FastBurn(target: real)
    requires 90.0 <= target < 100.0
    ensures 1.0 / (1.0 - target / 100.0) > 6.0
  {
    var u := 1.0 - target / 100.0;
    assert 0.0 < u <= 0.1;
    var q := 1.0 / u;
    assert q * u == 1.0 && 6.0 * u < 1.0;
  }

  /** A window without recording rule has no burn rate, whatever the group's texts compute. */
  lemma UnrecordedName(id: Identity, windows: seq<string>, window: string)
    requires window !in windows
    ensures !Recorded(id, windows, BurnMetric(id, window))
  {
    Initials(id, window);
    forall i | 0 <= i < |windows|
      ensures BurnMetric(id, window) != SliMetric(id, windows[i]) && BurnMetric(id, window) != BurnMetric(id, windows[i])
    {
      Initials(id, windows[i]);
      WindowInName(id, window, windows[i]);
    }
  }

  /**
   An SLO whose own window is not a recording window, with no burn-rate series of somebody
   else's for it, stays in unknown status: running its rules does not change that.
   */
  lemma UnrecordedWindowUnknown(s: SloInfo, st: Store, window: string, texts: seq<Text>, target: real)
    requires |texts| == |RECORDING_WINDOWS| && window !in RECORDING_WINDOWS
    requires QueryAnswer(st, BurnMetric(SloId(s), window), s) == None
    ensures var final := EvalGroup(RecordingRules(SloId(s), RECORDING_WINDOWS, texts, target), st);
            StatusFor(window, AnswersFrom(final, s, window)) == Unknown
  {
    hide EvalGroup, RecordingRules, Recorded, Pick;
    UnrecordedName(SloId(s), RECORDING_WINDOWS, window);
    UntouchedByGroup(SloId(s), RECORDING_WINDOWS, texts, target, st, BurnMetric(SloId(s), window));
  }
}
