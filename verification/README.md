# SloK in Dafny

SloK is a Kubernetes operator that turns a declarative service level objective into Prometheus
recording and alerting rules, reads the recorded series back, classifies the objective, and, when
its burn rate spikes, looks for cluster changes that may explain it. This project models those
five parts and proves what they promise.

* **The rule compiler.** The text of a rule is a sequence of PromQL tokens. `PromSyntax` has a
  parser with the precedence of the Prometheus documentation ("Operators", "Binary operator
  precedence") and proves that printing and parsing are inverse to each other; `PromEval` gives
  the expressions a value in a store of series and counters, and evaluates a rule group rule by
  rule. `Templates`, `RuleGenerator` and `CompositionGenerator` are the compiler, loops included;
  `SliMeaning`, `SloMeaning`, `TemplateRates`, `RuleMeaning`, `AlertMeaning`, `EmittedRules`,
  `CompositionMeaning`, `CompositionGroups`, `CompositionFormula` and `EndToEnd` say what the
  compiled text is worth.
* **The spike detector** (`Detector`): a class with one mutable state object per SLO, specified by
  a step function; the claims are about whole interleaved runs.
* **The change collector and the correlation engine** (`Collector`, `Engine`): a circular array
  that agrees with an unbounded log, then filter, score, sort and summary.
* **Budget, status and backtest** (`ErrorBudget`, `Reconciler`, `StatusAlerts`, `CachedStatus`,
  `Backtest`), with the agreement between the status, the emitted alerts and the backtest.
* **The query cache** (`Cache`): a class for one call at a time, and a state machine for calls
  that overlap between look-up, fetch and store.

Floats are `real`; an operation that would give NaN or an infinity (a division by zero, `scalar`
of no series) has the value `Fail`. Times are whole nanoseconds, and every clock reading is a
parameter. `%g` prints one exact number token, with a minus sign before a negative one.

Main results, with what a reader would not guess from the code:

* The text of a weighted composition parses to the documented formula for every list of routes
  with non-empty chains, every weight and every store with one series per SLO
  (`CompositionMeaning.WeightedValue`). It is a number exactly when every component has one series
  in the window (`WeightedExactly`), and it parses at all exactly when there is a route and no chain
  is empty; the admission check allows empty chains (`AdmittedButUnparsable`).
* For each template the recorded error rate is given in terms of the service's counters alone: which
  counters are added up, over which time, and their quotient, floored at a trillionth of a request
  per second (`TemplateRates.AvailabilitySlo`, `ApiServerSlo`, `LatencySlo`).
* One evaluation of an emitted group solves all its equations at once (`PromEval.GroupSettles`),
  so each burn rate is its error rate over the budget: for SLOs of every template, window by
  window (`SloMeaning.SloGroupMeaning`, `SloMeaning.LatencyGroupMeaning`), for compositions of both
  kinds over them, again window by window (`EndToEnd.AdmittedComposition`, `AndMinFromCounters`), and
  for SLOs and a composition evaluated round after round while the counters change
  (`EndToEnd.RoundsMeaning`, `WeightedRounds`, `AndMinRounds`).
* The budget-exhausted alert fires exactly when the error rate exceeds the budget and the SLO's
  window is `30d`. The budget series is always labelled `30d` and the comparison matches on all
  labels, so for any other window the alert is silent (`AlertMeaning.ExhaustedAlertFires`), also in
  an outage that burns the budget of a `7d` SLO a hundred times over (`SilentOutage`).
* Every alert of an emitted rule fires exactly when it should, under its name, labels and severity: the
  presets' by the burn rates of two windows, the last by the budget (`EmittedRules.SloAlerts`,
  `CompositionAlerts`, with the default numbers in `DefaultAlerts`). Two SLOs of one namespace write to
  the same rule object when their names, joined by a dash, are the same (`RuleNamesCollide`).
* AND_MIN selects by an id without a namespace, used as a regular expression. Over a set of deployed
  SLOs it is the maximum of the referenced rates, for all rates, exactly when the joined pattern
  takes the ids of the referenced SLOs and of no other deployed one
  (`CompositionGroups.AndMinExactly`, and in terms of single ids `AndMinByIds`). A namesake in another
  namespace, or `axb` beside a referenced `a.b`, raises it (`NamesakeRaises`, `DottedNameRaises`).
* After the recording group has run, the status is known exactly when the 5m window and the SLO's own
  have an error rate, and then reports their amounts. It is violated exactly above 99.995% of the
  budget, and otherwise the highest of the first three emitted alerts that fires
  (`StatusAlerts.StatusReports`, `StatusMatchesAlerts`). Without a 5m value the two part: the status
  is unknown while the Degraded alert fires (`UnknownWhileFiring`).
* The controller asks through a cache. Under every interleaving its status is the one that a direct
  look at Prometheus gives, when nothing it asks has changed since the time to live and one call's
  delay before the reconciliation (`CachedStatus.CachedStatusIsCurrent`).
* The reported total is the whole window (43200 minutes for 30d), where `docs/alerting.md:40-41`
  says 43.2 minutes (`ErrorBudget.ThirtyDayTotal`); the two agree only for target 0
  (`TotalIsWholeWindow`). The model follows the code.
* The check on the age of a change removes nothing from an analysis exactly when the analysis runs
  at most 3h30m and one nanosecond after the trigger (`Engine.CandidatesExactly`).
* A query may be answered by what the backend told the other kind of query. Every hit is answered by
  its own kind, in every behaviour, exactly when no query text is used with both kinds, or the time
  to live is negative (`Cache.KindsShareTheCache`). No controller and no backtest of the repository
  calls `QuerySLINotNormalized`, so there the condition holds.
* A query is stored again within the time to live only by a call that had already looked up when it
  was stored before (`Cache.StoresApart`); so calls for one query that do not overlap store it more
  than the time to live apart, whatever other queries do (`Cache.StoresSpaced`).
* In every interleaved run, a spike is detected exactly when the SLO's burn rate rises across 14, 6 or 1
  and the cooldown has passed since its own detections; a rise inside the cooldown is never made up
  for (`Detector.DetectionByCuts`, `MissedRiseStaysMissed`, with the run `RiseMissed`).
* The budget alerts read `optimization_request_objective_percent_remaining`. No recording group writes
  it (`AlertMeaning.BudgetAlertsUnfed`), and the operator's own gauge has another name,
  `slok_slo_objective_percent_remaining` (`internal/prometheus/metrics.go:45-47`): without a series of
  the former name the alerts never fire (`AlertMeaning.BudgetAlertsFire`).
* The detector's first burn rate is the 5m one exactly when both queries of the first preset were
  answered (`Reconciler.FirstCollected`); otherwise another window's rate is compared with the 5m
  history, and a spike is reported although no burn rate has changed (`StandInSpike`).
* Raw backtest and rule agree over one range exactly when both series exist and, besides, nothing
  failed, or the total rate reaches the floor, or the range is one second long
  (`Backtest.RawAgreesWithRule`). So they differ for a service without any failure yet, whose rule is
  worth 0 while the raw query yields nothing (`Backtest.FlawlessBacktest`).

`dafny verify dfyconfig.toml` checks the whole project. No lemma relies on automatic induction: it
verifies with `--manual-lemma-induction` as well.

## Model

| member | source | states |
|---|---|---|
| PromSyntax.RoundTrip | internal/prometheus/prometheus_rule_generator.go:171-218 | Text has one meaning: a tree that respects operator precedence is what its own text parses to. |
| PromSyntax.ParseExactly | internal/prometheus/prometheus_rule_generator.go:171-218 | A text parses to a tree exactly when the tree respects precedence and the text is its print. |
| PromEval.GroupSettles | internal/prometheus/prometheus_rule_generator.go:480-520 | Evaluating a well-ordered group once, rule by rule, makes every rule's equation hold in the final store. |
| PromEval.SettledSolo | internal/prometheus/prometheus_rule_generator.go:492-511 | A settled rule worth one number leaves exactly one series under its labels, whatever older versions of it were there. |
| PromEval.AmbiguousFails | internal/prometheus/prometheus_rule_generator.go:181-188 | Two series on one side that would match one and the same series of the other fail an arithmetic operation or comparison. |
| Templates.BuildLabelSelector | internal/templates/templates.go:218-229 | The text lists every label once, in some order: any iteration order of the map may come out. |
| Templates.HttpAvailabilityTemplate | internal/templates/templates.go:91-107 | Total and error query are the selectors without and with `status=~"5.."`, also for empty labels. |
| Templates.HttpLatencyTemplate | internal/templates/templates.go:133-169 | Succeeds exactly when a non-empty threshold is given, and then yields the histogram expression with window placeholders. |
| Templates.KubernetesAPIServerTemplate | internal/templates/templates.go:192-214 | The same as the availability template with the given error codes, `5..` by default. |
| Templates.Resolve | internal/templates/templates.go:45-74 | Fails exactly for an unknown template, a latency template without threshold, or neither template nor query. |
| SliMeaning.SliMeans | internal/prometheus/prometheus_rule_generator.go:171-179 | The zero-traffic-safe text parses to the intended tree, with `or absent(...)` outermost. |
| SliMeaning.SliWorth | internal/prometheus/prometheus_rule_generator.go:171-179 | Whatever series exist, the expression has exactly one value: 1 without total series, else the floored ratio with a missing error series counted as 0. |
| SliMeaning.TemplateMeaning | internal/templates/templates.go:91-107 | For all label maps, iteration orders and non-negative counters the error rate is one value in [0,1], 1 if the total is absent, 0 if nothing failed. |
| SliMeaning.TemplateOrderIrrelevant | internal/templates/templates.go:218-229 | Two iteration orders of one label map give the same error rate. |
| TemplateRates.StandardSlo | internal/prometheus/prometheus_rule_generator.go:171-179 | For any two selectors of one metric the recorded rate v satisfies v * total == failed from a trillionth per second on, is failed per second times a trillion below, and 1 when nothing is counted. |
| TemplateRates.AvailabilitySlo | internal/templates/templates.go:91-107 | http-availability, from counters to the emitted rule's series: that quotient of the `http_requests_total` counters with the labels, failed being a status of three characters that begins with 5. |
| TemplateRates.ApiServerSlo | internal/templates/templates.go:192-214 | The same for `apiserver_request_total` and `code`, with the given pattern of codes or the default. |
| TemplateRates.LatencySlo | internal/templates/templates.go:133-169 | http-latency: 1 minus that quotient of the bucket with the threshold and the request count, or no series where either is missing. |
| SloMeaning.LatencyMeaning | internal/templates/templates.go:133-169 | The latency expression has a value exactly when both series exist, and that value is 1 whenever no fast request was counted, so also at zero traffic. |
| SloMeaning.SloGroupMeaning | internal/prometheus/prometheus_rule_generator.go:480-520 | For SLOs with two metric selectors (manual, http-availability, kubernetes-apiserver): the group is well ordered, and after one evaluation every window has its error rate, the budget is 1 - target/100 and every burn rate is their quotient. |
| SloMeaning.LatencyGroupMeaning | internal/prometheus/prometheus_rule_generator.go:483-520 | For http-latency, window by window: where both series exist the latency error rate and its quotient by the budget; where one is missing no error rate and no burn rate is left. |
| SloMeaning.SloRuleRecords | internal/prometheus/prometheus_rule_generator.go:522-562 | The budget alerts at the end of the recording group neither disturb its order nor record anything. |
| RuleGenerator.CreatePrometheusRule | internal/prometheus/prometheus_rule_generator.go:454-600 | Succeeds exactly when the queries resolve and, with alerts enabled, the presets are valid; the rule, with its budget alerts and hold durations, is the one whose recording group `SloGroupMeaning` and `LatencyGroupMeaning` describe. |
| RuleGenerator.AppendBudgetAlerts | internal/prometheus/prometheus_rule_generator.go:522-562 | Appends, when enabled, the two standard budget alerts and the custom ones in order. |
| AlertMeaning.BudgetAlertsFire | internal/prometheus/prometheus_rule_generator.go:529-561 | At risk strictly between 0 and 10 percent, violated at 0 and below, custom below the percentage rounded to hundredths; none fires without the series. |
| AlertMeaning.BudgetAlertsUnfed | internal/prometheus/prometheus_rule_generator.go:522-562 | No recording group changes what the budget alerts see. |
| RuleGenerator.BurnRatePresetsForObjective | internal/prometheus/prometheus_rule_generator.go:114-144 | Fails exactly when some custom alert names a window without recording rule or has a bad duration; else yields the defaults or the custom presets in order. |
| RuleMeaning.GroupWellOrdered | internal/prometheus/prometheus_rule_generator.go:480-520 | Every rule records a series of its own and reads only sources and series recorded before it. |
| RuleMeaning.GroupWindow | internal/prometheus/prometheus_rule_generator.go:483-520 | One window of one evaluation, whatever the other windows do: a number becomes error rate and burn rate, no series leaves neither, even if older ones were there. |
| RuleMeaning.GroupMeaning | internal/prometheus/prometheus_rule_generator.go:251-284 | For any identity, texts that read only sources, and target other than 100: error rates, target, budget and burn rates after one evaluation. |
| RuleMeaning.StillOwned | internal/prometheus/prometheus_rule_generator.go:480-520 | Whatever its texts computed, a group leaves its identity's series to its own rules alone. |
| RuleMeaning.BurnRateWorth | internal/prometheus/prometheus_rule_generator.go:181-198 | The burn-rate text is worth error rate over budget although the two series differ in `slok_window`. |
| AlertMeaning.BurnRateAlertFires | internal/prometheus/prometheus_rule_generator.go:210-218 | Fires exactly when both windows have a burn rate and both exceed the threshold. |
| AlertMeaning.ExhaustedAlertFires | internal/prometheus/prometheus_rule_generator.go:584-593 | Fires exactly when the window is `30d` and the error rate exceeds the budget. |
| AlertMeaning.SilentOutage | internal/prometheus/prometheus_rule_generator.go:584-593 | At error rate 1 against a budget of 0.01 the alert fires for `30d` and is silent for `7d`. |
| EmittedRules.SloSeries | internal/prometheus/prometheus_rule_generator.go:149-158 | After the group has run, the documented series names, queried by the three identity labels, answer with exactly one series under the full labels, or none for a window without rate. |
| EmittedRules.CompositionSeries | internal/prometheus/prometheus_rule_generator.go:160-169 | The same for a composition's series. |
| EmittedRules.SloAlerts | internal/prometheus/prometheus_rule_generator.go:564-597 | The emitted rule has an alert group exactly when burn-rate alerting is enabled: one alert per preset, which fires exactly when both its windows burn faster than its rate, and last the one that fires exactly when the window is `30d` and the rate exceeds the budget; each with its name, labels and severity. |
| EmittedRules.CompositionAlerts | internal/prometheus/prometheus_rule_generator.go:285-315 | The same for the emitted rule of either kind of composition, with the default presets. |
| EmittedRules.DefaultAlerts | internal/prometheus/prometheus_rule_generator.go:33-38 | The default alerts in numbers: 5m and 1h above 14, 1h and 6h above 6, 6h and 3d above 1, 7d and 30d above 0.5; without the hold times that the presets name. |
| EmittedRules.SloBudgetAlerts | internal/prometheus/prometheus_rule_generator.go:522-562 | After the fourteen recording rules come, exactly if enabled, the two standard budget alerts and the custom ones, each with its name, severity, hold time and firing condition. |
| EmittedRules.Hundredths | internal/prometheus/prometheus_rule_generator.go:553-556 | The printed percentage of a custom budget alert is the nearest whole number of hundredths, the even one of two. |
| EmittedRules.RuleNames | internal/prometheus/prometheus_rule_generator.go:460-470 | Two SLOs of one namespace get the same object name exactly when their names joined by a dash are the same, so never for SLO names without a dash. |
| EmittedRules.RuleNamesCollide | internal/prometheus/prometheus_rule_generator.go:460-470 | SLO `a-b` with objective `c` and SLO `a` with objective `b-c` get the same name. |
| EmittedRules.CompositionNames | internal/prometheus/prometheus_rule_generator.go:223-236 | Name, labels and group of a composition's object; the name may still be that of an SLO whose objective is called `aggregated`. |
| AlertMeaning.ExhaustedAlertWithoutSeries | internal/prometheus/prometheus_rule_generator.go:584-593 | Never fires for an SLO window that has no error-rate series. |
| AlertMeaning.ThresholdConsumes | internal/prometheus/prometheus_rule_generator.go:100-112 | At the computed threshold the consume window, in seconds, uses up exactly the given percentage of the SLO window's budget. |
| AlertMeaning.PresetsExactly | internal/prometheus/prometheus_rule_generator.go:52-144 | An alerting configuration is accepted exactly when every custom alert names two recorded windows and all its durations are valid. |
| AlertMeaning.CustomPreset | internal/prometheus/prometheus_rule_generator.go:114-144 | A custom alert becomes a preset of its own windows, name and severity whose rate consumes the given percentage in its consume window. |
| AlertMeaning.PresetWindowsRecorded | internal/prometheus/prometheus_rule_generator.go:52-74 | Every preset of an accepted objective names two windows that have recording rules. |
| CompositionGenerator.CreateAggregatedPrometheusRule | internal/prometheus/prometheus_rule_generator.go:220-452 | Succeeds exactly for AND_MIN, or WEIGHTED_ROUTES with params and known aliases; the error names a missing alias. |
| CompositionGenerator.ValidateSLOComposition | internal/webhook/v1alpha1/slocomposition_webhook.go:86-119 | Rejects exactly duplicate route names and undeclared aliases of weighted compositions with params. |
| CompositionGenerator.AliasMeaning | internal/prometheus/prometheus_rule_generator.go:345-354 | Each alias resolves to the SLO of the last objective that carries the name. |
| CompositionGenerator.AdmittedGenerates | internal/webhook/v1alpha1/slocomposition_webhook.go:105-116 | With one fetched SLO per objective, generation fails exactly when a chain alias is undeclared; an admitted composition is always generated. |
| CompositionGenerator.GeneratesExactly | internal/prometheus/prometheus_rule_generator.go:220-452 | AND_MIN is always generated, WEIGHTED_ROUTES exactly with params whose chains name only objectives with a fetched SLO, any other kind never. |
| CompositionMeaning.WeightedMeans | internal/prometheus/prometheus_rule_generator.go:361-397 | The joined text parses under PromQL precedence to one minus the sum of weight times product. |
| CompositionMeaning.WeightedValue | internal/prometheus/prometheus_rule_generator.go:361-397 | With one series per SLO the text is worth 1 - sum_i(w_i * prod_j(1 - e_j)), for every weight. |
| CompositionMeaning.WeightedExactly | internal/prometheus/prometheus_rule_generator.go:361-397 | The text is a number exactly when every component has one error-rate series in the window. |
| CompositionMeaning.WeightedParses | internal/prometheus/prometheus_rule_generator.go:386-391 | The text is PromQL exactly when there is a route and no chain is empty. |
| CompositionMeaning.AdmittedButUnparsable | internal/webhook/v1alpha1/slocomposition_webhook.go:86-119 | An admitted and generated composition whose text does not parse. |
| CompositionFormula.ComposedErrorRange | api/v1alpha1/slocomposition_types.go:29 | With admitted weight sums and non-negative weights the composed error lies in [-0.001, 1]. |
| CompositionFormula.ComposedErrorMonotone | internal/prometheus/prometheus_rule_generator.go:363-371 | A higher rate of any component never lowers the composed error. |
| CompositionFormula.ComposedErrorBounds | internal/prometheus/prometheus_rule_generator.go:363-371 | With weights that sum to 1: a fraction, at most the weighted chain sums, at least the rate of any SLO on every route. |
| CompositionFormula.SerialAgainstAndMin | internal/prometheus/prometheus_rule_generator.go:243-261 | One weight-1 route through all objectives lies between AND_MIN over them and the sum of their rates. |
| CompositionGroups.AndMinValue | internal/prometheus/prometheus_rule_generator.go:243-261 | The largest matched rate, not below any referenced SLO and not below a namesake in another namespace. |
| CompositionGroups.AndMinExactly | internal/prometheus/prometheus_rule_generator.go:243-261 | The maximum of the referenced rates, for all rates of the deployed SLOs, exactly when the pattern takes the referenced ids and no other deployed one. |
| CompositionGroups.AndMinByIds | internal/prometheus/prometheus_rule_generator.go:243-248 | For ids without alternation: exactly when every deployed SLO whose id some referenced id matches is referenced. |
| CompositionGroups.NamesakeRaises | internal/prometheus/prometheus_rule_generator.go:246 | A namesake in another namespace with rate 1 makes AND_MIN 1 over a referenced rate 0. |
| CompositionGroups.DottedNameRaises | internal/prometheus/prometheus_rule_generator.go:252-255 | An SLO `axb` does the same to a referenced `a.b`. |
| CompositionGroups.PatternMeaning | internal/prometheus/prometheus_rule_generator.go:243-248 | The joined id pattern takes a label exactly when one of the ids does. |
| CompositionGroups.WeightedGroupMeaning | internal/prometheus/prometheus_rule_generator.go:361-420 | A weighted group is well ordered, and each window in which its components have rates records the formula over them and its quotient by the budget, whatever the other windows do. |
| CompositionGroups.AndMinGroupMeaning | internal/prometheus/prometheus_rule_generator.go:243-284 | For any ids and any store: each window records the largest rate that the pattern takes in it and its quotient by the budget, or neither. |
| EndToEnd.SloIsolation | internal/prometheus/prometheus_rule_generator.go:149-158 | The group of one SLO never changes what another SLO's selectors see. |
| EndToEnd.JobsMeaning | internal/prometheus/prometheus_rule_generator.go:480-520 | After the groups of any distinct SLOs with any resolved queries, each window of each SLO has what its own text was worth and its own burn rate. |
| EndToEnd.RoundsMeaning | internal/prometheus/prometheus_rule_generator.go:480-520 | The same after every round of repeated evaluation with changing counters, with or without a composition at the end of each round. |
| EndToEnd.StandardJob | internal/templates/templates.go:91-107 | SLOs with two selectors qualify, with the clamped ratio as their rates. |
| EndToEnd.LatencyJob | internal/templates/templates.go:133-169 | SLOs with the latency template qualify, with the latency rate or nothing. |
| EndToEnd.CompositionFromCounters | internal/prometheus/prometheus_rule_generator.go:361-420 | From counters through all SLO groups, of any template, to the composition's error and burn rate in each window in which its components have rates. |
| EndToEnd.AndMinFromCounters | internal/prometheus/prometheus_rule_generator.go:243-284 | The same for AND_MIN, when its pattern takes no other deployed SLO: the largest rate that its SLOs have in the window, or no series where none has one. |
| EndToEnd.WeightedRounds | internal/prometheus/prometheus_rule_generator.go:361-420 | After every round that ends with a weighted composition's group: the formula over the rates on the counters of that round. |
| EndToEnd.AndMinRounds | internal/prometheus/prometheus_rule_generator.go:243-284 | The same after every round that ends with an AND_MIN composition's group. |
| EndToEnd.AdmittedComposition | internal/controller/slocomposition_controller.go:87-115 | An admitted specification with non-empty chains is generated, and its group records, in each window in which the SLOs its aliases resolve to have rates, the formula over them. |
| EndToEnd.EmittedAndMin | internal/prometheus/prometheus_rule_generator.go:221-284 | An AND_MIN specification is always generated, and its emitted rule records the largest rate of its SLOs, window by window. |
| Detector.AnomalyDetector.DetectSpike | internal/correlation/detector.go:74-137 | Result and new states are the step function's; only the key's own state changes. |
| Detector.AnomalyDetector.GetState | internal/correlation/detector.go:140-154 | A copy of the key's state, or nothing. |
| Detector.AnomalyDetector.ResetCooldown | internal/correlation/detector.go:157-166 | Forgets the last detection of one key and nothing else. |
| Detector.AnomalyDetector.Clear | internal/correlation/detector.go:169-174 | Forgets all keys. |
| Detector.Replay | internal/correlation/detector.go:74-137 | Calling a new detector over and over gives the results of the run function, which all later claims are about. |
| Detector.KeyInjective | internal/correlation/detector.go:75 | For namespaces without a slash two SLOs share a key only if they are the same. |
| Detector.SlashedNamespacesCollide | internal/correlation/detector.go:75 | With a slash in the namespace two SLOs do share one. |
| Detector.CollideExactly | internal/correlation/detector.go:75 | Two namespaces have SLOs that share a key exactly when one begins with the other and a slash. |
| Detector.RunsIndependent | internal/correlation/detector.go:74-137 | In every interleaved run, one SLO's results and state are those of its own calls alone. |
| Detector.DetectionExactly | internal/correlation/detector.go:80-136 | In every interleaved run: an SLO's call k detects exactly when it is not its first, its band is above that of its call before and the cooldown has elapsed since all its detections; severity and crossed threshold are the new band's. |
| Detector.DetectionByCuts | internal/correlation/detector.go:24-32 | With its numbers: critical exactly for a rise from at most 14 to above, degraded from at most 6 to above 6 but not 14, warning from at most 1 to above 1 but not 6, each only after the cooldown, with that cut as the crossed threshold. |
| Detector.MissedRiseStaysMissed | internal/correlation/detector.go:91-101 | A rise inside the cooldown, with no further rise, is never reported, although the cooldown ends and the band is still raised. |
| Detector.RiseMissed | internal/correlation/detector.go:91-101 | A run of five calls in which that happens. |
| Detector.DetectionsApart | internal/correlation/detector.go:94-132 | In every interleaved run, from the stamp of one detection of an SLO to the test of a later one at least the cooldown passes. |
| Detector.DetectionsBounded | internal/correlation/detector.go:94-132 | In every interleaved run, an interval of length t of an SLO's calls holds at most 1 + t / cooldown detections of it. |
| Collector.ChangeCollector.AddRecord | internal/correlation/collector.go:244-253 | The log grows by the record, count is min(adds, size), head is adds mod size, and the ring still holds the newest entries. |
| Collector.ChangeCollector.ReadsLatest | internal/correlation/collector.go:263-265 | The readers' index is in range and finds the i-th newest record of the log. |
| Collector.ChangeCollector.GetChangesInWindow | internal/correlation/collector.go:256-279 | Exactly the newest count log entries, newest first, filtered by retention and the open interval. |
| Collector.ChangeCollector.GetChangesForNamespace | internal/correlation/collector.go:282-291 | The same, restricted to one namespace. |
| Collector.ChangeCollector.GetChangesForLabels | internal/correlation/collector.go:294-303 | The same, restricted to records whose labels match. |
| Collector.ChangeCollector.Stats | internal/correlation/collector.go:306-329 | The count, with the true minimum and maximum timestamp when none is in the future. |
| Collector.MatchLabels | internal/correlation/collector.go:399-409 | True exactly when every selector label is there with its value, or is absent and its value empty. |
| Collector.WithinCount | internal/correlation/collector.go:256-279 | Each record in the window is returned as often as it is retained, and no other. |
| Collector.ReadersExactly | internal/correlation/collector.go:256-303 | All three readers: each record as often as it is retained, if young enough, strictly inside the interval and in the namespace or with the labels asked for; in the order of the log. |
| Collector.RetentionExactly | internal/correlation/collector.go:261-275 | The age check is harmless for every log exactly when the cutoff is not after the window's first instant or the window is empty. |
| Engine.FilterBySelector | internal/correlation/engine.go:267-321 | Keeps, in order, exactly the admitted changes: namespace allowed, and labels matching unless it is an Event or no labels are asked for. |
| Engine.FilterExactly | internal/correlation/engine.go:267-321 | Which changes are kept, label by label and namespace by namespace, as often as they come and in their order. |
| Engine.ScoreChanges | internal/correlation/engine.go:156-226 | Scores each change by time, namespace, kind and labels. |
| Engine.SortByScore | internal/correlation/engine.go:91-93 | Some permutation by non-increasing score, and nothing more. |
| Engine.GenerateSummary | internal/correlation/engine.go:229-257 | The rule-based summary: none, none high, the single cause, or the number and first three of the high ones. |
| Engine.CorrelationEngine.Analyze | internal/correlation/engine.go:65-153 | Names the object, reads the window of the collector, filters, scores, sorts and summarizes; a language model's sentence replaces the summary only if not empty and there was a change. |
| Engine.CandidatesExactly | internal/correlation/engine.go:73-81 | As a multiset the candidates are the retained records strictly inside (trigger - 30m, trigger + 10m) that the selector admits, exactly up to 3h30m and 1ns after the trigger, all in nanoseconds. |
| Engine.AnalysisComplete | internal/correlation/engine.go:88-108 | Every candidate is listed as often as it was retained, with its own score, field by field, under the analysis window. |
| Engine.ScoresInAnalysis | internal/correlation/engine.go:155-226 | For collected kinds scores lie in [10, 105], high from 50 on and low below 25, and the over-60-minute case never occurs; which changes are high without a selector and with labels. |
| Engine.KindsRanked | internal/correlation/engine.go:178-197 | Of two changes alike otherwise, Deployment beats ConfigMap by 5 points, that Secret by 5, that an alarming Event by 5, that another Event by 15; 105 points only for the perfect Deployment. |
| Engine.PointsApart | internal/correlation/engine.go:164-203 | Nearness is worth 15 or 25 points, the SLO's namespace 20, matching labels 30. |
| Engine.AnalysisOrder | internal/correlation/engine.go:88-111 | High precedes medium precedes low, and a single high event comes first and is the one the summary names. |
| Engine.SummaryOfEvents | internal/correlation/engine.go:229-257 | The summary in terms of the events listed: none, none high, the single high one, or the number of the high ones and the first three. |
| ErrorBudget.Calculate | internal/errorbudget/calculator.go:26-57 | Fails exactly when the window does not parse; else the budget of the window's duration. |
| ErrorBudget.DaysMeaning | internal/errorbudget/calculator.go:61-86 | A window of n days is parsed as n days exactly for n up to 106751; beyond that it overflows. |
| ErrorBudget.HoursAndMinutes | internal/errorbudget/calculator.go:61-86 | Hours and minutes likewise, exactly up to 2562047 and 153722867. |
| ErrorBudget.ScanMeaning | internal/errorbudget/calculator.go:66-74 | Before the unit: blanks, a sign, digits that fit 64 bits, then anything. |
| ErrorBudget.DaysOverflow | internal/errorbudget/calculator.go:76-78 | `106752d` is parsed as a negative duration. |
| ErrorBudget.Conservation | internal/errorbudget/calculator.go:33-40 | Consumed is the burn rate's share of the window; consumed plus remaining is the total exactly when the burn rate is at most 1, and remaining is 0 beyond. |
| ErrorBudget.Amounts | internal/errorbudget/calculator.go:26-57 | All reported amounts for any window and rates. |
| ErrorBudget.PercentDocumented | docs/alerting.md:45-52 | The reported percentage is within 0.005 of the documented formula, clamped at 0, and the actual value within 0.005 of 100 - 100 * error rate. |
| ErrorBudget.TotalIsWholeWindow | internal/errorbudget/calculator.go:48 | The reported total equals the documented error budget exactly for target 0. |
| ErrorBudget.ThirtyDayTotal | docs/alerting.md:40-41 | For `30d` the reported total is 43200 minutes, where the documented budget at 99.9 is 43.2. |
| ErrorBudget.ExhaustedExactly | internal/errorbudget/calculator.go:42-52 | The rounded percentage is 0 exactly when the burn rate exceeds 0.99995, and never negative. |
| ErrorBudget.StatusMonotone | internal/errorbudget/calculator.go:88-114 | Higher burn rates or less budget never improve the status. |
| ErrorBudget.BurnExactly | internal/errorbudget/calculator.go:107-114 | The pair looked up is that of the first entry with the two windows, and zero without one. |
| Reconciler.CollectBurnRates | internal/controller/servicelevelobjective_controller.go:171-191 | Collects, in order, the presets both of whose queries were answered. |
| Reconciler.BurnCollected | internal/controller/servicelevelobjective_controller.go:171-191 | A preset's pair is what its queries answered; a skipped preset counts as zero. |
| Reconciler.SkippingNeverWorse | internal/controller/servicelevelobjective_controller.go:171-193 | Skipping failed presets never gives a worse status than any full list of answers would. |
| Reconciler.FirstCollected | internal/controller/servicelevelobjective_controller.go:199-202 | The detector's rate is the 5m one exactly when both queries of the first preset were answered. |
| Reconciler.StatusAmounts | internal/controller/servicelevelobjective_controller.go:154-193 | The actual value of a known status is that of the 5m error rate, its budget that of the window's burn rate, and its rates the four answered pairs in order. |
| Reconciler.StandInSpike | internal/controller/servicelevelobjective_controller.go:199-202 | With unchanged burn rates, one unanswered 5m query makes the detector report a rise from 0.5 to 2. |
| Reconciler.SloReconciler.Reconcile | internal/controller/servicelevelobjective_controller.go:117-247 | The new status; the detector's step exactly when detector and engine are there, the status is known and some burn rate was collected; an analysis of the collector's changes with the detection's rates and severity, exactly when it detects. |
| StatusAlerts.TierIsAlert | internal/errorbudget/calculator.go:92-103 | A status tier holds exactly when the alert with the same windows and threshold fires, with or without burn rates in the two windows. |
| StatusAlerts.StatusReports | internal/controller/servicelevelobjective_controller.go:117-193 | After the recording group: known exactly with a 5m and an own-window error rate, and then the actual value, the budget's amounts and the collected rates are those of the recorded series. |
| StatusAlerts.SpikeAgainstAlerts | internal/correlation/detector.go:24-30 | The detector's cuts are the default alerts' burn rates: a critical spike comes with the first alert exactly when the 1h burn rate is above it too. |
| StatusAlerts.StatusMatchesAlerts | internal/errorbudget/calculator.go:88-105 | Against the alerts of the emitted rule: violated exactly above 99.995% burned, which a firing last alert implies, else the highest of the first three that fires. |
| StatusAlerts.UnknownWhileFiring | internal/controller/servicelevelobjective_controller.go:118-133 | A latency SLO ten minutes after its last scrape: the status is unknown and the second emitted alert fires. |
| StatusAlerts.UnrecordedWindowUnknown | internal/controller/servicelevelobjective_controller.go:136-152 | An SLO whose window is not a recording window stays in unknown status after its own rules have run. |
| CachedStatus.ThroughRecent | internal/prometheus/cache.go:31-62 | Each answer through the cache is what Prometheus held at some instant no earlier than ttl and one call's delay before the reconciliation began. |
| CachedStatus.CachedStatusIsCurrent | cmd/manager/main.go:210 | Under every interleaving of cached calls the status is that of a direct look at Prometheus, when what is asked has been steady for ttl and one call's delay. |
| CachedStatus.QueriesApart | internal/prometheus/cache.go:31-49 | Queries of different metrics or SLOs never share a cache entry, for names without quotes. |
| Backtest.ComputeTargetResult | internal/backtest/backtest.go:132-154 | One target on one error rate; it fails exactly when the target is below 100 and the error rate exceeds its budget. |
| Backtest.Run | internal/backtest/backtest.go:59-129 | Asks the raw query as soon as one is given and the recorded series otherwise; fails exactly when one of the raw queries or their range is missing, or the backend fails; else one result per target, passing exactly within its budget. |
| Backtest.RecordedMeans | internal/backtest/backtest.go:93-111 | A run without raw queries asks, with a range, for the average of the SLO's own recorded 5m error rate; with an empty range its text does not parse. |
| Backtest.FailsExactly | internal/backtest/backtest.go:132-145 | A target fails exactly when it is below 100 and the error rate exceeds its budget. |
| Backtest.RemainingAgrees | internal/backtest/backtest.go:132-154 | Below target 100 the status' remaining percentage is the backtest's remaining budget, clamped and rounded; burned times budget is the error rate. |
| Backtest.NoBudget | internal/backtest/backtest.go:132-154 | A target of 100 or more burns nothing and passes. |
| Backtest.StricterFails | internal/backtest/backtest.go:132-145 | A stricter target below 100 fails whenever a laxer one does. |
| Backtest.BacktestIsAlert | internal/backtest/backtest.go:142-145 | For 30d the backtest fails exactly when the exhausted alert fires on that error rate. |
| Backtest.RawValue | internal/backtest/backtest.go:113-129 | The raw query answers exactly when both series exist, with failed over floored total increase. |
| Backtest.RawRate | internal/backtest/backtest.go:93-129 | What a run over raw queries asks for: v * total == failed from a trillionth on, failed times a trillion below, nothing where a series is missing. |
| Backtest.RawAgreesWithRule | internal/backtest/backtest.go:113-129 | For all series: raw query and rule expression have the same value exactly when both series exist and nothing failed, the total rate reaches 1e-12, or the range is one second. |
| Backtest.TemplateBacktest | internal/backtest/backtest.go:113-129 | For a template's queries: the same exactly when the error series exists and that condition holds. |
| Backtest.FlawlessBacktest | internal/backtest/backtest.go:113-129 | A service that never failed: the rule is worth 0, and the raw query yields nothing. |
| Cache.CachedClient.Query | internal/prometheus/cache.go:51-75 | A valid entry answers; otherwise the backend does, and exactly a successful answer is stored. |
| Cache.CallAloneIsQuery | internal/prometheus/cache.go:51-75 | The three-step state machine, with no other call between, has the method's result and effect. |
| Cache.AnswersGenuine | internal/prometheus/cache.go:31-75 | Under every interleaving a successful answer was given for that query, during the call or stored at most ttl before the look-up; errors are never stored. |
| Cache.StoresSpaced | internal/prometheus/cache.go:31-49 | When calls for the same query do not overlap, its stores are more than ttl apart, however other queries overlap. |
| Cache.StoresApart | internal/prometheus/cache.go:31-62 | In every behaviour a second store of a query within ttl is made by a call that had looked up before the first store. |
| Cache.OverlapStoresTwice | internal/prometheus/cache.go:31-49 | When they overlap, the same query may be stored twice in one instant. |
| Cache.KindsShareTheCache | internal/prometheus/cache.go:51-75 | Every hit of every behaviour is answered by its own kind of query exactly when no text is used with both kinds, or ttl is negative. |
| Cache.SharedAnswer | internal/prometheus/cache.go:64-75 | For a text of both kinds, the trace in which a hit comes from the other kind. |

## Left out

- Kubernetes API calls, owner references, requeueing, conditions and the composition controller's status: library plumbing; one fetched SLO per objective, in order, is a premise.
- The Prometheus client, its metrics and HTTP: the backend is an answer, a value or an error, passed in.
- RuleGenerator.CreatePrometheusRule: error messages are shortened.
- RuleGenerator.AlertWindowHours: of the number spellings that Go parses only whole decimal numbers, which are all that the resource definition admits.
- Engine.GenerateSummary: the parts that the sentence is made of, not its wording; a language model's sentence is a parameter of the analysis.
- Engine.CorrelationEngine.Analyze: the minute in the object's name is a parameter, and stored timestamps are not truncated to seconds.
- Backtest.Run: queries are tokens, so a query of white space only is not told from an empty one; the value of `avg_over_time` is the backend's.
- Reconciler.SloReconciler.Reconcile: returns the analysis; storing it as an object is left to the cluster.
- ErrorBudget.ParseWindow: of the white space that the scanner skips before a number, only the blank.
- CompositionGroups.WeightedGroupMeaning: a component without a rate makes the composition NaN in that window, which Prometheus records as a sample; here it is a failed evaluation, and what the window then holds is left open.
- CachedStatus.CachedStatusIsCurrent: a failed query is taken to mean that Prometheus had no sample, and how long a call may take is a parameter.
- IEEE rounding, NaN and infinities, and the decimal texts of `%g` and `%.1f`: numbers are exact.
- Characters inside one PromQL token, white space and escaping of label values; a label value that itself contains the window placeholder.
- Regular expressions beyond anchored alternation and `.`: other metacharacters are taken literally.
- Staleness and scrape timing in Prometheus: a recorded series lives until its rule writes it again, counters and recorded series are separate, and `absent` yields its sample without labels.
- Watch handlers, system-namespace filters and change diffs of the collector: they only decide which records are added.
- `internal/burnrate` and `internal/validation`: not on the path of the controllers.
- EndToEnd.JobsMeaning: an SLO whose manual queries read series that SLO groups record is outside it, and nobody else writes series with an SLO's own labels (`Owned`). The repeated rounds have one composition.
