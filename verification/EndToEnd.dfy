/**
 Many SLOs in one Prometheus: their groups do not disturb each other, whatever the order in
 which they are evaluated, and a composition evaluated after them gets its formula over the
 error rates that the counters of its components imply.
 */
module EndToEnd {
  import opened Strings
  import opened PromSyntax
  import opened PromEval
  import opened Templates
  import opened RuleGenerator
  import opened RuleMeaning
  import opened SloMeaning
  import opened CompositionGenerator
  import opened CompositionMeaning
  import opened CompositionGroups
  import opened CompositionFormula

  // ----- isolation -----

  lemma {:induction false} PickSkipsOthers(ms: seq<Matcher>, labels: Labels, s: seq<Sample>)
    requires Foreign(ms, labels)
    ensures Pick(ms, Others(labels, s)) == Pick(ms, s)
  {
    if |s| == 0 {
    } else {
      PickSkipsOthers(ms, labels, s[1..]);
      PickAppend(ms, if Extends(s[0].labels, labels) then [] else [s[0]], Others(labels, s[1..]));
    }
  }

  lemma {:induction false} PickSkipsRelabelled(ms: seq<Matcher>, labels: Labels, s: seq<Sample>)
    requires Foreign(ms, labels)
    ensures Pick(ms, Relabelled(labels, s)) == []
  {
    if |s| == 0 {
    } else {
      PickSkipsRelabelled(ms, labels, s[1..]);
      assert Extends(s[0].labels + labels, labels);
      assert Relabelled(labels, s)[1..] == Relabelled(labels, s[1..]);
    }
  }

  lemma PickSkipsOutput(ms: seq<Matcher>, labels: Labels, v: Value)
    requires Foreign(ms, labels) && Output(labels, v).Some?
    ensures Pick(ms, Output(labels, v).value) == []
  {
    match v
    case Vec(s) => PickSkipsRelabelled(ms, labels, s);
    case Scalar(r) => assert Extends(labels, labels); assert [Sample(labels, r)][1..] == [];
    case _ =>
  }

  lemma RuleIsolated(rule: Rule, st: Store, ms: seq<Matcher>, metric: string)
    requires rule.Recording? ==> Foreign(ms, rule.labels)
    ensures Pick(ms, SeriesOf(EvalRule(rule, st), metric)) == Pick(ms, SeriesOf(st, metric))
  {
    if rule.Recording? && Output(rule.labels, TextValue(rule.expr, st)).Some? {
      RecordingIsolated(rule.record, rule.labels, TextValue(rule.expr, st), st, ms, metric);
    }
  }

  lemma RecordingIsolated(record: string, labels: Labels, v: Value, st: Store, ms: seq<Matcher>, metric: string)
    requires Foreign(ms, labels) && Output(labels, v).Some?
    ensures Pick(ms, Others(labels, SeriesOf(st, record)) + Output(labels, v).value) == Pick(ms, SeriesOf(st, record))
  {
    PickSkipsOthers(ms, labels, SeriesOf(st, record));
    PickSkipsOutput(ms, labels, v);
    PickAppend(ms, Others(labels, SeriesOf(st, record)), Output(labels, v).value);
  }

  /** Rules that write foreign labels leave every selection of `ms` as it was. */
  lemma {:induction false} RulesIsolated(rules: seq<Rule>, st: Store, ms: seq<Matcher>, metric: string)
    requires forall r | r in rules :: r.Recording? ==> Foreign(ms, r.labels)
    ensures Pick(ms, SeriesOf(EvalGroup(rules, st), metric)) == Pick(ms, SeriesOf(st, metric))
  {
    if |rules| == 0 {
    } else {
      var n := |rules| - 1;
      RulesIsolated(rules[..n], st, ms, metric);
      RuleIsolated(rules[n], EvalGroup(rules[..n], st), ms, metric);
    }
  }

  /**
   Evaluating the recording group of one SLO never changes what the selectors of another SLO
   see, whatever its texts compute and whatever the store holds.
   */
  lemma SloIsolation(a: SloInfo, b: SloInfo, windows: seq<string>, texts: seq<Text>, target: real, st: Store,
                     metric: string)
    requires a != b && |texts| == |windows|
    ensures var final := EvalGroup(RecordingRules(SloId(b), windows, texts, target), st);
            Pick(IdMatchers(SloId(a)), SeriesOf(final, metric)) == Pick(IdMatchers(SloId(a)), SeriesOf(st, metric))
  {
    hide EvalGroup, RecordingRules, BaseLabels, IdMatchers, Pick, Foreign, BurnRateText, ConstantText;
    var rules := RecordingRules(SloId(b), windows, texts, target);
    GroupShape(SloId(b), windows, texts, target);
    forall r | r in rules ensures r.Recording? ==> Foreign(IdMatchers(SloId(a)), r.labels) {
      var i :| 0 <= i < |rules| && rules[i] == r;
      var n := |windows|;
      OtherSloForeign(a, b, if i < n then windows[i] else if i < n + 2 then "30d" else windows[i - n - 2]);
    }
    RulesIsolated(rules, st, IdMatchers(SloId(a)), metric);
  }

  // ----- all SLOs, one after the other -----

  /** An SLO whose queries have been resolved: to two selectors, or to an expression of its own. */
  datatype Job = Job(slo: SloInfo, resolved: Resolved, target: real)

  function JobTexts(job: Job, windows: seq<string>): (ts: seq<Text>)
    ensures |ts| == |windows|
  {
    SliTexts(job.resolved, windows)
  }

  function JobRules(job: Job, windows: seq<string>): seq<Rule> {
    RecordingRules(SloId(job.slo), windows, JobTexts(job, windows), job.target)
  }

  function RunJobs(jobs: seq<Job>, windows: seq<string>, st: Store): Store {
    if |jobs| == 0 then st else
      EvalGroup(JobRules(jobs[|jobs| - 1], windows), RunJobs(jobs[..|jobs| - 1], windows, st))
  }

  /** The texts read nothing that SLO groups record, and nobody else writes the SLO's series. */
  ghost predicate ValidJob(job: Job, windows: seq<string>, st: Store) {
    && job.target != 100.0 && Owned(SloId(job.slo), windows, st)
    && forall t | t in JobTexts(job, windows) :: Independent(SloId(job.slo), windows, t)
  }

  ghost predicate ValidJobs(jobs: seq<Job>, windows: seq<string>, st: Store) {
    && (forall i | 0 <= i < |jobs| :: ValidJob(jobs[i], windows, st))
    && (forall i, j | 0 <= i < j < |jobs| :: jobs[i].slo != jobs[j].slo)
  }

  /** What the selectors of an SLO see in two stores is the same. */
  ghost predicate SameView(slo: SloInfo, s1: Store, s2: Store) {
    && s1.counters == s2.counters
    && forall m :: Pick(IdMatchers(SloId(slo)), SeriesOf(s1, m)) == Pick(IdMatchers(SloId(slo)), SeriesOf(s2, m))
  }

  lemma SameExclusive(ms: seq<Matcher>, metric: string, labels: Labels, s1: Store, s2: Store)
    requires Pick(ms, SeriesOf(s1, metric)) == Pick(ms, SeriesOf(s2, metric))
    ensures Exclusive(s1, metric, ms, labels) ==> Exclusive(s2, metric, ms, labels)
  {
    if Exclusive(s1, metric, ms, labels) {
      forall x | x in SeriesOf(s2, metric) && HoldsAll(ms, x.labels) ensures Extends(x.labels, labels) {
        PickMember(ms, SeriesOf(s1, metric), x);
        PickMember(ms, SeriesOf(s2, metric), x);
      }
    }
  }

  lemma SameViewOwned(slo: SloInfo, windows: seq<string>, s1: Store, s2: Store)
    requires SameView(slo, s1, s2) && Owned(SloId(slo), windows, s1)
    ensures Owned(SloId(slo), windows, s2)
  {
    var id := SloId(slo);
    var ms := IdMatchers(id);
    SameExclusive(ms, ObjectiveMetric(id), BaseLabels(id, "30d"), s1, s2);
    SameExclusive(ms, BudgetMetric(id), BaseLabels(id, "30d"), s1, s2);
    forall w | w in windows
      ensures Exclusive(s2, SliMetric(id, w), ms, BaseLabels(id, w))
      ensures Exclusive(s2, BurnMetric(id, w), ms, BaseLabels(id, w))
    {
      SameExclusive(ms, SliMetric(id, w), BaseLabels(id, w), s1, s2);
      SameExclusive(ms, BurnMetric(id, w), BaseLabels(id, w), s1, s2);
    }
  }

  /** One job leaves the view of every other SLO unchanged. */
  lemma JobIsolated(job: Job, windows: seq<string>, before: Store, slo: SloInfo)
    requires job.slo != slo
    ensures SameView(slo, before, EvalGroup(JobRules(job, windows), before))
  {
    GroupCounters(JobRules(job, windows), before);
    forall m ensures Pick(IdMatchers(SloId(slo)), SeriesOf(before, m))
                  == Pick(IdMatchers(SloId(slo)), SeriesOf(EvalGroup(JobRules(job, windows), before), m)) {
      SloIsolation(slo, job.slo, windows, JobTexts(job, windows), job.target, before, m);
    }
  }

  lemma SameViewTransitive(slo: SloInfo, s1: Store, s2: Store, s3: Store)
    requires SameView(slo, s1, s2) && SameView(slo, s2, s3)
    ensures SameView(slo, s1, s3)
  {
  }

  lemma {:induction false} JobsIsolated(jobs: seq<Job>, windows: seq<string>, st: Store, slo: SloInfo)
    requires forall i | 0 <= i < |jobs| :: jobs[i].slo != slo
    ensures SameView(slo, st, RunJobs(jobs, windows, st))
  {
    if |jobs| == 0 {
    } else {
      var n := |jobs| - 1;
      var before := RunJobs(jobs[..n], windows, st);
      JobsIsolated(jobs[..n], windows, st, slo);
      JobIsolated(jobs[n], windows, before, slo);
      SameViewTransitive(slo, st, before, EvalGroup(JobRules(jobs[n], windows), before));
    }
  }

  // ----- what the texts of a job see -----

  /** All SLO groups write metrics of the same names. */
  lemma SameNames(a: SloInfo, b: SloInfo, windows: seq<string>, metric: string)
    ensures Recorded(SloId(a), windows, metric) <==> Recorded(SloId(b), windows, metric)
  {
    assert forall w :: SliMetric(SloId(a), w) == SliMetric(SloId(b), w);
    assert forall w :: BurnMetric(SloId(a), w) == BurnMetric(SloId(b), w);
  }

  lemma {:induction false} JobsUntouched(jobs: seq<Job>, windows: seq<string>, st: Store, metric: string)
    requires forall i | 0 <= i < |jobs| :: !Recorded(SloId(jobs[i].slo), windows, metric)
    ensures SeriesOf(RunJobs(jobs, windows, st), metric) == SeriesOf(st, metric)
  {
    if |jobs| == 0 {
    } else {
      var n := |jobs| - 1;
      JobsUntouched(jobs[..n], windows, st, metric);
      UntouchedByGroup(SloId(jobs[n].slo), windows, JobTexts(jobs[n], windows), jobs[n].target,
                       RunJobs(jobs[..n], windows, st), metric);
    }
  }

  lemma {:induction false} JobsCounters(jobs: seq<Job>, windows: seq<string>, st: Store)
    ensures RunJobs(jobs, windows, st).counters == st.counters
  {
    if |jobs| == 0 {
    } else {
      var n := |jobs| - 1;
      JobsCounters(jobs[..n], windows, st);
      GroupCounters(JobRules(jobs[n], windows), RunJobs(jobs[..n], windows, st));
    }
  }

  /** A text that reads nothing of what SLO groups record is worth the same after they have run. */
  lemma TextKept(jobs: seq<Job>, windows: seq<string>, st: Store, slo: SloInfo, t: Text)
    requires Independent(SloId(slo), windows, t)
    ensures TextValue(t, RunJobs(jobs, windows, st)) == TextValue(t, st)
  {
    hide RunJobs, Independent, Recorded, TextValue;
    var final := RunJobs(jobs, windows, st);
    JobsCounters(jobs, windows, st);
    forall x | !Recorded(SloId(slo), windows, x) ensures SeriesOf(final, x) == SeriesOf(st, x) {
      forall i | 0 <= i < |jobs| ensures !Recorded(SloId(jobs[i].slo), windows, x) {
        SameNames(slo, jobs[i].slo, windows, x);
      }
      JobsUntouched(jobs, windows, st, x);
    }
    SameReadings(SloId(slo), windows, t, final, st);
  }

  // ----- what the jobs leave -----

  lemma LeavesKept(slo: SloInfo, w: string, e: Option<real>, target: real, s1: Store, s2: Store)
    requires target != 100.0 && SameView(slo, s1, s2) && Leaves(SloId(slo), w, e, target, s1)
    ensures Leaves(SloId(slo), w, e, target, s2)
  {
  }

  lemma LastJob(job: Job, windows: seq<string>, st: Store, before: Store, k: nat, e: Option<real>)
    requires Distinct(windows) && ValidJob(job, windows, before) && k < |windows|
    requires Yields(JobTexts(job, windows)[k], before, e)
    ensures Leaves(SloId(job.slo), windows[k], e, job.target, EvalGroup(JobRules(job, windows), before))
  {
    hide EvalGroup, RecordingRules, SliTexts, Leaves, Owned, Yields, Independent;
    GroupWindow(SloId(job.slo), windows, JobTexts(job, windows), job.target, before, k, e);
  }

  lemma NewJob(jobs: seq<Job>, windows: seq<string>, st: Store, k: nat, e: Option<real>)
    requires Distinct(windows) && |jobs| > 0 && ValidJobs(jobs, windows, st) && k < |windows|
    requires Yields(JobTexts(jobs[|jobs| - 1], windows)[k], st, e)
    ensures var job := jobs[|jobs| - 1];
            Leaves(SloId(job.slo), windows[k], e, job.target, RunJobs(jobs, windows, st))
  {
    hide EvalGroup, JobRules, JobTexts, Leaves, Owned, Independent, TextValue;
    var n := |jobs| - 1;
    var before := RunJobs(jobs[..n], windows, st);
    JobsIsolated(jobs[..n], windows, st, jobs[n].slo);
    SameViewOwned(jobs[n].slo, windows, st, before);
    assert JobTexts(jobs[n], windows)[k] in JobTexts(jobs[n], windows);
    TextKept(jobs[..n], windows, st, jobs[n].slo, JobTexts(jobs[n], windows)[k]);
    LastJob(jobs[n], windows, st, before, k, e);
  }

  lemma NextJob(job: Job, windows: seq<string>, before: Store, slo: SloInfo, w: string, e: Option<real>, target: real)
    requires job.slo != slo && target != 100.0 && Leaves(SloId(slo), w, e, target, before)
    ensures Leaves(SloId(slo), w, e, target, EvalGroup(JobRules(job, windows), before))
  {
    hide EvalGroup, JobRules, Leaves;
    JobIsolated(job, windows, before, slo);
    LeavesKept(slo, w, e, target, before, EvalGroup(JobRules(job, windows), before));
  }

  /**
   After the groups of any number of distinct SLOs have been evaluated in sequence, each SLO
   has, window by window, the error rate that its own text was worth and the burn rate of its
   own target, or neither where its text yielded no series. The SLOs may have any resolved
   queries that read nothing recorded by SLO groups, so also the latency template's.
   */
  lemma {:induction false} JobsMeaning(jobs: seq<Job>, windows: seq<string>, st: Store, i: nat, k: nat, e: Option<real>)
    requires Distinct(windows) && ValidJobs(jobs, windows, st) && i < |jobs| && k < |windows|
    requires Yields(JobTexts(jobs[i], windows)[k], st, e)
    ensures Leaves(SloId(jobs[i].slo), windows[k], e, jobs[i].target, RunJobs(jobs, windows, st))
  {
    hide EvalGroup, JobRules, JobTexts, Leaves, Owned, Independent, Yields;
    var n := |jobs| - 1;
    if i < n {
      JobsMeaning(jobs[..n], windows, st, i, k, e);
      NextJob(jobs[n], windows, RunJobs(jobs[..n], windows, st), jobs[i].slo, windows[k], e, jobs[i].target);
    } else {
      NewJob(jobs, windows, st, k, e);
    }
  }

  // ----- jobs of the three templates and of plain queries -----

  /** The texts read nothing that any SLO or composition records. */
  lemma StandardJob(job: Job, es: Selector, ts: Selector, k: nat, st: Store)
    requires WellFormedSelector(es) && WellFormedSelector(ts) && k < |RECORDING_WINDOWS|
    requires job.resolved == Resolved(SelectorText(ts), SelectorText(es), [])
    ensures forall id, t | t in JobTexts(job, RECORDING_WINDOWS) :: Independent(id, RECORDING_WINDOWS, t)
    ensures Yields(JobTexts(job, RECORDING_WINDOWS)[k], st, Some(StandardErrors(es, ts, st)[k]))
  {
    hide Independent, StandardErrors, SelectorText, SliTexts;
    forall id, t | t in JobTexts(job, RECORDING_WINDOWS) ensures Independent(id, RECORDING_WINDOWS, t) {
      StandardTexts(es, ts, job.resolved, id, RECORDING_WINDOWS, StandardErrors(es, ts, st), st);
    }
    StandardTexts(es, ts, job.resolved, SloId(job.slo), RECORDING_WINDOWS, StandardErrors(es, ts, st), st);
  }

  lemma LatencyJob(job: Job, order: seq<Matcher>, threshold: string, k: nat, st: Store)
    requires job.resolved == Resolved([], [], LatencyRaw(order, threshold)) && k < |RECORDING_WINDOWS|
    ensures forall id, t | t in JobTexts(job, RECORDING_WINDOWS) :: Independent(id, RECORDING_WINDOWS, t)
    ensures Yields(JobTexts(job, RECORDING_WINDOWS)[k], st, LatencyErrors(order, threshold, st)[k])
  {
    hide Independent, LatencyAt, LatencyRaw, SliText;
    var texts := JobTexts(job, RECORDING_WINDOWS);
    forall id, t | t in texts ensures Independent(id, RECORDING_WINDOWS, t) {
      var i :| 0 <= i < |texts| && texts[i] == t;
      LatencyIndependent(order, threshold, RECORDING_WINDOWS[i], id, RECORDING_WINDOWS);
    }
    WindowsTimed();
    LatencyYields(order, threshold, RECORDING_WINDOWS[k], st);
  }

  // ----- a composition over them -----

  lemma {:induction false} JobsStillOwned(jobs: seq<Job>, windows: seq<string>, st: Store, i: nat)
    requires Distinct(windows) && ValidJobs(jobs, windows, st) && i < |jobs|
    ensures Owned(SloId(jobs[i].slo), windows, RunJobs(jobs, windows, st))
  {
    hide EvalGroup, Owned, Independent, RecordingRules, JobTexts;
    var n := |jobs| - 1;
    var before := RunJobs(jobs[..n], windows, st);
    if i < n {
      JobsStillOwned(jobs[..n], windows, st, i);
      JobIsolated(jobs[n], windows, before, jobs[i].slo);
      SameViewOwned(jobs[i].slo, windows, before, EvalGroup(JobRules(jobs[n], windows), before));
    } else {
      JobsIsolated(jobs[..n], windows, st, jobs[n].slo);
      SameViewOwned(jobs[n].slo, windows, st, before);
      StillOwned(SloId(jobs[n].slo), windows, JobTexts(jobs[n], windows), jobs[n].target, before);
    }
  }

  /** SLOs and compositions record series of different names. */
  lemma NamesApart(a: Identity, b: Identity, windows: seq<string>, window: string)
    requires a.CompositionId? != b.CompositionId?
    ensures !Recorded(b, windows, SliMetric(a, window)) && !Recorded(b, windows, BurnMetric(a, window))
    ensures !Recorded(b, windows, ObjectiveMetric(a)) && !Recorded(b, windows, BudgetMetric(a))
  {
    Initials(a, window);
    Initials(b, window);
    KindInName(a, window);
    forall i | 0 <= i < |windows|
      ensures SliMetric(b, windows[i])[5] == 's' && BurnMetric(b, windows[i])[5] == 'b'
      ensures SliMetric(b, windows[i])[15] != SliMetric(a, window)[15]
      ensures BurnMetric(b, windows[i])[14] != BurnMetric(a, window)[14]
    {
      Initials(b, windows[i]);
      KindInName(b, windows[i]);
    }
    assert |ObjectiveMetric(a)| != |ObjectiveMetric(b)| && |BudgetMetric(a)| != |BudgetMetric(b)|;
  }

  lemma KindInName(id: Identity, window: string)
    ensures |SliMetric(id, window)| > 15 && SliMetric(id, window)[15] == (if id.SloId? then 'r' else 'c')
    ensures |BurnMetric(id, window)| > 14 && BurnMetric(id, window)[14] == (if id.SloId? then ':' else '_')
  {
  }

  /** The four series of an identity for one window. */
  ghost predicate SameSeries(id: Identity, w: string, s1: Store, s2: Store) {
    && SeriesOf(s1, SliMetric(id, w)) == SeriesOf(s2, SliMetric(id, w))
    && SeriesOf(s1, BurnMetric(id, w)) == SeriesOf(s2, BurnMetric(id, w))
    && SeriesOf(s1, ObjectiveMetric(id)) == SeriesOf(s2, ObjectiveMetric(id))
    && SeriesOf(s1, BudgetMetric(id)) == SeriesOf(s2, BudgetMetric(id))
  }

  lemma CompositionSeriesKept(id: Identity, jobs: seq<Job>, windows: seq<string>, st: Store, w: string)
    requires id.CompositionId?
    ensures SameSeries(id, w, st, RunJobs(jobs, windows, st))
  {
    forall i | 0 <= i < |jobs|
      ensures !Recorded(SloId(jobs[i].slo), windows, SliMetric(id, w))
      ensures !Recorded(SloId(jobs[i].slo), windows, BurnMetric(id, w))
      ensures !Recorded(SloId(jobs[i].slo), windows, ObjectiveMetric(id))
      ensures !Recorded(SloId(jobs[i].slo), windows, BudgetMetric(id))
    {
      NamesApart(id, SloId(jobs[i].slo), windows, w);
    }
    JobsUntouched(jobs, windows, st, SliMetric(id, w));
    JobsUntouched(jobs, windows, st, BurnMetric(id, w));
    JobsUntouched(jobs, windows, st, ObjectiveMetric(id));
    JobsUntouched(jobs, windows, st, BudgetMetric(id));
  }

  lemma SameSeriesOwned(id: Identity, windows: seq<string>, s1: Store, s2: Store)
    requires Owned(id, windows, s1) && forall w :: SameSeries(id, w, s1, s2)
    ensures Owned(id, windows, s2)
  {
    assert SameSeries(id, "", s1, s2);
    forall w | w in windows
      ensures Exclusive(s2, SliMetric(id, w), IdMatchers(id), BaseLabels(id, w))
      ensures Exclusive(s2, BurnMetric(id, w), IdMatchers(id), BaseLabels(id, w))
    {
      assert SameSeries(id, w, s1, s2);
    }
  }

  lemma CompositionStillOwned(id: Identity, jobs: seq<Job>, windows: seq<string>, st: Store)
    requires id.CompositionId? && Owned(id, windows, st)
    ensures Owned(id, windows, RunJobs(jobs, windows, st))
  {
    forall w ensures SameSeries(id, w, st, RunJobs(jobs, windows, st)) {
      CompositionSeriesKept(id, jobs, windows, st, w);
    }
    SameSeriesOwned(id, windows, st, RunJobs(jobs, windows, st));
  }

  /** Error rates that the texts of the jobs are worth for one window. */
  ghost predicate RatesImplied(rates: map<SloInfo, real>, jobs: seq<Job>, windows: seq<string>, k: nat, st: Store) {
    && k < |windows|
    && forall s | s in rates ::
         exists i | 0 <= i < |jobs| :: jobs[i].slo == s && Worth(JobTexts(jobs[i], windows)[k], st, rates[s])
  }

  lemma RatesRecorded(rates: map<SloInfo, real>, jobs: seq<Job>, windows: seq<string>, k: nat, st: Store)
    requires Distinct(windows) && ValidJobs(jobs, windows, st) && RatesImplied(rates, jobs, windows, k, st)
    ensures RatesIn(rates, windows[k], RunJobs(jobs, windows, st))
  {
    hide RunJobs, Owned, Independent, Worth, ValidJobs, JobTexts;
    var final := RunJobs(jobs, windows, st);
    forall s | s in rates ensures SoloOf(SloId(s), final, SliMetric(SloId(s), windows[k]), windows[k], rates[s]) {
      var i :| 0 <= i < |jobs| && jobs[i].slo == s && Worth(JobTexts(jobs[i], windows)[k], st, rates[s]);
      assert jobs[i].target != 100.0 by { JobTargets(jobs, windows, st, i); }
      JobsMeaning(jobs, windows, st, i, k, Some(rates[s]));
    }
  }

  lemma JobTargets(jobs: seq<Job>, windows: seq<string>, st: Store, i: nat)
    requires ValidJobs(jobs, windows, st) && i < |jobs|
    ensures jobs[i].target != 100.0
  {
  }

  /**
   From counters to the composition's burn rates: evaluate every SLO's group, then the
   composition's. In a window for which the components' texts are worth error rates, the composed
   error rate is the documented formula over them, and the burn rate is its quotient by the
   composition's budget, whatever the other windows do. Components may be of any template.
   */
  lemma {:induction false} CompositionFromCounters(id: Identity, jobs: seq<Job>, legs: seq<Leg>, target: real,
                                                   windows: seq<string>, k: nat, rates: map<SloInfo, real>, st: Store)
    requires id.CompositionId? && Distinct(windows) && Owned(id, windows, st) && target != 100.0
    requires ValidJobs(jobs, windows, st) && RatesImplied(rates, jobs, windows, k, st)
    requires |legs| > 0 && Nonempty(legs) && Covers(rates, legs)
    ensures Leaves(id, windows[k], Some(ComposedError(legs, rates)), target,
                   EvalGroup(RecordingRules(id, windows, WeightedTexts(legs, windows), target),
                             RunJobs(jobs, windows, st)))
  {
    hide EvalGroup, RunJobs, RecordingRules, WeightedTexts, Owned, Availability, ValidJobs, Leaves, RatesIn;
    CompositionStillOwned(id, jobs, windows, st);
    RatesRecorded(rates, jobs, windows, k, st);
    WeightedGroupMeaning(id, windows, legs, target, k, rates, RunJobs(jobs, windows, st));
  }

  lemma LegsNonempty(routes: seq<Route>, m: map<string, SloInfo>)
    requires AllKnown(routes, m) && forall i | 0 <= i < |routes| :: |routes[i].chain| > 0
    ensures Nonempty(LegsOf(routes, m))
  {
  }

  /**
   From an admitted specification to its burn rates: the composition is generated, and after
   the SLO groups the emitted recording group gives every window, in which the SLOs that the
   aliases resolve to have error rates, the documented formula over them.
   */
  lemma AdmittedComposition(name: string, namespace: string, spec: Spec, slos: seq<SloInfo>, legs: seq<Leg>,
                            jobs: seq<Job>, k: nat, rates: map<SloInfo, real>, st: Store)
    requires spec.kind == "WEIGHTED_ROUTES" && spec.routes.Some? && |slos| == |spec.aliases|
    requires Admitted(spec) && spec.target != 100.0
    requires |spec.routes.value| > 0 && forall i | 0 <= i < |spec.routes.value| :: |spec.routes.value[i].chain| > 0
    requires Generates(spec, slos) ==> legs == LegsOf(spec.routes.value, AliasMap(spec.aliases, slos))
    requires Owned(CompositionId(name, namespace), RECORDING_WINDOWS, st)
    requires ValidJobs(jobs, RECORDING_WINDOWS, st) && RatesImplied(rates, jobs, RECORDING_WINDOWS, k, st)
    requires Covers(rates, legs)
    ensures Generates(spec, slos)
    ensures Leaves(CompositionId(name, namespace), RECORDING_WINDOWS[k], Some(ComposedError(legs, rates)), spec.target,
                   EvalGroup(CompositionRule(name, namespace, spec, slos).groups[0].rules,
                             RunJobs(jobs, RECORDING_WINDOWS, st)))
  {
    AdmittedGenerates(spec, slos);
    hide EvalGroup, RunJobs, Leaves, RecordingRules, Owned, ValidJobs, RatesImplied, AliasMap, WeightedTexts,
         ComposedError, Admitted;
    LegsNonempty(spec.routes.value, AliasMap(spec.aliases, slos));
    RecordingWindowsDistinct();
    CompositionFromCounters(CompositionId(name, namespace), jobs, legs, spec.target, RECORDING_WINDOWS, k, rates, st);
  }

  // ----- AND_MIN over them -----

  /** The series of a metric after a group: older ones, and ones with the labels of some rule. */
  lemma {:induction false} SeriesFromRules(rules: seq<Rule>, st: Store, metric: string)
    ensures forall x | x in SeriesOf(EvalGroup(rules, st), metric) ::
              x in SeriesOf(st, metric) || exists r | r in rules :: r.Recording? && Extends(x.labels, r.labels)
  {
    hide Output, Others, TextValue, Extends, EvalRule;
    if |rules| == 0 {
    } else {
      var n := |rules| - 1;
      var before := EvalGroup(rules[..n], st);
      SeriesFromRules(rules[..n], st, metric);
      forall x | x in SeriesOf(EvalGroup(rules, st), metric)
        ensures x in SeriesOf(st, metric) || exists r | r in rules :: r.Recording? && Extends(x.labels, r.labels)
      {
        SeriesFromRule(rules[n], before, metric, x);
        assert rules[n] in rules && forall r | r in rules[..n] :: r in rules;
      }
    }
  }

  lemma SeriesFromRule(rule: Rule, st: Store, metric: string, x: Sample)
    requires x in SeriesOf(EvalRule(rule, st), metric)
    ensures x in SeriesOf(st, metric) || (rule.Recording? && Extends(x.labels, rule.labels))
  {
    hide Output, TextValue, Extends;
    RuleStep(rule, st, metric);
    if rule.Recording? {
      OutputExtends(rule.labels, TextValue(rule.expr, st));
      OthersOlder(rule.labels, SeriesOf(st, metric));
    }
  }

  lemma {:induction false} OthersOlder(labels: Labels, s: seq<Sample>)
    ensures forall x | x in Others(labels, s) :: x in s
  {
    hide Extends;
    if |s| == 0 {
    } else {
      OthersOlder(labels, s[1..]);
      assert s[0] in s && forall x | x in s[1..] :: x in s;
    }
  }

  lemma ExtendsOwn(slo: SloInfo, w: string, labels: Labels)
    requires Extends(labels, BaseLabels(SloId(slo), w))
    ensures HoldsAll(IdMatchers(SloId(slo)), labels)
  {
    var base := BaseLabels(SloId(slo), w);
    assert "slo_name" in base && "slo_namespace" in base && "objective_name" in base;
  }

  lemma GroupSeries(job: Job, windows: seq<string>, st: Store, metric: string)
    ensures forall x | x in SeriesOf(EvalGroup(JobRules(job, windows), st), metric) ::
              x in SeriesOf(st, metric) || HoldsAll(IdMatchers(SloId(job.slo)), x.labels)
  {
    hide EvalGroup, SeriesOf, Extends, BaseLabels, IdMatchers, HoldsAll, JobTexts, RecordingRules, BurnRateText,
         ConstantText;
    var rules, n := JobRules(job, windows), |windows|;
    SeriesFromRules(rules, st, metric);
    GroupShape(SloId(job.slo), windows, JobTexts(job, windows), job.target);
    forall r, labels: Labels | r in rules && r.Recording? && Extends(labels, r.labels)
      ensures HoldsAll(IdMatchers(SloId(job.slo)), labels)
    {
      var i :| 0 <= i < |rules| && rules[i] == r;
      ExtendsOwn(job.slo, if i < n then windows[i] else if i < n + 2 then "30d" else windows[i - n - 2], labels);
    }
  }

  /** Every error-rate series belongs to one of the jobs' SLOs. */
  ghost predicate AllOwn(jobs: seq<Job>, st: Store, metric: string) {
    forall x | x in SeriesOf(st, metric) ::
      exists i | 0 <= i < |jobs| :: HoldsAll(IdMatchers(SloId(jobs[i].slo)), x.labels)
  }

  lemma {:induction false} JobsSeries(jobs: seq<Job>, windows: seq<string>, st: Store, metric: string)
    ensures forall x | x in SeriesOf(RunJobs(jobs, windows, st), metric) ::
              || x in SeriesOf(st, metric)
              || exists i | 0 <= i < |jobs| :: HoldsAll(IdMatchers(SloId(jobs[i].slo)), x.labels)
  {
    hide EvalGroup, SeriesOf, IdMatchers, HoldsAll, JobRules;
    if |jobs| == 0 {
    } else {
      var n := |jobs| - 1;
      JobsSeries(jobs[..n], windows, st, metric);
      GroupSeries(jobs[n], windows, RunJobs(jobs[..n], windows, st), metric);
    }
  }

  function SlosOf(jobs: seq<Job>): (slos: seq<SloInfo>)
    ensures |slos| == |jobs| && forall i | 0 <= i < |slos| :: slos[i] == jobs[i].slo
  {
    if |jobs| == 0 then [] else SlosOf(jobs[..|jobs| - 1]) + [jobs[|jobs| - 1].slo]
  }

  /** The groups of the jobs write no error-rate series but their own. */
  lemma StillAllOwn(jobs: seq<Job>, windows: seq<string>, st: Store, metric: string)
    requires AllOwn(jobs, st, metric)
    ensures AllOwn(jobs, RunJobs(jobs, windows, st), metric)
  {
    hide RunJobs, IdMatchers, HoldsAll, SeriesOf;
    JobsSeries(jobs, windows, st, metric);
  }

  /** The rate of an SLO, if there is one. */
  function RateOf(rates: map<SloInfo, real>, s: SloInfo): Option<real> {
    if s in rates then Some(rates[s]) else None
  }

  /** The largest rate of those SLOs of the list that have one. */
  ghost predicate Largest(slos: seq<SloInfo>, rates: map<SloInfo, real>, e: Option<real>) {
    match e
    case None => forall s | s in slos :: s !in rates
    case Some(m) =>
      && (forall s | s in slos && s in rates :: rates[s] <= m)
      && exists s | s in slos && s in rates :: rates[s] == m
  }

  /** Each referenced SLO has, in the window, one series with its rate, or none. */
  ghost predicate Referenced(slos: seq<SloInfo>, rates: map<SloInfo, real>, w: string, st: Store) {
    forall s | s in slos :: Shows(SloId(s), st, SliMetric(SloId(s), w), w, RateOf(rates, s))
  }

  /** A series that the pattern takes is that of a referenced SLO. */
  lemma MatchedReferenced(slos: seq<SloInfo>, jobs: seq<Job>, windows: seq<string>, w: string,
                          rates: map<SloInfo, real>, st: Store, x: Sample)
    requires w in windows && AllOwn(jobs, st, "slok:sli_error_rate:" + w) && Referenced(slos, rates, w, st)
    requires forall i | 0 <= i < |jobs| :: Owned(SloId(jobs[i].slo), windows, st)
    requires forall d | d in SlosOf(jobs) :: d in slos <==> Takes(slos, d)
    requires x in Matched(ObjectiveIds(slos), w, st)
    ensures exists s | s in slos && s in rates :: x.v == rates[s]
  {
    hide HoldsAll, BaseLabels, IdMatchers, Takes, Pick, ObjectiveIds, SlosOf, Extends;
    var ms, series := IdSelector(ObjectiveIds(slos), w).matchers, SeriesOf(st, "slok:sli_error_rate:" + w);
    PickMember(ms, series, x);
    var i :| 0 <= i < |jobs| && HoldsAll(IdMatchers(SloId(jobs[i].slo)), x.labels);
    var s := jobs[i].slo;
    assert Owned(SloId(s), windows, st) && SliMetric(SloId(s), w) == "slok:sli_error_rate:" + w;
    TakenLabels(slos, s, w, x.labels);
    assert SlosOf(jobs)[i] in SlosOf(jobs);
    PickMember(IdMatchers(SloId(s)), series, x);
    assert Shows(SloId(s), st, SliMetric(SloId(s), w), w, RateOf(rates, s));
  }

  lemma ReferencedTaken(slos: seq<SloInfo>, w: string, rates: map<SloInfo, real>, st: Store, s: SloInfo)
    requires Referenced(slos, rates, w, st) && s in slos && s in rates && Takes(slos, s)
    ensures Sample(BaseLabels(SloId(s), w), rates[s]) in Matched(ObjectiveIds(slos), w, st)
  {
    hide HoldsAll, BaseLabels, IdMatchers, Takes, Pick, ObjectiveIds;
    assert Shows(SloId(s), st, SliMetric(SloId(s), w), w, RateOf(rates, s));
    SoloMember(s, w, st, rates[s]);
    TakenLabels(slos, s, w, BaseLabels(SloId(s), w));
    PickMember(IdSelector(ObjectiveIds(slos), w).matchers, SeriesOf(st, "slok:sli_error_rate:" + w),
               Sample(BaseLabels(SloId(s), w), rates[s]));
  }

  lemma LargestMatched(slos: seq<SloInfo>, rates: map<SloInfo, real>, matched: seq<Sample>, e: Option<real>)
    requires Largest(slos, rates, e)
    requires forall x | x in matched :: exists s | s in slos && s in rates :: x.v == rates[s]
    requires forall s | s in slos && s in rates :: exists x | x in matched :: x.v == rates[s]
    ensures e == if matched == [] then None else Some(Maximum(matched))
  {
    hide Maximum;
    if matched == [] {
    } else {
      MaximumMeaning(matched);
      assert matched[0] in matched;
    }
  }

  lemma AndMinWindow(slos: seq<SloInfo>, jobs: seq<Job>, windows: seq<string>, w: string,
                     rates: map<SloInfo, real>, e: Option<real>, st: Store)
    requires w in windows && AllOwn(jobs, st, "slok:sli_error_rate:" + w) && Referenced(slos, rates, w, st)
    requires forall i | 0 <= i < |jobs| :: Owned(SloId(jobs[i].slo), windows, st)
    requires forall s | s in slos :: s in SlosOf(jobs)
    requires forall d | d in SlosOf(jobs) :: d in slos <==> Takes(slos, d)
    requires Largest(slos, rates, e)
    ensures var matched := Matched(ObjectiveIds(slos), w, st);
            e == if matched == [] then None else Some(Maximum(matched))
  {
    hide Takes, Matched, Owned, AllOwn, Referenced, ObjectiveIds, SlosOf, Largest, Maximum, BaseLabels;
    var matched := Matched(ObjectiveIds(slos), w, st);
    forall x | x in matched ensures exists s | s in slos && s in rates :: x.v == rates[s] {
      MatchedReferenced(slos, jobs, windows, w, rates, st, x);
    }
    forall s | s in slos && s in rates ensures exists x | x in matched :: x.v == rates[s] {
      ReferencedTaken(slos, w, rates, st, s);
    }
    LargestMatched(slos, rates, matched, e);
  }

  /** What the texts of the referenced SLOs yield for one window: their rates, or no series. */
  ghost predicate ReferencedImplied(slos: seq<SloInfo>, rates: map<SloInfo, real>, jobs: seq<Job>,
                                    windows: seq<string>, k: nat, st: Store) {
    && k < |windows|
    && (forall s | s in slos :: s in SlosOf(jobs))
    && forall i | 0 <= i < |jobs| && jobs[i].slo in slos ::
         Yields(JobTexts(jobs[i], windows)[k], st, RateOf(rates, jobs[i].slo))
  }

  lemma ReferencedRecorded(slos: seq<SloInfo>, rates: map<SloInfo, real>, jobs: seq<Job>, windows: seq<string>, k: nat,
                           st: Store)
    requires Distinct(windows) && ValidJobs(jobs, windows, st) && ReferencedImplied(slos, rates, jobs, windows, k, st)
    ensures Referenced(slos, rates, windows[k], RunJobs(jobs, windows, st))
  {
    hide RunJobs, Owned, Independent, Yields, ValidJobs, JobTexts, Pick, BaseLabels, RateOf;
    var final := RunJobs(jobs, windows, st);
    forall s | s in slos
      ensures Shows(SloId(s), final, SliMetric(SloId(s), windows[k]), windows[k], RateOf(rates, s))
    {
      assert s in SlosOf(jobs);
      var i :| 0 <= i < |jobs| && jobs[i].slo == s;
      JobTargets(jobs, windows, st, i);
      JobsMeaning(jobs, windows, st, i, k, RateOf(rates, s));
    }
  }

  /**
   From counters to an AND_MIN composition: when its id pattern takes its own SLOs and no other
   deployed one, a window of the composition has the largest error rate that its SLOs have in it,
   and the quotient by the composition's budget; where none of them has one there is neither.
   Nothing is asked of the other windows, nor of the error rates of other SLOs.
   */
  lemma AndMinFromCounters(id: Identity, jobs: seq<Job>, slos: seq<SloInfo>, target: real, windows: seq<string>,
                           k: nat, rates: map<SloInfo, real>, e: Option<real>, st: Store)
    requires id.CompositionId? && Distinct(windows) && Owned(id, windows, st) && target != 100.0
    requires ValidJobs(jobs, windows, st) && ReferencedImplied(slos, rates, jobs, windows, k, st)
    requires AllOwn(jobs, st, "slok:sli_error_rate:" + windows[k])
    requires forall d | d in SlosOf(jobs) :: d in slos <==> Takes(slos, d)
    requires Largest(slos, rates, e)
    ensures Leaves(id, windows[k], e, target,
                   EvalGroup(RecordingRules(id, windows, AndMinTexts(ObjectiveIds(slos), windows), target),
                             RunJobs(jobs, windows, st)))
  {
    hide EvalGroup, RecordingRules, Leaves, RunJobs, ValidJobs, Owned, Takes, AllOwn, Matched, Referenced, Largest,
         ObjectiveIds, AndMinTexts, Maximum;
    var final := RunJobs(jobs, windows, st);
    CompositionStillOwned(id, jobs, windows, st);
    ReferencedRecorded(slos, rates, jobs, windows, k, st);
    StillAllOwn(jobs, windows, st, "slok:sli_error_rate:" + windows[k]);
    forall i | 0 <= i < |jobs| ensures Owned(SloId(jobs[i].slo), windows, final) {
      JobsStillOwned(jobs, windows, st, i);
    }
    AndMinWindow(slos, jobs, windows, windows[k], rates, e, final);
    AndMinGroupMeaning(id, windows, ObjectiveIds(slos), target, k, final);
  }

  /** The same for the emitted rule of an AND_MIN composition, which is always generated. */
  lemma EmittedAndMin(name: string, namespace: string, spec: Spec, slos: seq<SloInfo>, jobs: seq<Job>, k: nat,
                      rates: map<SloInfo, real>, e: Option<real>, st: Store)
    requires spec.kind == "AND_MIN" && spec.target != 100.0
    requires Owned(CompositionId(name, namespace), RECORDING_WINDOWS, st)
    requires ValidJobs(jobs, RECORDING_WINDOWS, st)
    requires ReferencedImplied(slos, rates, jobs, RECORDING_WINDOWS, k, st)
    requires AllOwn(jobs, st, "slok:sli_error_rate:" + RECORDING_WINDOWS[k])
    requires forall d | d in SlosOf(jobs) :: d in slos <==> Takes(slos, d)
    requires Largest(slos, rates, e)
    ensures Generates(spec, slos)
    ensures Leaves(CompositionId(name, namespace), RECORDING_WINDOWS[k], e, spec.target,
                   EvalGroup(CompositionRule(name, namespace, spec, slos).groups[0].rules,
                             RunJobs(jobs, RECORDING_WINDOWS, st)))
  {
    hide EvalGroup, RecordingRules, Leaves, RunJobs, ValidJobs, Owned, Takes, AllOwn, ReferencedImplied, Largest,
         ObjectiveIds, AndMinTexts;
    assert k < |RECORDING_WINDOWS| by { WindowInRange(slos, rates, jobs, k, st); }
    RecordingWindowsDistinct();
    AndMinFromCounters(CompositionId(name, namespace), jobs, slos, spec.target, RECORDING_WINDOWS, k, rates, e, st);
  }

  lemma WindowInRange(slos: seq<SloInfo>, rates: map<SloInfo, real>, jobs: seq<Job>, k: nat, st: Store)
    requires ReferencedImplied(slos, rates, jobs, RECORDING_WINDOWS, k, st)
    ensures k < |RECORDING_WINDOWS|
  {
  }

  // ----- evaluating again and again -----

  type Counters = map<string, seq<Counter>>

  /** A composition that is evaluated after the SLOs: its identity, its text for each window, and its target. */
  datatype Composed = Composed(id: Identity, texts: seq<Text>, target: real)

  predicate Sized(last: Option<Composed>, windows: seq<string>) {
    last.Some? ==> |last.value.texts| == |windows|
  }

  /** One round: the groups of all SLOs and then, if there is one, the composition's. */
  function Round(jobs: seq<Job>, last: Option<Composed>, windows: seq<string>, st: Store): Store
    requires Sized(last, windows)
  {
    match last
    case None => RunJobs(jobs, windows, st)
    case Some(c) => EvalGroup(RecordingRules(c.id, windows, c.texts, c.target), RunJobs(jobs, windows, st))
  }

  /** The store in which the last round starts: what the rounds before left, with new counters. */
  function Latest(jobs: seq<Job>, last: Option<Composed>, windows: seq<string>, feeds: seq<Counters>, st: Store): Store
    requires Sized(last, windows) && |feeds| > 0
    decreases |feeds|, 0
  {
    var n := |feeds| - 1;
    Rounds(jobs, last, windows, feeds[..n], st).(counters := feeds[n])
  }

  /** Rounds of evaluation, each over the counters of its time. */
  function Rounds(jobs: seq<Job>, last: Option<Composed>, windows: seq<string>, feeds: seq<Counters>, st: Store): Store
    requires Sized(last, windows)
    decreases |feeds|, 1
  {
    if |feeds| == 0 then st else Round(jobs, last, windows, Latest(jobs, last, windows, feeds, st))
  }

  /** The SLOs' texts read nothing that the composition records. */
  ghost predicate ReadsApart(jobs: seq<Job>, id: Identity, windows: seq<string>) {
    forall i | 0 <= i < |jobs| :: forall t | t in JobTexts(jobs[i], windows) :: Independent(id, windows, t)
  }

  ghost predicate ValidLast(last: Option<Composed>, jobs: seq<Job>, windows: seq<string>, st: Store) {
    last.Some? ==>
      var c := last.value;
      && c.id.CompositionId? && |c.texts| == |windows| && Owned(c.id, windows, st)
      && (forall t | t in c.texts :: Independent(c.id, windows, t))
      && ReadsApart(jobs, c.id, windows)
  }

  /** The composition leaves the series of every SLO as they were. */
  lemma LastKeeps(c: Composed, windows: seq<string>, st: Store, slo: SloInfo, w: string)
    requires c.id.CompositionId? && |c.texts| == |windows|
    ensures SameSeries(SloId(slo), w, st, EvalGroup(RecordingRules(c.id, windows, c.texts, c.target), st))
  {
    hide EvalGroup, RecordingRules, Recorded, SeriesOf;
    var own := SloId(slo);
    NamesApart(own, c.id, windows, w);
    UntouchedByGroup(c.id, windows, c.texts, c.target, st, SliMetric(own, w));
    UntouchedByGroup(c.id, windows, c.texts, c.target, st, BurnMetric(own, w));
    UntouchedByGroup(c.id, windows, c.texts, c.target, st, ObjectiveMetric(own));
    UntouchedByGroup(c.id, windows, c.texts, c.target, st, BudgetMetric(own));
  }

  lemma RoundKeeps(jobs: seq<Job>, last: Option<Composed>, windows: seq<string>, st: Store, slo: SloInfo, w: string)
    requires Sized(last, windows) && (last.Some? ==> last.value.id.CompositionId?)
    ensures SameSeries(SloId(slo), w, RunJobs(jobs, windows, st), Round(jobs, last, windows, st))
  {
    hide EvalGroup, RecordingRules, RunJobs;
    if last.Some? {
      LastKeeps(last.value, windows, RunJobs(jobs, windows, st), slo, w);
    }
  }

  lemma RoundOwned(jobs: seq<Job>, last: Option<Composed>, windows: seq<string>, st: Store)
    requires Distinct(windows) && ValidJobs(jobs, windows, st) && ValidLast(last, jobs, windows, st)
    ensures forall i | 0 <= i < |jobs| :: Owned(SloId(jobs[i].slo), windows, Round(jobs, last, windows, st))
    ensures last.Some? ==> Owned(last.value.id, windows, Round(jobs, last, windows, st))
  {
    hide Owned, RunJobs, EvalGroup, RecordingRules, Independent, SameSeries, JobTexts, ReadsApart;
    var middle, final := RunJobs(jobs, windows, st), Round(jobs, last, windows, st);
    forall i | 0 <= i < |jobs| ensures Owned(SloId(jobs[i].slo), windows, final) {
      JobsStillOwned(jobs, windows, st, i);
      forall w ensures SameSeries(SloId(jobs[i].slo), w, middle, final) {
        RoundKeeps(jobs, last, windows, st, jobs[i].slo, w);
      }
      SameSeriesOwned(SloId(jobs[i].slo), windows, middle, final);
    }
    if last.Some? {
      var c := last.value;
      CompositionStillOwned(c.id, jobs, windows, st);
      StillOwned(c.id, windows, c.texts, c.target, middle);
    }
  }

  lemma NewCounters(jobs: seq<Job>, last: Option<Composed>, windows: seq<string>, st: Store, feed: Counters)
    requires ValidJobs(jobs, windows, st) && ValidLast(last, jobs, windows, st)
    ensures ValidJobs(jobs, windows, st.(counters := feed)) && ValidLast(last, jobs, windows, st.(counters := feed))
  {
    hide Owned, Independent, JobTexts, ReadsApart;
    forall i | 0 <= i < |jobs| ensures ValidJob(jobs[i], windows, st.(counters := feed)) {
      OwnedByCounters(SloId(jobs[i].slo), windows, st, feed);
    }
    if last.Some? {
      OwnedByCounters(last.value.id, windows, st, feed);
    }
  }

  lemma OwnedByCounters(id: Identity, windows: seq<string>, st: Store, feed: Counters)
    requires Owned(id, windows, st)
    ensures Owned(id, windows, st.(counters := feed))
  {
    assert forall m :: SeriesOf(st.(counters := feed), m) == SeriesOf(st, m);
  }

  lemma RoundValid(jobs: seq<Job>, last: Option<Composed>, windows: seq<string>, st: Store)
    requires Distinct(windows) && ValidJobs(jobs, windows, st) && ValidLast(last, jobs, windows, st)
    ensures ValidJobs(jobs, windows, Round(jobs, last, windows, st))
    ensures ValidLast(last, jobs, windows, Round(jobs, last, windows, st))
  {
    hide Owned, Independent, JobTexts, Round, ReadsApart;
    RoundOwned(jobs, last, windows, st);
    forall i | 0 <= i < |jobs| ensures ValidJob(jobs[i], windows, Round(jobs, last, windows, st)) {
    }
  }

  lemma {:induction false} RoundsValid(jobs: seq<Job>, last: Option<Composed>, windows: seq<string>,
                                       feeds: seq<Counters>, st: Store)
    requires Distinct(windows) && ValidJobs(jobs, windows, st) && ValidLast(last, jobs, windows, st)
    ensures ValidJobs(jobs, windows, Rounds(jobs, last, windows, feeds, st))
    ensures ValidLast(last, jobs, windows, Rounds(jobs, last, windows, feeds, st))
  {
    hide ValidJobs, Round;
    if |feeds| == 0 {
    } else {
      var n := |feeds| - 1;
      RoundsValid(jobs, last, windows, feeds[..n], st);
      NewCounters(jobs, last, windows, Rounds(jobs, last, windows, feeds[..n], st), feeds[n]);
      RoundValid(jobs, last, windows, Latest(jobs, last, windows, feeds, st));
    }
  }

  lemma LatestValid(jobs: seq<Job>, last: Option<Composed>, windows: seq<string>, feeds: seq<Counters>, st: Store)
    requires Distinct(windows) && ValidJobs(jobs, windows, st) && ValidLast(last, jobs, windows, st) && |feeds| > 0
    ensures ValidJobs(jobs, windows, Latest(jobs, last, windows, feeds, st))
    ensures ValidLast(last, jobs, windows, Latest(jobs, last, windows, feeds, st))
  {
    hide ValidJobs, Rounds, Owned, Independent, ReadsApart;
    var n := |feeds| - 1;
    RoundsValid(jobs, last, windows, feeds[..n], st);
    NewCounters(jobs, last, windows, Rounds(jobs, last, windows, feeds[..n], st), feeds[n]);
  }

  /** Neither the SLOs nor the composition write the metric. */
  ghost predicate Unwritten(jobs: seq<Job>, last: Option<Composed>, windows: seq<string>, metric: string) {
    && (forall i | 0 <= i < |jobs| :: !Recorded(SloId(jobs[i].slo), windows, metric))
    && (last.Some? ==> !Recorded(last.value.id, windows, metric))
  }

  lemma {:induction false} RoundsUnseen(jobs: seq<Job>, last: Option<Composed>, windows: seq<string>,
                                        feeds: seq<Counters>, st: Store, metric: string)
    requires Sized(last, windows) && Unwritten(jobs, last, windows, metric)
    ensures SeriesOf(Rounds(jobs, last, windows, feeds, st), metric) == SeriesOf(st, metric)
  {
    hide Recorded, RunJobs, EvalGroup, RecordingRules;
    if |feeds| == 0 {
    } else {
      var before := Latest(jobs, last, windows, feeds, st);
      RoundsUnseen(jobs, last, windows, feeds[..|feeds| - 1], st, metric);
      JobsUntouched(jobs, windows, before, metric);
      if last.Some? {
        UntouchedByGroup(last.value.id, windows, last.value.texts, last.value.target, RunJobs(jobs, windows, before),
                         metric);
      }
    }
  }

  /** A text of an SLO sees, in the last round, the last counters and the series that nobody here writes. */
  lemma LatestText(jobs: seq<Job>, last: Option<Composed>, windows: seq<string>, feeds: seq<Counters>, st: Store,
                   i: nat, t: Text)
    requires ValidJobs(jobs, windows, st) && ValidLast(last, jobs, windows, st) && |feeds| > 0
    requires i < |jobs| && t in JobTexts(jobs[i], windows)
    ensures TextValue(t, Latest(jobs, last, windows, feeds, st)) == TextValue(t, st.(counters := feeds[|feeds| - 1]))
  {
    hide Recorded, Rounds, JobTexts, Owned;
    var n := |feeds| - 1;
    assert ValidJob(jobs[i], windows, st);
    forall x | x in Reads(Parse(t).value)
      ensures SeriesOf(Latest(jobs, last, windows, feeds, st), x) == SeriesOf(st.(counters := feeds[n]), x)
    {
      forall j | 0 <= j < |jobs| ensures !Recorded(SloId(jobs[j].slo), windows, x) {
        SameNames(jobs[i].slo, jobs[j].slo, windows, x);
      }
      RoundsUnseen(jobs, last, windows, feeds[..n], st, x);
    }
    EvalFrame(Parse(t).value, Latest(jobs, last, windows, feeds, st), st.(counters := feeds[n]));
  }

  lemma SameSeriesLeaves(id: Identity, w: string, e: Option<real>, target: real, s1: Store, s2: Store)
    requires target != 100.0 && SameSeries(id, w, s1, s2) && Leaves(id, w, e, target, s1)
    ensures Leaves(id, w, e, target, s2)
  {
  }

  /**
   After every round of a repeated evaluation with changing counters, whatever happened in the
   rounds before, each SLO's window holds what its text was worth on the counters of that round;
   a composition evaluated at the end of each round makes no difference to the SLOs.
   */
  lemma RoundsMeaning(jobs: seq<Job>, last: Option<Composed>, windows: seq<string>, feeds: seq<Counters>, st: Store,
                      i: nat, k: nat, e: Option<real>)
    requires Distinct(windows) && ValidJobs(jobs, windows, st) && ValidLast(last, jobs, windows, st)
    requires i < |jobs| && k < |windows| && |feeds| > 0
    requires Yields(JobTexts(jobs[i], windows)[k], st.(counters := feeds[|feeds| - 1]), e)
    ensures Leaves(SloId(jobs[i].slo), windows[k], e, jobs[i].target, Rounds(jobs, last, windows, feeds, st))
  {
    hide ValidJobs, ReadsApart, JobTexts, RunJobs, TextValue, Leaves, SameSeries, Round, Latest, Owned, Independent;
    var before := Latest(jobs, last, windows, feeds, st);
    JobTargets(jobs, windows, st, i);
    LatestValid(jobs, last, windows, feeds, st);
    LatestText(jobs, last, windows, feeds, st, i, JobTexts(jobs[i], windows)[k]);
    JobsMeaning(jobs, windows, before, i, k, e);
    RoundKeeps(jobs, last, windows, before, jobs[i].slo, windows[k]);
    SameSeriesLeaves(SloId(jobs[i].slo), windows[k], e, jobs[i].target, RunJobs(jobs, windows, before),
                     Rounds(jobs, last, windows, feeds, st));
  }

  lemma RatesLatest(rates: map<SloInfo, real>, jobs: seq<Job>, last: Option<Composed>, windows: seq<string>, k: nat,
                    feeds: seq<Counters>, st: Store)
    requires ValidJobs(jobs, windows, st) && ValidLast(last, jobs, windows, st) && |feeds| > 0
    requires RatesImplied(rates, jobs, windows, k, st.(counters := feeds[|feeds| - 1]))
    ensures RatesImplied(rates, jobs, windows, k, Latest(jobs, last, windows, feeds, st))
  {
    hide ValidJobs, ReadsApart, JobTexts, TextValue, Rounds, Latest;
    var now, before := st.(counters := feeds[|feeds| - 1]), Latest(jobs, last, windows, feeds, st);
    forall s | s in rates
      ensures exists i | 0 <= i < |jobs| :: jobs[i].slo == s && Worth(JobTexts(jobs[i], windows)[k], before, rates[s])
    {
      var i :| 0 <= i < |jobs| && jobs[i].slo == s && Worth(JobTexts(jobs[i], windows)[k], now, rates[s]);
      LatestText(jobs, last, windows, feeds, st, i, JobTexts(jobs[i], windows)[k]);
    }
  }

  lemma WeightedLast(id: Identity, jobs: seq<Job>, legs: seq<Leg>, target: real, windows: seq<string>, st: Store)
    requires id.CompositionId? && Owned(id, windows, st) && ReadsApart(jobs, id, windows)
    requires |legs| > 0 && Nonempty(legs)
    ensures ValidLast(Some(Composed(id, WeightedTexts(legs, windows), target)), jobs, windows, st)
  {
    hide Owned, ReadsApart, Independent, WeightedText;
    forall t | t in WeightedTexts(legs, windows) ensures Independent(id, windows, t) {
      var i :| 0 <= i < |windows| && WeightedTexts(legs, windows)[i] == t;
      WeightedIndependent(id, windows, legs, windows[i]);
    }
  }

  lemma CompositionOwned(last: Option<Composed>, jobs: seq<Job>, windows: seq<string>, st: Store)
    requires last.Some? && ValidLast(last, jobs, windows, st)
    ensures Owned(last.value.id, windows, st)
  {
  }

  /**
   Rounds that end with a weighted composition: after every round, the composition's window holds
   the documented formula over the error rates that the components' texts were worth on the
   counters of that round, and its quotient by the composition's budget.
   */
  lemma {:induction false} WeightedRounds(id: Identity, jobs: seq<Job>, legs: seq<Leg>, target: real,
                                          windows: seq<string>, k: nat, rates: map<SloInfo, real>,
                                          feeds: seq<Counters>, st: Store)
    requires id.CompositionId? && Distinct(windows) && Owned(id, windows, st) && target != 100.0 && |feeds| > 0
    requires ValidJobs(jobs, windows, st) && ReadsApart(jobs, id, windows)
    requires RatesImplied(rates, jobs, windows, k, st.(counters := feeds[|feeds| - 1]))
    requires |legs| > 0 && Nonempty(legs) && Covers(rates, legs)
    ensures var last := Some(Composed(id, WeightedTexts(legs, windows), target));
            Leaves(id, windows[k], Some(ComposedError(legs, rates)), target, Rounds(jobs, last, windows, feeds, st))
  {
    hide ReadsApart, Owned, ValidJobs, Leaves, RunJobs, WeightedTexts, Worth, EvalGroup, RecordingRules, Latest,
         ComposedError;
    var last := Some(Composed(id, WeightedTexts(legs, windows), target));
    WeightedLast(id, jobs, legs, target, windows, st);
    hide ValidLast;
    LatestValid(jobs, last, windows, feeds, st);
    RatesLatest(rates, jobs, last, windows, k, feeds, st);
    CompositionOwned(last, jobs, windows, Latest(jobs, last, windows, feeds, st));
    CompositionFromCounters(id, jobs, legs, target, windows, k, rates, Latest(jobs, last, windows, feeds, st));
  }

  lemma {:induction false} RoundsAllOwn(jobs: seq<Job>, last: Option<Composed>, windows: seq<string>,
                                        feeds: seq<Counters>, st: Store, w: string)
    requires Sized(last, windows) && (last.Some? ==> last.value.id.CompositionId?)
    requires AllOwn(jobs, st, "slok:sli_error_rate:" + w)
    ensures AllOwn(jobs, Rounds(jobs, last, windows, feeds, st), "slok:sli_error_rate:" + w)
  {
    hide HoldsAll, IdMatchers, RunJobs, Round, AllOwn;
    if |feeds| == 0 {
    } else {
      var before := Latest(jobs, last, windows, feeds, st);
      var any := SloInfo("", "", "");
      RoundsAllOwn(jobs, last, windows, feeds[..|feeds| - 1], st, w);
      SameAllOwn(jobs, Rounds(jobs, last, windows, feeds[..|feeds| - 1], st), before, "slok:sli_error_rate:" + w);
      StillAllOwn(jobs, windows, before, "slok:sli_error_rate:" + w);
      RoundKeeps(jobs, last, windows, before, any, w);
      SameAllOwn(jobs, RunJobs(jobs, windows, before), Rounds(jobs, last, windows, feeds, st), SliMetric(SloId(any), w));
    }
  }

  lemma LatestAllOwn(jobs: seq<Job>, last: Option<Composed>, windows: seq<string>, feeds: seq<Counters>, st: Store,
                     w: string)
    requires Sized(last, windows) && (last.Some? ==> last.value.id.CompositionId?) && |feeds| > 0
    requires AllOwn(jobs, st, "slok:sli_error_rate:" + w)
    ensures AllOwn(jobs, Latest(jobs, last, windows, feeds, st), "slok:sli_error_rate:" + w)
  {
    hide AllOwn, Rounds;
    var before := feeds[..|feeds| - 1];
    RoundsAllOwn(jobs, last, windows, before, st, w);
    SameAllOwn(jobs, Rounds(jobs, last, windows, before, st), Latest(jobs, last, windows, feeds, st),
               "slok:sli_error_rate:" + w);
  }

  lemma SameAllOwn(jobs: seq<Job>, s1: Store, s2: Store, metric: string)
    requires AllOwn(jobs, s1, metric) && SeriesOf(s1, metric) == SeriesOf(s2, metric)
    ensures AllOwn(jobs, s2, metric)
  {
  }

  lemma ReferencedLatest(slos: seq<SloInfo>, rates: map<SloInfo, real>, jobs: seq<Job>, last: Option<Composed>,
                         windows: seq<string>, k: nat, feeds: seq<Counters>, st: Store)
    requires ValidJobs(jobs, windows, st) && ValidLast(last, jobs, windows, st) && |feeds| > 0
    requires ReferencedImplied(slos, rates, jobs, windows, k, st.(counters := feeds[|feeds| - 1]))
    ensures ReferencedImplied(slos, rates, jobs, windows, k, Latest(jobs, last, windows, feeds, st))
  {
    hide ValidJobs, ReadsApart, JobTexts, TextValue, Rounds, RateOf, Latest;
    forall i | 0 <= i < |jobs| && jobs[i].slo in slos
      ensures Yields(JobTexts(jobs[i], windows)[k], Latest(jobs, last, windows, feeds, st), RateOf(rates, jobs[i].slo))
    {
      LatestText(jobs, last, windows, feeds, st, i, JobTexts(jobs[i], windows)[k]);
    }
  }

  lemma AndMinLast(id: Identity, jobs: seq<Job>, ids: seq<string>, target: real, windows: seq<string>, st: Store)
    requires id.CompositionId? && Owned(id, windows, st) && ReadsApart(jobs, id, windows)
    ensures ValidLast(Some(Composed(id, AndMinTexts(ids, windows), target)), jobs, windows, st)
  {
    hide Owned, ReadsApart, Independent, AndMinText;
    forall t | t in AndMinTexts(ids, windows) ensures Independent(id, windows, t) {
      var i :| 0 <= i < |windows| && AndMinTexts(ids, windows)[i] == t;
      AndMinIndependent(id, windows, ids, windows[i]);
    }
  }

  /** The same for rounds that end with an AND_MIN composition. */
  lemma {:induction false} AndMinRounds(id: Identity, jobs: seq<Job>, slos: seq<SloInfo>, target: real,
                                        windows: seq<string>, k: nat, rates: map<SloInfo, real>, e: Option<real>,
                                        feeds: seq<Counters>, st: Store)
    requires id.CompositionId? && Distinct(windows) && Owned(id, windows, st) && target != 100.0 && |feeds| > 0
    requires ValidJobs(jobs, windows, st) && ReadsApart(jobs, id, windows)
    requires ReferencedImplied(slos, rates, jobs, windows, k, st.(counters := feeds[|feeds| - 1]))
    requires AllOwn(jobs, st, "slok:sli_error_rate:" + windows[k])
    requires forall d | d in SlosOf(jobs) :: d in slos <==> Takes(slos, d)
    requires Largest(slos, rates, e)
    ensures var last := Some(Composed(id, AndMinTexts(ObjectiveIds(slos), windows), target));
            Leaves(id, windows[k], e, target, Rounds(jobs, last, windows, feeds, st))
  {
    hide ReadsApart, Owned, ValidJobs, Leaves, RunJobs, AndMinTexts, Takes, Largest, AllOwn, Yields, ObjectiveIds,
         EvalGroup, RecordingRules, Latest, SlosOf;
    var last := Some(Composed(id, AndMinTexts(ObjectiveIds(slos), windows), target));
    var before := Latest(jobs, last, windows, feeds, st);
    AndMinLast(id, jobs, ObjectiveIds(slos), target, windows, st);
    hide ValidLast;
    LatestValid(jobs, last, windows, feeds, st);
    LatestAllOwn(jobs, last, windows, feeds, st, windows[k]);
    ReferencedLatest(slos, rates, jobs, last, windows, k, feeds, st);
    CompositionOwned(last, jobs, windows, before);
    AndMinFromCounters(id, jobs, slos, target, windows, k, rates, e, before);
  }
}
