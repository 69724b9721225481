/**
 What the recording rules and the alerts of one identity mean. The rules of a single SLO and
 of both kinds of composition share their shape, so the results are stated once, for any
 identity and for any error-rate texts that do not read the group's own series.
 */
module RuleMeaning {
  import opened Strings
  import opened PromSyntax
  import opened PromEval
  import opened RuleGenerator

  // ----- texts and their trees -----

  lemma Means(e: Expr, t: Text)
    requires Print(e) == t && FitsAt(e, 0)
    ensures Parse(t) == Done(e, [])
  {
    RoundTrip(e);
  }

  /** The text `1 - ( ... )`. */
  lemma OneMinusText(e: Expr, t: Text)
    requires Print(e) == t && FitsAt(e, 0)
    ensures var whole := Bin(Sub, AllLabels, Lit(1.0), Paren(e));
            Print(whole) == [TNum(1.0), TOp(Sub), LPar] + t + [RPar] && FitsAt(whole, 0)
  {
    assert Print(Paren(e)) == [LPar] + t + [RPar] && FitsAt(Paren(e), 4);
    assert Print(Bin(Sub, AllLabels, Lit(1.0), Paren(e))) == [TNum(1.0)] + [TOp(Sub)] + [] + Print(Paren(e));
    assert FitsAt(Lit(1.0), 3);
  }

  function NumberTree(v: real): Expr {
    if v < 0.0 then Neg(Lit(-v)) else Lit(v)
  }

  function ConstantTree(v: real): Expr {
    Call("vector", NumberTree(v))
  }

  function BurnRateTree(id: Identity, window: string): Expr {
    Bin(Div, OnLabels(IdLabels(id)),
        Select(SelectorOf(id, SliMetric(id, window))), Select(SelectorOf(id, BudgetMetric(id))))
  }

  lemma ConstantMeans(v: real)
    ensures Parse(ConstantText(v)) == Done(ConstantTree(v), [])
    ensures Reads(ConstantTree(v)) == {}
  {
    assert Print(NumberTree(v)) == NumberText(v) && FitsAt(NumberTree(v), 0) && Reads(NumberTree(v)) == {};
    Means(ConstantTree(v), ConstantText(v));
  }

  lemma BurnRateMeans(id: Identity, window: string)
    ensures Parse(BurnRateText(id, window)) == Done(BurnRateTree(id, window), [])
  {
    Means(BurnRateTree(id, window), BurnRateText(id, window));
  }

  // ----- names -----

  predicate Distinct(windows: seq<string>) {
    forall i, j | 0 <= i < j < |windows| :: windows[i] != windows[j]
  }

  lemma RecordingWindowsDistinct()
    ensures Distinct(RECORDING_WINDOWS)
  {
  }

  /** The sixth character tells the four kinds of series apart. */
  lemma Initials(id: Identity, window: string)
    ensures |SliMetric(id, window)| > 5 && SliMetric(id, window)[5] == 's'
    ensures |BurnMetric(id, window)| > 5 && BurnMetric(id, window)[5] == 'b'
    ensures |ObjectiveMetric(id)| > 5 && ObjectiveMetric(id)[5] == 'o'
    ensures |BudgetMetric(id)| > 5 && BudgetMetric(id)[5] == 'e'
  {
  }

  lemma WindowInName(id: Identity, v: string, w: string)
    requires v != w
    ensures SliMetric(id, v) != SliMetric(id, w) && BurnMetric(id, v) != BurnMetric(id, w)
  {
    var n := |SliMetric(id, "")|;
    assert SliMetric(id, v)[n..] == v && SliMetric(id, w)[n..] == w;
    var k := |BurnMetric(id, "")|;
    assert BurnMetric(id, v)[k..] == v && BurnMetric(id, w)[k..] == w;
  }

  ghost predicate Recorded(id: Identity, windows: seq<string>, metric: string) {
    || metric == ObjectiveMetric(id)
    || metric == BudgetMetric(id)
    || exists i | 0 <= i < |windows| :: metric == SliMetric(id, windows[i]) || metric == BurnMetric(id, windows[i])
  }

  /** Text `t` parses and reads nothing that the group of `id` records. */
  ghost predicate Independent(id: Identity, windows: seq<string>, t: Text) {
    Parse(t).Done? && forall x | x in Reads(Parse(t).value) :: !Recorded(id, windows, x)
  }

  lemma GroupShape(id: Identity, windows: seq<string>, texts: seq<Text>, target: real)
    requires |texts| == |windows|
    ensures var rules := RecordingRules(id, windows, texts, target); var n := |windows|;
            && |rules| == 2 * n + 2
            && (forall i | 0 <= i < n :: rules[i] == SliRule(id, windows[i], texts[i]))
            && rules[n] == ObjectiveRule(id, target) && rules[n + 1] == BudgetRule(id, target)
            && (forall i | n + 2 <= i < 2 * n + 2 :: rules[i] == BurnRule(id, windows[i - n - 2]))
  {
  }

  lemma RecordNames(id: Identity, windows: seq<string>, texts: seq<Text>, target: real, j: nat)
    requires |texts| == |windows| && j < |RecordingRules(id, windows, texts, target)|
    ensures var r := RecordingRules(id, windows, texts, target)[j];
            r.Recording? && Recorded(id, windows, r.record)
  {
    hide BaseLabels, BurnRateText, ConstantText, SliMetric, BurnMetric;
    GroupShape(id, windows, texts, target);
    var n := |windows|;
    if j >= n + 2 {
      assert BurnMetric(id, windows[j - n - 2]) == RecordingRules(id, windows, texts, target)[j].record;
    }
  }

  lemma RecordsApart(id: Identity, windows: seq<string>, texts: seq<Text>, target: real, i: nat, j: nat)
    requires |texts| == |windows| && Distinct(windows)
    requires i < j < |RecordingRules(id, windows, texts, target)|
    ensures var rules := RecordingRules(id, windows, texts, target);
            rules[i].Recording? && rules[j].Recording? && rules[i].record != rules[j].record
  {
    hide SliMetric, BurnMetric, BaseLabels, BurnRateText, ConstantText, IdMatchers;
    GroupShape(id, windows, texts, target);
    var n := |windows|;
    var v := if i < n then windows[i] else if i >= n + 2 then windows[i - n - 2] else "";
    var w := if j < n then windows[j] else if j >= n + 2 then windows[j - n - 2] else "";
    Initials(id, v);
    Initials(id, w);
    if v != w {
      WindowInName(id, v, w);
    }
  }

  /** A burn-rate rule reads an error rate and the budget, never a burn rate. */
  lemma BurnRateReads(id: Identity, v: string, w: string)
    ensures BurnMetric(id, w) !in RuleReads(BurnRule(id, v))
  {
    BurnRateMeans(id, v);
    assert Reads(BurnRateTree(id, v)) == {SliMetric(id, v), BudgetMetric(id)};
    Initials(id, v);
    Initials(id, w);
  }

  lemma ConstantReads(v: real, record: string, labels: Labels)
    ensures RuleReads(Recording(record, ConstantText(v), labels)) == {}
  {
    ConstantMeans(v);
  }

  lemma SliReads(id: Identity, windows: seq<string>, w: string, t: Text, metric: string)
    requires Independent(id, windows, t) && Recorded(id, windows, metric)
    ensures metric !in RuleReads(SliRule(id, w, t))
  {
  }

  lemma ReadsEarlier(id: Identity, windows: seq<string>, texts: seq<Text>, target: real, i: nat, j: nat)
    requires |texts| == |windows|
    requires forall t | t in texts :: Independent(id, windows, t)
    requires i <= j < |RecordingRules(id, windows, texts, target)|
    ensures var rules := RecordingRules(id, windows, texts, target);
            rules[j].Recording? && rules[j].record !in RuleReads(rules[i])
  {
    hide Parse, RuleReads, Recorded, BaseLabels, BurnRateText, ConstantText, RecordingRules, Independent,
         SliMetric, BurnMetric;
    var rules := RecordingRules(id, windows, texts, target);
    var n := |windows|;
    RecordNames(id, windows, texts, target, j);
    GroupShape(id, windows, texts, target);
    if i < n {
      assert texts[i] in texts;
      SliReads(id, windows, windows[i], texts[i], rules[j].record);
    } else if i < n + 2 {
      ConstantReads(if i == n then target / 100.0 else 1.0 - target / 100.0,
                    if i == n then ObjectiveMetric(id) else BudgetMetric(id), BaseLabels(id, "30d"));
    } else {
      assert rules[j] == BurnRule(id, windows[j - n - 2]);
      BurnRateReads(id, windows[i - n - 2], windows[j - n - 2]);
    }
  }

  /**
   The recording group is well ordered: every rule reads only sources and what the rules
   before it record.
   */
  lemma GroupWellOrdered(id: Identity, windows: seq<string>, texts: seq<Text>, target: real)
    requires |texts| == |windows| && Distinct(windows)
    requires forall t | t in texts :: Independent(id, windows, t)
    ensures WellOrdered(RecordingRules(id, windows, texts, target))
  {
    var rules := RecordingRules(id, windows, texts, target);
    forall i | 0 <= i < |rules| ensures rules[i].Recording? {
      RecordNames(id, windows, texts, target, i);
    }
    forall i, j | 0 <= i < j < |rules| ensures rules[i].record != rules[j].record {
      RecordsApart(id, windows, texts, target, i, j);
    }
    forall i, j | 0 <= i <= j < |rules| ensures rules[j].record !in RuleReads(rules[i]) {
      ReadsEarlier(id, windows, texts, target, i, j);
    }
  }

  // ----- the values recorded -----

  /** The text is worth one number, with no labels of its own. */
  predicate Worth(t: Text, st: Store, v: real) {
    TextValue(t, st) == Scalar(v) || TextValue(t, st) == Vec([Sample(map[], v)])
  }

  /** The series this identity records are written by its rules alone. */
  ghost predicate Owned(id: Identity, windows: seq<string>, st: Store) {
    var ms := IdMatchers(id);
    && Exclusive(st, ObjectiveMetric(id), ms, BaseLabels(id, "30d"))
    && Exclusive(st, BudgetMetric(id), ms, BaseLabels(id, "30d"))
    && (forall w | w in windows ::
          && Exclusive(st, SliMetric(id, w), ms, BaseLabels(id, w))
          && Exclusive(st, BurnMetric(id, w), ms, BaseLabels(id, w)))
  }

  predicate SoloOf(id: Identity, st: Store, metric: string, window: string, v: real) {
    Solo(st, metric, IdMatchers(id), BaseLabels(id, window), v)
  }

  lemma OwnLabels(id: Identity, window: string)
    ensures HoldsAll(IdMatchers(id), BaseLabels(id, window))
  {
  }

  /** What tells one identity from another: the labels on which its series are joined. */
  function OwnNames(id: Identity): Labels {
    match id
    case SloId(s) => map["slo_name" := s.name, "slo_namespace" := s.namespace, "objective_name" := s.objective]
    case CompositionId(name, namespace) =>
      map["slo_composition_name" := name, "slo_composition_namespace" := namespace]
  }

  lemma SameKey(id: Identity, v: string, w: string)
    ensures Key(OnLabels(IdLabels(id)), BaseLabels(id, v)) == OwnNames(id)
    ensures Key(OnLabels(IdLabels(id)), BaseLabels(id, w)) == OwnNames(id)
  {
  }

  lemma ConstantWorth(v: real, st: Store)
    ensures Worth(ConstantText(v), st, v)
  {
    ConstantMeans(v);
    assert Eval(NumberTree(v), st) == Scalar(v);
  }

  lemma DivideSolo(m: Matching, x: Sample, y: Sample)
    requires Key(m, x.labels) == Key(m, y.labels) && y.v != 0.0
    ensures BinValue(Div, m, Vec([x]), Vec([y])) == Vec([Sample(Key(m, x.labels), x.v / y.v)])
  {
    assert y in [y];
    assert HasPartner(m, x, [y]);
    assert Pairs(Div, m, [x][1..], [y]) == Some([]);
  }

  /** A burn rate is the error rate divided by the error budget, as soon as both are recorded. */
  lemma BurnRateWorth(id: Identity, window: string, st: Store, e: real, b: real)
    requires SoloOf(id, st, SliMetric(id, window), window, e)
    requires SoloOf(id, st, BudgetMetric(id), "30d", b) && b != 0.0
    ensures TextValue(BurnRateText(id, window), st) == Vec([Sample(OwnNames(id), e / b)])
  {
    hide Parse, BurnRateText, SliMetric, BudgetMetric, BaseLabels, IdMatchers, Key, OwnNames;
    BurnRateMeans(id, window);
    SameKey(id, window, "30d");
    DivideSolo(OnLabels(IdLabels(id)), Sample(BaseLabels(id, window), e), Sample(BaseLabels(id, "30d"), b));
    assert Eval(Select(SelectorOf(id, SliMetric(id, window))), st) == Vec([Sample(BaseLabels(id, window), e)]);
    assert Eval(Select(SelectorOf(id, BudgetMetric(id))), st) == Vec([Sample(BaseLabels(id, "30d"), b)]);
  }

  lemma SameReadings(id: Identity, windows: seq<string>, t: Text, s1: Store, s2: Store)
    requires Independent(id, windows, t) && s1.counters == s2.counters
    requires forall x | !Recorded(id, windows, x) :: SeriesOf(s1, x) == SeriesOf(s2, x)
    ensures TextValue(t, s1) == TextValue(t, s2)
  {
    EvalFrame(Parse(t).value, s1, s2);
  }

  /** The store `final` after one evaluation of the group in `st`, as equations. */
  ghost predicate Ran(id: Identity, windows: seq<string>, texts: seq<Text>, target: real, st: Store, final: Store)
    requires |texts| == |windows|
  {
    && final.counters == st.counters
    && (forall x | !Recorded(id, windows, x) :: SeriesOf(final, x) == SeriesOf(st, x))
    && (forall i | 0 <= i < |windows| :: Settled(SliRule(id, windows[i], texts[i]), st, final))
    && Settled(ObjectiveRule(id, target), st, final)
    && Settled(BudgetRule(id, target), st, final)
    && (forall i | 0 <= i < |windows| :: Settled(BurnRule(id, windows[i]), st, final))
  }

  lemma UntouchedByGroup(id: Identity, windows: seq<string>, texts: seq<Text>, target: real, st: Store, metric: string)
    requires |texts| == |windows| && !Recorded(id, windows, metric)
    ensures var final := EvalGroup(RecordingRules(id, windows, texts, target), st);
            SeriesOf(final, metric) == SeriesOf(st, metric) && final.counters == st.counters
  {
    var rules := RecordingRules(id, windows, texts, target);
    forall r | r in rules ensures r.Recording? ==> r.record != metric {
      var j :| 0 <= j < |rules| && rules[j] == r;
      RecordNames(id, windows, texts, target, j);
    }
    GroupFrame(rules, st, metric);
  }

  lemma {:induction false} GroupCounters(rules: seq<Rule>, st: Store)
    ensures EvalGroup(rules, st).counters == st.counters
  {
    if |rules| == 0 {
    } else {
      GroupCounters(rules[..|rules| - 1], st);
    }
  }

  lemma GroupRuns(id: Identity, windows: seq<string>, texts: seq<Text>, target: real, st: Store)
    requires |texts| == |windows| && Distinct(windows)
    requires forall t | t in texts :: Independent(id, windows, t)
    ensures Ran(id, windows, texts, target, st, EvalGroup(RecordingRules(id, windows, texts, target), st))
  {
    hide EvalGroup, Settled, Recorded, Independent, WellOrdered, RecordingRules, SliRules, BurnRules,
         SeriesOf, BurnRateText, ConstantText, BaseLabels;
    var rules := RecordingRules(id, windows, texts, target);
    var final := EvalGroup(rules, st);
    GroupShape(id, windows, texts, target);
    GroupWellOrdered(id, windows, texts, target);
    GroupCounters(rules, st);
    forall x | !Recorded(id, windows, x) ensures SeriesOf(final, x) == SeriesOf(st, x) {
      UntouchedByGroup(id, windows, texts, target, st, x);
    }
    var n := |windows|;
    GroupSettles(rules, st, n);
    GroupSettles(rules, st, n + 1);
    forall i | 0 <= i < n
      ensures Settled(SliRule(id, windows[i], texts[i]), st, final)
      ensures Settled(BurnRule(id, windows[i]), st, final)
    {
      GroupSettles(rules, st, i);
      GroupSettles(rules, st, n + 2 + i);
    }
  }

  /** What the store holds for an identity after its recording group has run once. */
  ghost predicate Recordings(id: Identity, windows: seq<string>, errors: seq<real>, target: real, st: Store)
    requires |errors| == |windows| && target != 100.0
  {
    && SoloOf(id, st, ObjectiveMetric(id), "30d", target / 100.0)
    && SoloOf(id, st, BudgetMetric(id), "30d", 1.0 - target / 100.0)
    && (forall i | 0 <= i < |windows| :: SoloOf(id, st, SliMetric(id, windows[i]), windows[i], errors[i]))
    && (forall i | 0 <= i < |windows| ::
          SoloOf(id, st, BurnMetric(id, windows[i]), windows[i], errors[i] / (1.0 - target / 100.0)))
  }

  lemma SliRecorded(id: Identity, window: string, t: Text, st: Store, final: Store, e: real)
    requires Settled(SliRule(id, window, t), st, final)
    requires Exclusive(st, SliMetric(id, window), IdMatchers(id), BaseLabels(id, window))
    requires Worth(t, final, e)
    ensures SoloOf(id, final, SliMetric(id, window), window, e)
  {
    OwnLabels(id, window);
    SettledSolo(SliRule(id, window, t), st, final, IdMatchers(id), e);
  }

  lemma ConstantRecorded(id: Identity, metric: string, v: real, st: Store, final: Store)
    requires var rule := Recording(metric, ConstantText(v), BaseLabels(id, "30d"));
             Settled(rule, st, final) && Exclusive(st, metric, IdMatchers(id), rule.labels)
    ensures SoloOf(id, final, metric, "30d", v)
  {
    OwnLabels(id, "30d");
    ConstantWorth(v, final);
    SettledSolo(Recording(metric, ConstantText(v), BaseLabels(id, "30d")), st, final, IdMatchers(id), v);
  }

  lemma OwnExtends(id: Identity, window: string)
    ensures Extends(BaseLabels(id, window), OwnNames(id))
  {
  }

  lemma BurnRateRecorded(id: Identity, window: string, st: Store, final: Store, e: real, b: real)
    requires Settled(BurnRule(id, window), st, final)
    requires Exclusive(st, BurnMetric(id, window), IdMatchers(id), BaseLabels(id, window))
    requires SoloOf(id, final, SliMetric(id, window), window, e)
    requires SoloOf(id, final, BudgetMetric(id), "30d", b) && b != 0.0
    ensures SoloOf(id, final, BurnMetric(id, window), window, e / b)
  {
    BurnRateWorth(id, window, final, e, b);
    OwnLabels(id, window);
    OwnExtends(id, window);
    hide BaseLabels, OwnNames, IdMatchers, TextValue, BurnRateText, Settled, Exclusive, SoloOf;
    SettledSolo(BurnRule(id, window), st, final, IdMatchers(id), e / b);
  }

  /** The text is worth one number, or yields no series at all. */
  ghost predicate Yields(t: Text, st: Store, e: Option<real>) {
    match e
    case Some(v) => Worth(t, st, v)
    case None => TextValue(t, st) == Vec([])
  }

  /** The identity has no series of the metric. */
  predicate Unseen(id: Identity, st: Store, metric: string) {
    Pick(IdMatchers(id), SeriesOf(st, metric)) == []
  }

  /** One series of the metric with this value, or none. */
  ghost predicate Shows(id: Identity, st: Store, metric: string, window: string, v: Option<real>) {
    match v
    case Some(r) => SoloOf(id, st, metric, window, r)
    case None => Unseen(id, st, metric)
  }

  /** The two series of one window: the error rate and its quotient by the budget, or neither. */
  ghost predicate WindowRecords(id: Identity, w: string, e: Option<real>, budget: real, st: Store)
    requires budget != 0.0
  {
    match e
    case Some(v) => SoloOf(id, st, SliMetric(id, w), w, v) && SoloOf(id, st, BurnMetric(id, w), w, v / budget)
    case None => Unseen(id, st, SliMetric(id, w)) && Unseen(id, st, BurnMetric(id, w))
  }

  lemma EmptyRecorded(rule: Rule, st: Store, final: Store, ms: seq<Matcher>)
    requires rule.Recording? && Settled(rule, st, final) && TextValue(rule.expr, final) == Vec([])
    requires Exclusive(st, rule.record, ms, rule.labels)
    ensures Pick(ms, SeriesOf(final, rule.record)) == []
  {
    hide Parse, TextValue;
    assert Output(rule.labels, Vec([])) == Some([]);
    PickOthers(ms, rule.labels, SeriesOf(st, rule.record));
    assert Others(rule.labels, SeriesOf(st, rule.record)) + [] == Others(rule.labels, SeriesOf(st, rule.record));
  }

  lemma DivideNothing(m: Matching, y: Sample)
    ensures BinValue(Div, m, Vec([]), Vec([y])) == Vec([])
  {
  }

  /** Without an error rate there is no burn rate. */
  lemma BurnRateOfNothing(id: Identity, window: string, st: Store, b: real)
    requires Unseen(id, st, SliMetric(id, window)) && SoloOf(id, st, BudgetMetric(id), "30d", b)
    ensures TextValue(BurnRateText(id, window), st) == Vec([])
  {
    hide Parse, BurnRateText, SliMetric, BudgetMetric, BaseLabels, IdMatchers, BinValue;
    BurnRateMeans(id, window);
    DivideNothing(OnLabels(IdLabels(id)), Sample(BaseLabels(id, "30d"), b));
    assert Eval(Select(SelectorOf(id, SliMetric(id, window))), st) == Vec([]);
    assert Eval(Select(SelectorOf(id, BudgetMetric(id))), st) == Vec([Sample(BaseLabels(id, "30d"), b)]);
  }

  lemma WindowMeaning(id: Identity, windows: seq<string>, w: string, t: Text, st: Store, final: Store,
                      e: Option<real>, b: real)
    requires Independent(id, windows, t) && Yields(t, st, e) && b != 0.0
    requires final.counters == st.counters
    requires forall x | !Recorded(id, windows, x) :: SeriesOf(final, x) == SeriesOf(st, x)
    requires Settled(SliRule(id, w, t), st, final) && Settled(BurnRule(id, w), st, final)
    requires Exclusive(st, SliMetric(id, w), IdMatchers(id), BaseLabels(id, w))
    requires Exclusive(st, BurnMetric(id, w), IdMatchers(id), BaseLabels(id, w))
    requires SoloOf(id, final, BudgetMetric(id), "30d", b)
    ensures WindowRecords(id, w, e, b, final)
  {
    hide Settled, Exclusive, TextValue, BurnRateText, SliMetric, BurnMetric, BudgetMetric, BaseLabels, IdMatchers,
         Recorded, Independent;
    SameReadings(id, windows, t, st, final);
    if e.Some? {
      SliRecorded(id, w, t, st, final, e.value);
      BurnRateRecorded(id, w, st, final, e.value, b);
    } else {
      EmptyRecorded(SliRule(id, w, t), st, final, IdMatchers(id));
      BurnRateOfNothing(id, w, final, b);
      EmptyRecorded(BurnRule(id, w), st, final, IdMatchers(id));
    }
  }

  lemma WindowMeaningAt(id: Identity, windows: seq<string>, texts: seq<Text>, target: real, st: Store, final: Store,
                        i: nat, e: Option<real>)
    requires |texts| == |windows| && Owned(id, windows, st) && target != 100.0 && i < |windows|
    requires Ran(id, windows, texts, target, st, final)
    requires forall t | t in texts :: Independent(id, windows, t)
    requires Yields(texts[i], st, e)
    requires SoloOf(id, final, BudgetMetric(id), "30d", 1.0 - target / 100.0)
    ensures WindowRecords(id, windows[i], e, 1.0 - target / 100.0, final)
  {
    hide Settled, Exclusive, Yields, WindowRecords, SliMetric, BurnMetric, BudgetMetric, BaseLabels, IdMatchers,
         Recorded, Independent;
    assert texts[i] in texts && windows[i] in windows;
    WindowMeaning(id, windows, windows[i], texts[i], st, final, e, 1.0 - target / 100.0);
  }

  lemma TargetsMeaning(id: Identity, windows: seq<string>, texts: seq<Text>, target: real, st: Store, final: Store)
    requires |texts| == |windows| && Owned(id, windows, st)
    requires Ran(id, windows, texts, target, st, final)
    ensures SoloOf(id, final, ObjectiveMetric(id), "30d", target / 100.0)
    ensures SoloOf(id, final, BudgetMetric(id), "30d", 1.0 - target / 100.0)
  {
    hide Settled, Exclusive, SoloOf, ConstantText, BaseLabels, IdMatchers, Recorded;
    ConstantRecorded(id, ObjectiveMetric(id), target / 100.0, st, final);
    ConstantRecorded(id, BudgetMetric(id), 1.0 - target / 100.0, st, final);
  }

  /** The constants and one window of the store that a group leaves. */
  ghost predicate Leaves(id: Identity, w: string, e: Option<real>, target: real, st: Store)
    requires target != 100.0
  {
    && SoloOf(id, st, ObjectiveMetric(id), "30d", target / 100.0)
    && SoloOf(id, st, BudgetMetric(id), "30d", 1.0 - target / 100.0)
    && WindowRecords(id, w, e, 1.0 - target / 100.0, st)
  }

  /**
   One evaluation of the group, from any store and for every target but 100. A window whose
   text was worth a number has that error rate and its quotient by 1 - target/100; a window
   whose text yielded no series has neither, whatever the store held before. What the texts of
   the other windows do makes no difference.
   */
  lemma GroupWindow(id: Identity, windows: seq<string>, texts: seq<Text>, target: real, st: Store,
                    i: nat, e: Option<real>)
    requires |texts| == |windows| && Distinct(windows) && Owned(id, windows, st) && target != 100.0
    requires forall t | t in texts :: Independent(id, windows, t)
    requires i < |windows| && Yields(texts[i], st, e)
    ensures Leaves(id, windows[i], e, target, EvalGroup(RecordingRules(id, windows, texts, target), st))
  {
    hide EvalGroup, RecordingRules, Ran, Owned, Yields, Independent, WindowRecords;
    var final := EvalGroup(RecordingRules(id, windows, texts, target), st);
    GroupRuns(id, windows, texts, target, st);
    TargetsMeaning(id, windows, texts, target, st, final);
    WindowMeaningAt(id, windows, texts, target, st, final, i, e);
  }

  /** With a number in every window: all error rates and all burn rates. */
  lemma GroupMeaning(id: Identity, windows: seq<string>, texts: seq<Text>, target: real, st: Store, errors: seq<real>)
    requires |texts| == |windows| == |errors| && Distinct(windows) && Owned(id, windows, st) && target != 100.0
    requires forall t | t in texts :: Independent(id, windows, t)
    requires forall i | 0 <= i < |windows| :: Worth(texts[i], st, errors[i])
    ensures Recordings(id, windows, errors, target, EvalGroup(RecordingRules(id, windows, texts, target), st))
  {
    hide EvalGroup, RecordingRules, Ran, Owned, Independent;
    var final := EvalGroup(RecordingRules(id, windows, texts, target), st);
    forall i | 0 <= i < |windows| ensures Leaves(id, windows[i], Some(errors[i]), target, final) {
      GroupWindow(id, windows, texts, target, st, i, Some(errors[i]));
    }
    GroupRuns(id, windows, texts, target, st);
    TargetsMeaning(id, windows, texts, target, st, final);
  }

  // ----- running again -----

  lemma StillExclusive(rule: Rule, st: Store, final: Store, ms: seq<Matcher>)
    requires rule.Recording? && Settled(rule, st, final) && Exclusive(st, rule.record, ms, rule.labels)
    ensures Exclusive(final, rule.record, ms, rule.labels)
  {
    hide Parse, TextValue;
    var out := Output(rule.labels, TextValue(rule.expr, final));
    if out.Some? {
      OthersForeign(ms, rule.labels, SeriesOf(st, rule.record));
      OutputExtends(rule.labels, TextValue(rule.expr, final));
    }
  }

  lemma {:induction false} OthersForeign(ms: seq<Matcher>, labels: Labels, s: seq<Sample>)
    requires forall x | x in s :: HoldsAll(ms, x.labels) ==> Extends(x.labels, labels)
    ensures forall x | x in Others(labels, s) :: !HoldsAll(ms, x.labels)
  {
    if |s| == 0 {
    } else {
      assert s[0] in s && forall x | x in s[1..] :: x in s;
      OthersForeign(ms, labels, s[1..]);
    }
  }

  lemma {:induction false} RelabelledExtends(labels: Labels, s: seq<Sample>)
    ensures forall x | x in Relabelled(labels, s) :: Extends(x.labels, labels)
  {
    if |s| == 0 {
    } else {
      RelabelledExtends(labels, s[1..]);
      assert Relabelled(labels, s)[1..] == Relabelled(labels, s[1..]);
      forall x | x in Relabelled(labels, s) ensures Extends(x.labels, labels) {
        assert x == Relabelled(labels, s)[0] || x in Relabelled(labels, s)[1..];
      }
    }
  }

  lemma OutputExtends(labels: Labels, v: Value)
    ensures Output(labels, v).Some? ==> forall x | x in Output(labels, v).value :: Extends(x.labels, labels)
  {
    if v.Vec? {
      RelabelledExtends(labels, v.s);
    }
  }

  /** Whatever its texts computed, a group leaves its identity's series to its own rules. */
  lemma StillOwned(id: Identity, windows: seq<string>, texts: seq<Text>, target: real, st: Store)
    requires |texts| == |windows| && Distinct(windows) && Owned(id, windows, st)
    requires forall t | t in texts :: Independent(id, windows, t)
    ensures Owned(id, windows, EvalGroup(RecordingRules(id, windows, texts, target), st))
  {
    hide EvalGroup, RecordingRules, Settled, Exclusive, Recorded, SliMetric, BurnMetric, ObjectiveMetric, BudgetMetric,
         BaseLabels, IdMatchers, Independent, BurnRateText, ConstantText;
    var final := EvalGroup(RecordingRules(id, windows, texts, target), st);
    GroupRuns(id, windows, texts, target, st);
    StillExclusive(ObjectiveRule(id, target), st, final, IdMatchers(id));
    StillExclusive(BudgetRule(id, target), st, final, IdMatchers(id));
    forall w | w in windows
      ensures Exclusive(final, SliMetric(id, w), IdMatchers(id), BaseLabels(id, w))
      ensures Exclusive(final, BurnMetric(id, w), IdMatchers(id), BaseLabels(id, w))
    {
      var i :| 0 <= i < |windows| && windows[i] == w;
      StillExclusive(SliRule(id, w, texts[i]), st, final, IdMatchers(id));
      StillExclusive(BurnRule(id, w), st, final, IdMatchers(id));
    }
  }

  // ----- two SLOs -----

  /** No series that carries these labels answers the selector. */
  ghost predicate Foreign(ms: seq<Matcher>, labels: Labels) {
    forall l: Labels :: Extends(l, labels) ==> !HoldsAll(ms, l)
  }

  lemma OtherSloForeign(a: SloInfo, b: SloInfo, window: string)
    requires a != b
    ensures Foreign(IdMatchers(SloId(a)), BaseLabels(SloId(b), window))
  {
    var ms, base := IdMatchers(SloId(a)), BaseLabels(SloId(b), window);
    forall l: Labels | Extends(l, base) ensures !HoldsAll(ms, l) {
      assert l["slo_name"] == b.name && l["slo_namespace"] == b.namespace && l["objective_name"] == b.objective by {
        assert "slo_name" in base && "slo_namespace" in base && "objective_name" in base;
      }
      assert !Holds(ms[0], l) || !Holds(ms[1], l) || !Holds(ms[2], l);
    }
  }
}
