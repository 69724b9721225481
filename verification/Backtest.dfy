/** Backtesting of SLO targets against the history of the counters. */
module Backtest {
  import opened Strings
  import opened PromSyntax
  import opened PromEval
  import opened Templates
  import opened RuleGenerator
  import opened RuleMeaning
  import opened SliMeaning
  import opened TemplateRates
  import opened AlertMeaning
  import B = ErrorBudget

  datatype TargetResult = TargetResult(
    target: real, availability: real, budgetBurned: real, budgetRemaining: real, pass: bool)

  method ComputeTargetResult(target: real, errorRate: real) returns (r: TargetResult)
    ensures r == ResultFor(target, errorRate)
    ensures !r.pass <==> target < 100.0 && errorRate > 1.0 - target / 100.0
  {
    FailsExactly(target, errorRate);
    var errorBudgetTarget := 1.0 - target / 100.0;
    var availability := (1.0 - errorRate) * 100.0;
    var budgetBurned := 0.0;
    if errorBudgetTarget > 0.0 {
      budgetBurned := errorRate / errorBudgetTarget * 100.0;
    }
    var budgetRemaining := 100.0 - budgetBurned;
    var pass := true;
    if budgetBurned > 100.0 {
      pass := false;
    }
    r := TargetResult(target, availability, budgetBurned, budgetRemaining, pass);
  }

  function BurnedPercent(target: real, errorRate: real): real {
    var budget := 1.0 - target / 100.0;
    if budget > 0.0 then errorRate / budget * 100.0 else 0.0
  }

  function ResultFor(target: real, errorRate: real): TargetResult {
    var burned := BurnedPercent(target, errorRate);
    TargetResult(target, (1.0 - errorRate) * 100.0, burned, 100.0 - burned, burned <= 100.0)
  }

  function Results(targets: seq<real>, errorRate: real): (rs: seq<TargetResult>)
    ensures |rs| == |targets| && forall i | 0 <= i < |rs| :: rs[i] == ResultFor(targets[i], errorRate)
  {
    if |targets| == 0 then [] else
      Results(targets[..|targets| - 1], errorRate) + [ResultFor(targets[|targets| - 1], errorRate)]
  }

  // ----- which query a run asks -----

  datatype Config = Config(slo: SloInfo, range: string, targets: seq<real>, total: Text, error: Text)

  datatype Source = FromRecordings | FromQueries

  /** A range in brackets; an empty one leaves nothing between them. */
  function BracketText(range: string): Text {
    if range == "" then [LBrack, RBrack] else [LBrack, TDur(range), RBrack]
  }

  /** The average of the recorded 5m error rate over the range. */
  function RecordedText(s: SloInfo, range: string): Text {
    [TIdent("avg_over_time"), LPar] + SelectorText(SelectorOf(SloId(s), "slok:sli_error_rate:5m"))
    + BracketText(range) + [RPar]
  }

  /** One given query is enough to ask the raw queries, and then both are needed. */
  function QueryOf(cfg: Config): Result<(Text, Source)> {
    if cfg.total != [] || cfg.error != [] then
      match RawErrorRateText(cfg.total, cfg.error, cfg.range)
      case Err(e) => Err(e)
      case Ok(t) => Ok((t, FromQueries))
    else Ok((RecordedText(cfg.slo, cfg.range), FromRecordings))
  }

  /**
   A run without raw queries asks for the average over the very series that the SLO's own group
   records. Without a range its text is no PromQL: nothing checks the range on this path.
   */
  lemma RecordedMeans(cfg: Config)
    requires cfg.total == [] && cfg.error == []
    ensures QueryOf(cfg).Ok?
    ensures var own := [Matcher("slo_name", false, cfg.slo.name), Matcher("slo_namespace", false, cfg.slo.namespace),
                        Matcher("objective_name", false, cfg.slo.objective)];
            Parse(QueryOf(cfg).value.0) ==
            if cfg.range == "" then Error
            else Done(Call("avg_over_time", Range(Selector("slok:sli_error_rate:5m", true, own), cfg.range)), [])
  {
    var s, range := cfg.slo, cfg.range;
    if range == "" {
      EmptyRangeFails(s);
    } else {
      var sel := SelectorOf(SloId(s), "slok:sli_error_rate:5m");
      var tree := Call("avg_over_time", Range(sel, range));
      hide SelectorText;
      assert Print(Range(sel, range)) == SelectorText(sel) + [LBrack, TDur(range), RBrack];
      assert Print(tree) == RecordedText(s, range);
      Means(tree, RecordedText(s, range));
    }
  }

  /** Where no operator follows a primary expression, every level of the parser reads the same. */
  lemma {:induction false} PrimaryAlone(level: nat, ts: Text)
    requires level <= TIGHTEST
    requires var p := ParsePrimary(ts); p.Done? ==> p.rest == [] || !p.rest[0].TOp?
    ensures ParseAt(level, ts) == ParsePrimary(ts)
    decreases TIGHTEST - level
  {
    hide ParsePrimary;
    if level == TIGHTEST {
    } else {
      PrimaryAlone(level + 1, ts);
    }
  }

  lemma EmptyRangeFails(s: SloInfo)
    ensures Parse(RecordedText(s, "")) == Error
  {
    var sel := SelectorOf(SloId(s), "slok:sli_error_rate:5m");
    var rest := [LBrack, RBrack, RPar];
    var whole, inner := RecordedText(s, ""), SelectorText(sel) + rest;
    SelectorRoundTrip(sel, rest);
    UnrangedSelector(inner, sel, rest);
    PrimaryAlone(0, inner);
    assert whole[0].TIdent? && whole[1].LPar? && whole[2..] == inner;
    UnclosedCall(whole);
    PrimaryAlone(0, whole);
  }

  lemma UnrangedSelector(ts: Text, sel: Selector, rest: Text)
    requires |ts| >= 2 && ts[0].TIdent? && ts[1].LBrace? && ParseSelector(ts) == Done(sel, rest)
    requires rest == [LBrack, RBrack, RPar]
    ensures ParsePrimary(ts) == Done(Select(sel), rest)
  {
    hide ParseSelector, ParseAt;
  }

  lemma UnclosedCall(ts: Text)
    requires |ts| >= 2 && ts[0].TIdent? && ts[1].LPar?
    requires var p := ParseAt(0, ts[2..]); p.Done? && p.rest != [] && p.rest[0].LBrack?
    ensures ParsePrimary(ts) == Error
  {
    hide ParseSelector, ParseAt;
  }

  /**
   The targets evaluated on one queried error rate, asked of the backend `ask`. A run fails when
   it has no query to ask (one of the two raw queries, or their range, is missing), or when the
   backend fails.
   */
  method Run(cfg: Config, ask: Text -> Result<real>) returns (r: Result<(seq<TargetResult>, Source)>)
    ensures r.Ok? <==> QueryOf(cfg).Ok? && ask(QueryOf(cfg).value.0).Ok?
    ensures QueryOf(cfg).Err? <==> (cfg.total == []) != (cfg.error == []) || (cfg.total != [] && cfg.range == "")
    ensures r.Ok? ==> r.value == (Results(cfg.targets, ask(QueryOf(cfg).value.0).value), QueryOf(cfg).value.1)
    ensures r.Ok? ==> |r.value.0| == |cfg.targets|
    ensures r.Ok? ==> (r.value.1 == FromQueries <==> cfg.total != [] || cfg.error != [])
    ensures r.Ok? ==> forall i | 0 <= i < |r.value.0| ::
              r.value.0[i].pass <==> cfg.targets[i] >= 100.0
                                     || ask(QueryOf(cfg).value.0).value <= 1.0 - cfg.targets[i] / 100.0
  {
    hide RawErrorRateText, RecordedText;
    QueryFails(cfg);
    var query := QueryOf(cfg);
    if query.Err? {
      return Err(query.error);
    }
    var answer := ask(query.value.0);
    if answer.Err? {
      return Err(answer.error);
    }
    var results := EvaluateTargets(cfg.targets, answer.value);
    forall i | 0 <= i < |results|
      ensures results[i].pass <==> cfg.targets[i] >= 100.0 || answer.value <= 1.0 - cfg.targets[i] / 100.0
    {
      FailsExactly(cfg.targets[i], answer.value);
    }
    r := Ok((results, query.value.1));
  }

  lemma QueryFails(cfg: Config)
    ensures QueryOf(cfg).Err? <==> (cfg.total == []) != (cfg.error == []) || (cfg.total != [] && cfg.range == "")
    ensures QueryOf(cfg).Ok? ==> (QueryOf(cfg).value.1 == FromQueries <==> cfg.total != [] || cfg.error != [])
  {
  }

  method EvaluateTargets(targets: seq<real>, errorRate: real) returns (results: seq<TargetResult>)
    ensures results == Results(targets, errorRate)
  {
    results := [];
    for i := 0 to |targets|
      invariant results == Results(targets[..i], errorRate)
    {
      assert targets[..i + 1][..i] == targets[..i];
      var t := ComputeTargetResult(targets[i], errorRate);
      results := results + [t];
    }
    assert targets[..|targets|] == targets;
  }

  lemma RatioAboveOne(e: real, u: real)
    requires u > 0.0
    ensures e / u * 100.0 > 100.0 <==> e > u
  {
    var q := e / u;
    assert e == q * u;
    if q > 1.0 {
      assert q * u - u == (q - 1.0) * u > 0.0;
    } else {
      assert u - q * u == (1.0 - q) * u >= 0.0;
    }
  }

  /**
   A target fails exactly when it is below 100 and the error rate exceeds its budget; a target
   of 100 or more passes whatever the error rate was.
   */
  lemma FailsExactly(target: real, e: real)
    ensures !ResultFor(target, e).pass <==> target < 100.0 && e > 1.0 - target / 100.0
  {
    if target < 100.0 {
      RatioAboveOne(e, 1.0 - target / 100.0);
    }
  }

  /**
   Below target 100 the backtest and the controller agree on what is left: the percentage in the
   status is the backtest's remaining budget, rounded, and zero instead of negative.
   */
  lemma RemainingAgrees(target: real, e: real, seconds: real)
    requires target < 100.0
    ensures var r := ResultFor(target, e);
            && B.BudgetFor(seconds, e / (1.0 - target / 100.0), e).0.percentRemaining
               == B.Round2(B.AtLeastZero(r.budgetRemaining))
            && r.budgetBurned / 100.0 * (1.0 - target / 100.0) == e
            && r.availability == 100.0 - e * 100.0
            && (r.pass <==> r.budgetRemaining >= 0.0)
  {
    var u := 1.0 - target / 100.0;
    var b := e / u;
    assert b * u == e;
    assert ResultFor(target, e).budgetBurned == b * 100.0;
  }

  /** Without a budget nothing is burned: a target of 100 or more passes, and keeps all that it does not have. */
  lemma NoBudget(target: real, e: real)
    requires target >= 100.0
    ensures ResultFor(target, e) == TargetResult(target, 100.0 - 100.0 * e, 0.0, 100.0, true)
  {
    assert 1.0 - target / 100.0 <= 0.0;
  }

  /** A stricter target below 100 fails whenever a laxer one does. */
  lemma StricterFails(low: real, high: real, e: real)
    requires low <= high < 100.0 && !ResultFor(low, e).pass
    ensures !ResultFor(high, e).pass
  {
    FailsExactly(low, e);
    FailsExactly(high, e);
  }

  /** For a 30d window the backtest fails exactly when the budget-exhausted alert fires on that error rate. */
  lemma BacktestIsAlert(id: Identity, st: Store, target: real, e: real)
    requires target < 100.0
    requires SoloOf(id, st, SliMetric(id, "30d"), "30d", e)
    requires SoloOf(id, st, BudgetMetric(id), "30d", 1.0 - target / 100.0)
    ensures !ResultFor(target, e).pass <==> Fires(ExhaustedText(id, "30d"), st)
  {
    FailsExactly(target, e);
    ExhaustedAlertFires(id, "30d", st, e, 1.0 - target / 100.0);
  }

  // ----- the raw query -----

  function SumIncreaseText(query: Text, range: string): Text {
    [TIdent("sum"), LPar, TIdent("increase"), LPar] + query + [LBrack, TDur(range), RBrack, RPar, RPar]
  }

  /** Failed over total increase, floored; both queries and the range are needed. */
  function RawErrorRateText(total: Text, error: Text, range: string): Result<Text> {
    if total == [] || error == [] then Err("pre-apply backtesting requires both totalQuery and errorQuery")
    else if range == "" then Err("pre-apply backtesting requires a range")
    else Ok(SumIncreaseText(error, range) + [TOp(Div), TIdent("clamp_min"), LPar]
            + SumIncreaseText(total, range) + [Comma, TNum(EPSILON), RPar])
  }

  function SumIncreaseTree(sel: Selector, range: string): Expr {
    Call("sum", Call("increase", Range(sel, range)))
  }

  function RawTree(error: Expr, total: Expr): Expr {
    Bin(Div, AllLabels, error, FloorTree(total))
  }

  lemma SumIncreaseMeans(sel: Selector, range: string)
    requires WellFormedSelector(sel)
    ensures Print(SumIncreaseTree(sel, range)) == SumIncreaseText(SelectorText(sel), range)
    ensures FitsAt(SumIncreaseTree(sel, range), TIGHTEST)
  {
    assert Print(Range(sel, range)) == SelectorText(sel) + [LBrack, TDur(range), RBrack];
    assert Print(Call("increase", Range(sel, range))) == [TIdent("increase"), LPar] + Print(Range(sel, range)) + [RPar];
    assert FitsAt(Call("increase", Range(sel, range)), 0);
  }

  lemma RawMeans(es: Selector, ts: Selector, range: string)
    requires WellFormedSelector(es) && WellFormedSelector(ts) && range != ""
    ensures var t := RawErrorRateText(SelectorText(ts), SelectorText(es), range);
            t.Ok? && Parse(t.value) == Done(RawTree(SumIncreaseTree(es, range), SumIncreaseTree(ts, range)), [])
  {
    var e, t := SumIncreaseTree(es, range), SumIncreaseTree(ts, range);
    SumIncreaseMeans(es, range);
    SumIncreaseMeans(ts, range);
    FloorText(t, SumIncreaseText(SelectorText(ts), range));
    Tight(e, 4);
    assert Print(RawTree(e, t)) == Print(e) + [TOp(Div)] + [] + Print(FloorTree(t));
    Means(RawTree(e, t), RawErrorRateText(SelectorText(ts), SelectorText(es), range).value);
  }

  lemma SumIncreaseValue(sel: Selector, range: string, st: Store)
    ensures Eval(SumIncreaseTree(sel, range), st) ==
            OneOrNone(Increases(sel, range, st) != [], Sum(Increases(sel, range, st)))
  {
    var s := Increases(sel, range, st);
    assert Eval(Range(sel, range), st) == Mat(s, Seconds(range));
    assert Eval(Call("increase", Range(sel, range)), st) == Vec(s);
  }

  lemma RawTreeValue(error: Expr, total: Expr, st: Store, p: bool, a: real, q: bool, b: real)
    requires Eval(error, st) == OneOrNone(p, a) && Eval(total, st) == OneOrNone(q, b)
    ensures Eval(RawTree(error, total), st) == OneOrNone(p && q, a / Max(b, EPSILON))
  {
    UnitClamp(q, b, EPSILON);
    assert Eval(FloorTree(total), st) == OneOrNone(q, Max(b, EPSILON));
    UnitDivide(p, a, q, Max(b, EPSILON));
  }

  /** The raw query answers only when both series exist. */
  lemma RawValue(es: Selector, ts: Selector, range: string, st: Store)
    requires WellFormedSelector(es) && WellFormedSelector(ts) && range != ""
    ensures var failed, total := Increases(es, range, st), Increases(ts, range, st);
            TextValue(RawErrorRateText(SelectorText(ts), SelectorText(es), range).value, st) ==
            OneOrNone(failed != [] && total != [], Sum(failed) / Max(Sum(total), EPSILON))
  {
    RawMeans(es, ts, range);
    SumIncreaseValue(es, range, st);
    SumIncreaseValue(ts, range, st);
    var failed, total := Increases(es, range, st), Increases(ts, range, st);
    RawTreeValue(SumIncreaseTree(es, range), SumIncreaseTree(ts, range), st,
                 failed != [], Sum(failed), total != [], Sum(total));
  }

  /**
   What a run over raw queries asks for: nothing where a series is missing, and otherwise the
   quotient of failed and total increase, or, for a total below a trillionth, the failed increase
   times a trillion.
   */
  lemma RawRate(cfg: Config, es: Selector, ts: Selector, st: Store) returns (v: real)
    requires WellFormedSelector(es) && WellFormedSelector(ts) && cfg.range != ""
    requires cfg.total == SelectorText(ts) && cfg.error == SelectorText(es)
    ensures QueryOf(cfg).Ok?
    ensures var f, t := Increases(es, cfg.range, st), Increases(ts, cfg.range, st);
            && TextValue(QueryOf(cfg).value.0, st) == (if f != [] && t != [] then Vec([Sample(map[], v)]) else Vec([]))
            && (if Sum(t) >= 0.000000000001 then v * Sum(t) == Sum(f) else v == Sum(f) * 1000000000000.0)
  {
    hide TextValue, SelectorText, Increases, Sum, Parse;
    var f, t := Sum(Increases(es, cfg.range, st)), Sum(Increases(ts, cfg.range, st));
    RawMeans(es, ts, cfg.range);
    RawValue(es, ts, cfg.range, st);
    RatioLaw(f, t, 1);
    v := f / Max(t, EPSILON);
  }

  lemma SameRatio(e: real, t: real, n: real)
    requires n > 0.0 && t > 0.0
    ensures e / n / (t / n) == e / t
  {
    var q, r := e / n, t / n;
    assert e == q * n && t == r * n;
    Fraction(q, r, n);
  }

  lemma Fraction(q: real, r: real, n: real)
    requires r != 0.0 && n != 0.0
    ensures r * n != 0.0 && q / r == (q * n) / (r * n)
  {
    var x := q / r;
    assert q == x * r;
    assert q * n == x * (r * n);
    var p := q * n;
    assert p / (r * n) == x;
  }

  lemma PositiveFactor(d: real, a: real)
    requires a > 0.0 && d * a > 0.0
    ensures d > 0.0
  {
  }

  lemma DivideLess(e: real, a: real, b: real)
    requires e > 0.0 && 0.0 < a < b
    ensures e / b < e / a
  {
    var x, y := e / a, e / b;
    assert e == x * a == y * b;
    PositiveFactor(y, b);
    assert (x - y) * a == y * (b - a);
    assert y * (b - a) > 0.0;
    PositiveFactor(x - y, a);
  }

  /** The two ratios agree exactly when nothing failed, the total rate reaches the floor, or the range is a second. */
  lemma RatiosAgree(failed: seq<Sample>, total: seq<Sample>, seconds: nat)
    requires seconds > 0 && failed != [] && total != [] && 0.0 <= Sum(failed) <= Sum(total)
    ensures Sum(failed) / Max(Sum(total), EPSILON) == ErrorRate(failed, total, seconds) <==>
            Sum(failed) == 0.0 || Sum(total) / seconds as real >= EPSILON || seconds == 1
  {
    var e, t, n := Sum(failed), Sum(total), seconds as real;
    if t / n >= EPSILON {
      assert t == t / n * n;
      AtLeast(t / n, n);
      SameRatio(e, t, n);
    } else if e > 0.0 && seconds > 1 {
      Floored(e, t, n);
    }
  }

  /**
   The raw query and the rule's own expression over the same range have the same value exactly
   when both series exist, and nothing failed, or the total rate reaches the floor, or the range
   is one second long. Where a series is missing the raw query yields nothing, while the rule
   still has a value.
   */
  lemma RawAgreesWithRule(es: Selector, ts: Selector, range: string, st: Store)
    requires WellFormedSelector(es) && WellFormedSelector(ts) && Seconds(range) > 0
    requires 0.0 <= Sum(Increases(es, range, st)) <= Sum(Increases(ts, range, st))
    ensures var f, t, n := Increases(es, range, st), Increases(ts, range, st), Seconds(range);
            var raw := RawErrorRateText(SelectorText(ts), SelectorText(es), range);
            && raw.Ok?
            && (TextValue(raw.value, st) == TextValue(SliErrorRateText(SelectorText(es), SelectorText(ts), range), st)
                <==> f != [] && t != [] && (Sum(f) == 0.0 || Sum(t) / n as real >= EPSILON || n == 1))
  {
    hide Parse, TextValue, SelectorText, SliErrorRateText, SumIncreaseText, Increases, Sum;
    var f, t, n := Increases(es, range, st), Increases(ts, range, st), Seconds(range);
    RawMeans(es, ts, range);
    RawValue(es, ts, range, st);
    SliValue(es, ts, range, st);
    if f != [] && t != [] {
      RatiosAgree(f, t, n);
    }
  }

  lemma AtLeast(r: real, n: real)
    requires r >= EPSILON && n >= 1.0
    ensures r * n >= EPSILON
  {
    assert r * n - r == r * (n - 1.0) >= 0.0;
  }

  lemma Floored(e: real, t: real, n: real)
    requires 0.0 < e <= t && n > 1.0 && t / n < EPSILON
    ensures e / Max(t, EPSILON) > e / n / Max(t / n, EPSILON)
  {
    assert t == t / n * n;
    assert t < EPSILON * n;
    assert EPSILON < EPSILON * n;
    DivideLess(e, Max(t, EPSILON), EPSILON * n);
    Nested(e, n);
  }

  lemma Nested(e: real, n: real)
    requires n > 0.0
    ensures e / n / EPSILON == e / (EPSILON * n)
  {
    var q := e / n;
    assert e == q * n;
    Fraction(q, EPSILON, n);
  }

  /**
   For a template's queries and any non-negative counters: the backtest over raw queries sees what
   the rule computes exactly when the error series exists, and that same condition holds.
   */
  lemma TemplateBacktest(metric: string, order: seq<Matcher>, failed: Matcher, range: string, st: Store)
    requires Seconds(range) > 0 && NonNegative(CountersOf(st, metric))
    ensures var q := StandardQueries(metric, order, failed);
            var f := Increases(SelectorFor(metric, order + [failed]), range, st);
            var t := Increases(SelectorFor(metric, order), range, st);
            var raw := RawErrorRateText(q.total, q.error, range);
            && raw.Ok?
            && (TextValue(raw.value, st) == TextValue(SliText(q, range), st) <==>
                  f != [] && (Sum(f) == 0.0 || Sum(t) / Seconds(range) as real >= EPSILON || Seconds(range) == 1))
  {
    hide Eval, Parse, HoldsAll, TextValue, RawErrorRateText, SliErrorRateText;
    NarrowerSum(order, failed, Seconds(range), CountersOf(st, metric));
    SumNonNegative(order + [failed], Seconds(range), CountersOf(st, metric));
    RawAgreesWithRule(SelectorFor(metric, order + [failed]), SelectorFor(metric, order), range, st);
  }

  /** A service that never failed, so that no series counts its failures yet. */
  function FlawlessStore(seconds: nat): Store {
    Store(map[], map[HTTP_METRIC := [Counter(map["status" := "200"], map[seconds := 100.0])]])
  }

  /** There the rule's error rate is zero, and the raw backtest has nothing to report. */
  lemma FlawlessBacktest(range: string)
    requires Seconds(range) > 0
    ensures var st := FlawlessStore(Seconds(range));
            var q := StandardQueries(HTTP_METRIC, [], Matcher("status", true, "5.."));
            var raw := RawErrorRateText(q.total, q.error, range);
            && TextValue(SliText(q, range), st) == Vec([Sample(map[], 0.0)])
            && raw.Ok? && TextValue(raw.value, st) == Vec([])
  {
    hide Eval, Parse, TextValue, SliErrorRateText, SumIncreaseText;
    var failed := Matcher("status", true, "5..");
    var es, ts := SelectorFor(HTTP_METRIC, [] + [failed]), SelectorFor(HTTP_METRIC, []);
    FlawlessIncreases(range);
    RawMeans(es, ts, range);
    RawValue(es, ts, range, FlawlessStore(Seconds(range)));
    SliValue(es, ts, range, FlawlessStore(Seconds(range)));
  }

  lemma FlawlessIncreases(range: string)
    ensures var st := FlawlessStore(Seconds(range));
            && Increases(SelectorFor(HTTP_METRIC, [] + [Matcher("status", true, "5..")]), range, st) == []
            && Increases(SelectorFor(HTTP_METRIC, []), range, st) == [Sample(map["status" := "200"], 100.0)]
  {
    var failed := Matcher("status", true, "5..");
    var c := Counter(map["status" := "200"], map[Seconds(range) := 100.0]);
    assert !Holds(failed, c.labels) by {
      SplitJoin(["5.."], '|');
      assert !DotMatch("5..", "200") by { assert "5.."[0] == '5' && "200"[0] == '2'; }
    }
    var st, es, ts := FlawlessStore(Seconds(range)), [] + [failed], [];
    hide Seconds, RegexMatch;
    assert failed in es && !HoldsAll(es, c.labels) && HoldsAll(ts, c.labels);
    assert CountersOf(st, HTTP_METRIC) == [c] && [c][1..] == [];
    assert PickIncreases(es, Seconds(range), [c]) == [];
    assert PickIncreases(ts, Seconds(range), [c]) == [Sample(c.labels, 100.0)];
  }
}
