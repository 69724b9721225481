/** The whole recording group of a single SLO, for standard queries and for the latency template. */
module SloMeaning {
  import opened Strings
  import opened PromSyntax
  import opened PromEval
  import opened Templates
  import opened RuleGenerator
  import opened RuleMeaning
  import opened SliMeaning

  lemma WindowLengths()
    ensures Seconds("5m") == 300 && Seconds("1h") == 3600 && Seconds("6h") == 21600
    ensures Seconds("3d") == 259200 && Seconds("7d") == 604800 && Seconds("30d") == 2592000
  {
    WindowNumbers();
    hide Decimal;
    assert "5m"[..1] == "5" && "1h"[..1] == "1" && "6h"[..1] == "6" && "3d"[..1] == "3" && "7d"[..1] == "7";
    assert "30d"[..2] == "30";
  }

  lemma DurationUnits(digits: string)
    requires |digits| > 0 && AllDigits(digits)
    ensures Seconds(digits + "s") == Decimal(digits) && Seconds(digits + "m") == 60 * Decimal(digits)
    ensures Seconds(digits + "h") == 3600 * Decimal(digits) && Seconds(digits + "d") == 86400 * Decimal(digits)
    ensures Seconds(digits + "w") == 604800 * Decimal(digits)
  {
    hide Decimal;
    var s, m, h := digits + "s", digits + "m", digits + "h";
    var d, w := digits + "d", digits + "w";
    assert s[..|digits|] == m[..|digits|] == h[..|digits|] == d[..|digits|] == w[..|digits|] == digits;
  }

  lemma WindowsTimed()
    ensures forall i | 0 <= i < |RECORDING_WINDOWS| :: Seconds(RECORDING_WINDOWS[i]) > 0
  {
    WindowLengths();
    assert RECORDING_WINDOWS[0] == "5m" && RECORDING_WINDOWS[1] == "1h" && RECORDING_WINDOWS[2] == "6h";
    assert RECORDING_WINDOWS[3] == "3d" && RECORDING_WINDOWS[4] == "7d" && RECORDING_WINDOWS[5] == "30d";
  }

  lemma SumRateReads(sel: Selector, window: string)
    ensures Reads(SumRateTree(sel, window)) == {}
  {
    assert Reads(Range(sel, window)) == {};
    assert Reads(Call("rate", Range(sel, window))) == {};
  }

  lemma SliTreeReads(error: Expr, total: Expr)
    requires Reads(error) == {} && Reads(total) == {}
    ensures Reads(SliTree(error, total)) == {}
  {
    assert Reads(Lit(0.0)) == {};
    assert Reads(Bin(Mul, AllLabels, total, Lit(0.0))) == {};
    assert Reads(Paren(Bin(Mul, AllLabels, total, Lit(0.0)))) == {};
    assert Reads(FilledTree(error, total)) == {};
    assert Reads(FloorTree(total)) == {};
    assert Reads(Paren(Bin(Div, AllLabels, FilledTree(error, total), FloorTree(total)))) == {};
  }

  lemma StandardIndependent(es: Selector, ts: Selector, window: string, id: Identity, windows: seq<string>)
    requires WellFormedSelector(es) && WellFormedSelector(ts)
    ensures Independent(id, windows, SliErrorRateText(SelectorText(es), SelectorText(ts), window))
  {
    SliMeans(es, ts, window);
    SumRateReads(es, window);
    SumRateReads(ts, window);
    SliTreeReads(SumRateTree(es, window), SumRateTree(ts, window));
  }

  /** The error rates of the windows, as the counters give them. */
  ghost predicate AreErrorRates(errors: seq<real>, es: Selector, ts: Selector, windows: seq<string>, st: Store) {
    |errors| == |windows| &&
    forall i | 0 <= i < |windows| ::
      Seconds(windows[i]) > 0 &&
      errors[i] == ErrorRate(Increases(es, windows[i], st), Increases(ts, windows[i], st), Seconds(windows[i]))
  }

  lemma StandardTexts(es: Selector, ts: Selector, resolved: Resolved, id: Identity, windows: seq<string>,
                      errors: seq<real>, st: Store)
    requires WellFormedSelector(es) && WellFormedSelector(ts)
    requires resolved == Resolved(SelectorText(ts), SelectorText(es), [])
    requires AreErrorRates(errors, es, ts, windows, st)
    ensures var texts := SliTexts(resolved, windows);
            && (forall t | t in texts :: Independent(id, windows, t))
            && (forall i | 0 <= i < |windows| :: Worth(texts[i], st, errors[i]))
  {
    var texts := SliTexts(resolved, windows);
    forall i | 0 <= i < |windows|
      ensures Independent(id, windows, texts[i]) && Worth(texts[i], st, errors[i])
    {
      StandardIndependent(es, ts, windows[i], id, windows);
      SliWorth(es, ts, windows[i], st);
    }
  }

  /** What the SLO's queries compute, for each recording window. */
  function StandardErrors(es: Selector, ts: Selector, st: Store): (errors: seq<real>)
    ensures AreErrorRates(errors, es, ts, RECORDING_WINDOWS, st)
  {
    WindowsTimed();
    seq(|RECORDING_WINDOWS|, i requires 0 <= i < |RECORDING_WINDOWS| =>
      var w := RECORDING_WINDOWS[i];
      ErrorRate(Increases(es, w, st), Increases(ts, w, st), Seconds(w)))
  }

  /** The recording group of a compiled SLO, with its budget alerts, is its recording rules. */
  lemma SloRuleRecords(sloName: string, namespace: string, objective: Objective, resolved: Resolved, st: Store)
    requires Compilable(objective)
    requires forall t | t in SliTexts(resolved, RECORDING_WINDOWS) ::
               Independent(SloId(SloInfo(sloName, namespace, objective.name)), RECORDING_WINDOWS, t)
    ensures var id := SloId(SloInfo(sloName, namespace, objective.name));
            var rules := SloRule(sloName, namespace, objective, resolved).groups[0].rules;
            && WellOrdered(rules)
            && EvalGroup(rules, st)
               == EvalGroup(RecordingRules(id, RECORDING_WINDOWS, SliTexts(resolved, RECORDING_WINDOWS),
                                           objective.target), st)
  {
    hide EvalGroup, RecordingRules, WellOrdered, Independent, AtRiskText, BudgetGoneText, BelowText, SliTexts;
    var id := SloId(SloInfo(sloName, namespace, objective.name));
    var texts := SliTexts(resolved, RECORDING_WINDOWS);
    var alerts := BudgetAlertRules(id.slo, objective.budgetAlerts);
    forall r | r in alerts ensures r.Alerting? {
      var i :| 0 <= i < |alerts| && alerts[i] == r;
    }
    RecordingWindowsDistinct();
    GroupWellOrdered(id, RECORDING_WINDOWS, texts, objective.target);
    AlertsKeepOrder(RecordingRules(id, RECORDING_WINDOWS, texts, objective.target), alerts);
    AlertsRecordNothing(RecordingRules(id, RECORDING_WINDOWS, texts, objective.target), alerts, st);
  }

  /**
   Compile an SLO whose queries are two metric selectors, evaluate the emitted group once in
   any store: every window's error rate is the clamped ratio of failed to total increase, the
   budget is 1 - target/100, and every burn rate is their quotient.
   */
  lemma SloGroupMeaning(sloName: string, namespace: string, objective: Objective, es: Selector, ts: Selector, st: Store)
    requires Compilable(objective) && objective.target != 100.0
    requires WellFormedSelector(es) && WellFormedSelector(ts)
    requires Owned(SloId(SloInfo(sloName, namespace, objective.name)), RECORDING_WINDOWS, st)
    ensures var rule := SloRule(sloName, namespace, objective, Resolved(SelectorText(ts), SelectorText(es), []));
            && WellOrdered(rule.groups[0].rules)
            && Recordings(SloId(SloInfo(sloName, namespace, objective.name)), RECORDING_WINDOWS,
                          StandardErrors(es, ts, st), objective.target, EvalGroup(rule.groups[0].rules, st))
  {
    hide EvalGroup, RecordingRules, WellOrdered, Owned, SelectorText, SliTexts, StandardErrors, Recordings, SloRule;
    var id := SloId(SloInfo(sloName, namespace, objective.name));
    var resolved := Resolved(SelectorText(ts), SelectorText(es), []);
    var errors := StandardErrors(es, ts, st);
    StandardTexts(es, ts, resolved, id, RECORDING_WINDOWS, errors, st);
    SloRuleRecords(sloName, namespace, objective, resolved, st);
    RecordingWindowsDistinct();
    GroupMeaning(id, RECORDING_WINDOWS, SliTexts(resolved, RECORDING_WINDOWS), objective.target, st, errors);
  }

  // ----- the latency template -----

  lemma {:induction false} InstantiateAppend(a: Text, b: Text, window: string)
    ensures Instantiate(a + b, window) == Instantiate(a, window) + Instantiate(b, window)
  {
    if |a| == 0 {
      assert a + b == b;
    } else {
      assert (a + b)[1..] == a[1..] + b;
      InstantiateAppend(a[1..], b, window);
    }
  }

  lemma {:induction false} InstantiateSame(a: Text, window: string)
    requires forall t | t in a :: !t.TDur?
    ensures Instantiate(a, window) == a
  {
    if |a| == 0 {
    } else {
      InstantiateSame(a[1..], window);
    }
  }

  lemma {:induction false} NoDurations(ms: seq<Matcher>)
    ensures forall t | t in MatchersText(ms) :: !t.TDur?
  {
    if |ms| <= 1 {
    } else {
      NoDurations(ms[1..]);
    }
  }

  lemma InstantiateSelector(sel: Selector, window: string)
    ensures Instantiate(SelectorText(sel), window) == SelectorText(sel)
  {
    NoDurations(sel.matchers);
    InstantiateSame(SelectorText(sel), window);
  }

  function LatencyTree(bucket: Expr, count: Expr): Expr {
    Bin(Sub, AllLabels, Lit(1.0), Paren(Bin(Div, AllLabels, bucket, FloorTree(count))))
  }

  lemma LatencyTreeText(bucket: Expr, count: Expr, b: Text, c: Text)
    requires Print(bucket) == b && Print(count) == c && FitsAt(bucket, TIGHTEST) && FitsAt(count, TIGHTEST)
    requires !bucket.Bin? && !count.Bin?
    ensures Print(LatencyTree(bucket, count)) == [TNum(1.0), TOp(Sub), LPar] + b
            + [TOp(Div), TIdent("clamp_min"), LPar] + c + [Comma, TNum(EPSILON), RPar, RPar]
    ensures FitsAt(LatencyTree(bucket, count), 0)
  {
    FloorText(count, c);
    RatioText(bucket, FloorTree(count));
    var ratio := Bin(Div, AllLabels, bucket, FloorTree(count));
    hide FloorTree, Print;
    OneMinusText(ratio, Print(ratio));
  }

  lemma LatencyParses(b: Selector, c: Selector, window: string)
    requires WellFormedSelector(b) && WellFormedSelector(c)
    ensures Parse([TNum(1.0), TOp(Sub), LPar] + SumRateText(SelectorText(b), window)
                  + [TOp(Div), TIdent("clamp_min"), LPar] + SumRateText(SelectorText(c), window)
                  + [Comma, TNum(EPSILON), RPar, RPar])
         == Done(LatencyTree(SumRateTree(b, window), SumRateTree(c, window)), [])
  {
    hide Parse, SumRateText, LatencyTree, SelectorText, Print;
    SumRatePrints(b, window);
    SumRatePrints(c, window);
    LatencyTreeText(SumRateTree(b, window), SumRateTree(c, window),
                    SumRateText(SelectorText(b), window), SumRateText(SelectorText(c), window));
    Means(LatencyTree(SumRateTree(b, window), SumRateTree(c, window)),
          [TNum(1.0), TOp(Sub), LPar] + SumRateText(SelectorText(b), window)
          + [TOp(Div), TIdent("clamp_min"), LPar] + SumRateText(SelectorText(c), window)
          + [Comma, TNum(EPSILON), RPar, RPar]);
  }

  lemma InstantiateRange(window: string)
    ensures Instantiate([LBrack, TDur(PLACEHOLDER), RBrack], window) == [LBrack, TDur(window), RBrack]
  {
    InstantiateAppend([LBrack], [TDur(PLACEHOLDER), RBrack], window);
    InstantiateAppend([TDur(PLACEHOLDER)], [RBrack], window);
    assert [LBrack] + [TDur(PLACEHOLDER), RBrack] == [LBrack, TDur(PLACEHOLDER), RBrack];
    assert [TDur(PLACEHOLDER)] + [RBrack] == [TDur(PLACEHOLDER), RBrack];
    InstantiateSame([LBrack], window);
    InstantiateSame([RBrack], window);
    assert Instantiate([TDur(PLACEHOLDER)], window) == [TDur(window)] + Instantiate([], window);
  }

  /** One selector with its window, after some text without windows and before some more text. */
  lemma InstantiatePiece(pre: Text, sel: Selector, rest: Text, window: string)
    requires forall t | t in pre :: !t.TDur?
    ensures Instantiate(pre + (SelectorText(sel) + ([LBrack, TDur(PLACEHOLDER), RBrack] + rest)), window)
         == pre + (SelectorText(sel) + ([LBrack, TDur(window), RBrack] + Instantiate(rest, window)))
  {
    var range: Text := [LBrack, TDur(PLACEHOLDER), RBrack];
    InstantiateAppend(pre, SelectorText(sel) + (range + rest), window);
    InstantiateAppend(SelectorText(sel), range + rest, window);
    InstantiateAppend(range, rest, window);
    InstantiateSame(pre, window);
    InstantiateSelector(sel, window);
    InstantiateRange(window);
  }

  /** The latency text as three stretches without windows around its two selectors. */
  lemma LatencyPieces(b: Text, c: Text, window: string)
    ensures var open: Text := [TNum(1.0), TOp(Sub), LPar, TIdent("sum"), LPar, TIdent("rate"), LPar];
            var middle: Text :=
              [RPar, RPar, TOp(Div), TIdent("clamp_min"), LPar, TIdent("sum"), LPar, TIdent("rate"), LPar];
            var close: Text := [RPar, RPar, Comma, TNum(EPSILON), RPar, RPar];
            && LatencyText(b, c) == open + (b + ([LBrack, TDur(PLACEHOLDER), RBrack]
                 + (middle + (c + ([LBrack, TDur(PLACEHOLDER), RBrack] + close)))))
            && [TNum(1.0), TOp(Sub), LPar] + SumRateText(b, window) + [TOp(Div), TIdent("clamp_min"), LPar]
                 + SumRateText(c, window) + [Comma, TNum(EPSILON), RPar, RPar]
               == open + (b + ([LBrack, TDur(window), RBrack]
                 + (middle + (c + ([LBrack, TDur(window), RBrack] + close)))))
  {
  }

  lemma LatencyInstance(b: Selector, c: Selector, window: string)
    ensures Instantiate(LatencyText(SelectorText(b), SelectorText(c)), window) ==
            [TNum(1.0), TOp(Sub), LPar] + SumRateText(SelectorText(b), window)
            + [TOp(Div), TIdent("clamp_min"), LPar] + SumRateText(SelectorText(c), window)
            + [Comma, TNum(EPSILON), RPar, RPar]
  {
    var open: Text := [TNum(1.0), TOp(Sub), LPar, TIdent("sum"), LPar, TIdent("rate"), LPar];
    var middle: Text := [RPar, RPar, TOp(Div), TIdent("clamp_min"), LPar, TIdent("sum"), LPar, TIdent("rate"), LPar];
    var close: Text := [RPar, RPar, Comma, TNum(EPSILON), RPar, RPar];
    LatencyPieces(SelectorText(b), SelectorText(c), window);
    InstantiatePiece(open, b, middle + (SelectorText(c) + ([LBrack, TDur(PLACEHOLDER), RBrack] + close)), window);
    InstantiatePiece(middle, c, close, window);
    InstantiateSame(close, window);
  }

  lemma UnitFrom(present: bool, v: real)
    ensures BinValue(Sub, AllLabels, Scalar(1.0), OneOrNone(present, v)) == OneOrNone(present, 1.0 - v)
  {
    var x := Sample(map[], v);
    assert ScalarWith(Sub, 1.0, [x][1..]) == Some([]);
  }

  lemma LatencyTreeValue(bucket: Expr, count: Expr, st: Store, p: bool, a: real, q: bool, b: real)
    requires Eval(bucket, st) == OneOrNone(p, a) && Eval(count, st) == OneOrNone(q, b)
    ensures Eval(LatencyTree(bucket, count), st) == OneOrNone(p && q, 1.0 - a / Max(b, EPSILON))
  {
    hide FloorTree, OneOrNone, BinValue;
    FloorValue(count, st, q, b);
    UnitDivide(p, a, q, Max(b, EPSILON));
    var ratio := Bin(Div, AllLabels, bucket, FloorTree(count));
    assert Eval(ratio, st) == OneOrNone(p && q, a / Max(b, EPSILON));
    assert Eval(Paren(ratio), st) == OneOrNone(p && q, a / Max(b, EPSILON));
    UnitFrom(p && q, a / Max(b, EPSILON));
  }

  lemma LatencyMeans(b: Selector, c: Selector, window: string)
    requires WellFormedSelector(b) && WellFormedSelector(c)
    ensures Parse(SliText(Resolved([], [], LatencyText(SelectorText(b), SelectorText(c))), window))
         == Done(LatencyTree(SumRateTree(b, window), SumRateTree(c, window)), [])
  {
    LatencyInstance(b, c, window);
    LatencyParses(b, c, window);
    assert |LatencyText(SelectorText(b), SelectorText(c))| > 0;
  }

  function LatencyRate(fast: seq<Sample>, total: seq<Sample>, seconds: nat): real
    requires seconds > 0
  {
    1.0 - Sum(fast) / seconds as real / Max(Sum(total) / seconds as real, EPSILON)
  }

  lemma LatencyValue(b: Selector, c: Selector, window: string, st: Store)
    requires Seconds(window) > 0
    ensures var fast, total := Increases(b, window, st), Increases(c, window, st);
            Eval(LatencyTree(SumRateTree(b, window), SumRateTree(c, window)), st) ==
            OneOrNone(fast != [] && total != [], LatencyRate(fast, total, Seconds(window)))
  {
    hide Eval, Increases, Sum, LatencyTree, SumRateTree, OneOrNone;
    var fast, total, n := Increases(b, window, st), Increases(c, window, st), Seconds(window) as real;
    SumRateValue(b, window, st);
    SumRateValue(c, window, st);
    LatencyTreeValue(SumRateTree(b, window), SumRateTree(c, window), st,
                     fast != [], Sum(fast) / n, total != [], Sum(total) / n);
  }

  /**
   The latency template, unlike the availability one, yields no value at all when a series is
   missing; and without any fast request, so also without any traffic, the error rate is 1.
   */
  lemma LatencyMeaning(order: seq<Matcher>, threshold: string, window: string, st: Store)
    requires Seconds(window) > 0
    ensures var fast := Increases(SelectorFor(BUCKET_METRIC, order + [Matcher("le", false, threshold)]), window, st);
            var total := Increases(SelectorFor(COUNT_METRIC, order), window, st);
            && TextValue(SliText(Resolved([], [], LatencyRaw(order, threshold)), window), st)
               == OneOrNone(fast != [] && total != [], LatencyRate(fast, total, Seconds(window)))
            && (Sum(fast) == 0.0 ==> LatencyRate(fast, total, Seconds(window)) == 1.0)
  {
    var b := SelectorFor(BUCKET_METRIC, order + [Matcher("le", false, threshold)]);
    var c := SelectorFor(COUNT_METRIC, order);
    LatencyMeans(b, c, window);
    LatencyValue(b, c, window, st);
  }

  lemma LatencyTreeReads(bucket: Expr, count: Expr)
    requires Reads(bucket) == {} && Reads(count) == {}
    ensures Reads(LatencyTree(bucket, count)) == {}
  {
    assert Reads(Lit(1.0)) == {};
    assert Reads(FloorTree(count)) == {};
    assert Reads(Paren(Bin(Div, AllLabels, bucket, FloorTree(count)))) == {};
  }

  lemma LatencyIndependent(order: seq<Matcher>, threshold: string, window: string, id: Identity, windows: seq<string>)
    ensures Independent(id, windows, SliText(Resolved([], [], LatencyRaw(order, threshold)), window))
  {
    var b := SelectorFor(BUCKET_METRIC, order + [Matcher("le", false, threshold)]);
    var c := SelectorFor(COUNT_METRIC, order);
    LatencyMeans(b, c, window);
    SumRateReads(b, window);
    SumRateReads(c, window);
    LatencyTreeReads(SumRateTree(b, window), SumRateTree(c, window));
  }

  /** What the latency template computes for a window: nothing when one of its two series is missing. */
  function LatencyAt(order: seq<Matcher>, threshold: string, window: string, st: Store): Option<real>
    requires Seconds(window) > 0
  {
    var fast := Increases(SelectorFor(BUCKET_METRIC, order + [Matcher("le", false, threshold)]), window, st);
    var total := Increases(SelectorFor(COUNT_METRIC, order), window, st);
    if fast != [] && total != [] then Some(LatencyRate(fast, total, Seconds(window))) else None
  }

  lemma LatencyYields(order: seq<Matcher>, threshold: string, window: string, st: Store)
    requires Seconds(window) > 0
    ensures Yields(SliText(Resolved([], [], LatencyRaw(order, threshold)), window), st,
                   LatencyAt(order, threshold, window, st))
  {
    hide TextValue, LatencyRaw, Increases, LatencyRate;
    LatencyMeaning(order, threshold, window, st);
  }

  /** What the latency template computes, for each recording window. */
  function LatencyErrors(order: seq<Matcher>, threshold: string, st: Store): (errors: seq<Option<real>>)
    ensures |errors| == |RECORDING_WINDOWS|
    ensures forall i | 0 <= i < |errors| ::
              Seconds(RECORDING_WINDOWS[i]) > 0 && errors[i] == LatencyAt(order, threshold, RECORDING_WINDOWS[i], st)
  {
    WindowsTimed();
    seq(|RECORDING_WINDOWS|, i requires 0 <= i < |RECORDING_WINDOWS| =>
      LatencyAt(order, threshold, RECORDING_WINDOWS[i], st))
  }

  /**
   The group of an SLO with the latency template, window by window: where both series exist the
   latency error rate and its quotient by the budget are recorded; where one is missing neither
   an error rate nor a burn rate is left, not even an older one.
   */
  lemma LatencyGroupMeaning(sloName: string, namespace: string, objective: Objective, order: seq<Matcher>,
                            threshold: string, st: Store)
    requires Compilable(objective) && objective.target != 100.0
    requires Owned(SloId(SloInfo(sloName, namespace, objective.name)), RECORDING_WINDOWS, st)
    ensures var rule := SloRule(sloName, namespace, objective, Resolved([], [], LatencyRaw(order, threshold)));
            var errors := LatencyErrors(order, threshold, st);
            && WellOrdered(rule.groups[0].rules)
            && forall i | 0 <= i < |RECORDING_WINDOWS| ::
                 Leaves(SloId(SloInfo(sloName, namespace, objective.name)), RECORDING_WINDOWS[i], errors[i],
                        objective.target, EvalGroup(rule.groups[0].rules, st))
  {
    hide EvalGroup, RecordingRules, WellOrdered, Owned, LatencyRaw, SliText, Leaves, SloRule, LatencyAt, Independent;
    var id := SloId(SloInfo(sloName, namespace, objective.name));
    var resolved := Resolved([], [], LatencyRaw(order, threshold));
    var texts := SliTexts(resolved, RECORDING_WINDOWS);
    forall i | 0 <= i < |texts| ensures Independent(id, RECORDING_WINDOWS, texts[i]) {
      LatencyIndependent(order, threshold, RECORDING_WINDOWS[i], id, RECORDING_WINDOWS);
    }
    SloRuleRecords(sloName, namespace, objective, resolved, st);
    RecordingWindowsDistinct();
    var errors := LatencyErrors(order, threshold, st);
    forall i | 0 <= i < |RECORDING_WINDOWS|
      ensures Leaves(id, RECORDING_WINDOWS[i], errors[i], objective.target,
                     EvalGroup(RecordingRules(id, RECORDING_WINDOWS, texts, objective.target), st))
    {
      LatencyYields(order, threshold, RECORDING_WINDOWS[i], st);
      GroupWindow(id, RECORDING_WINDOWS, texts, objective.target, st, i, errors[i]);
    }
  }
}
