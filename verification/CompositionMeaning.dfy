/** What the error-rate texts of a composition mean, and when they mean anything. */
module CompositionMeaning {
  import opened Strings
  import opened PromSyntax
  import opened PromEval
  import opened Templates
  import opened RuleGenerator
  import opened RuleMeaning
  import opened CompositionGenerator

  // ----- WEIGHTED_ROUTES: the tree -----

  function FactorTree(s: SloInfo, window: string): Expr {
    Paren(Bin(Sub, AllLabels, Lit(1.0), Call("scalar", Select(SelectorOf(SloId(s), SliMetric(SloId(s), window))))))
  }

  function ChainTree(chain: seq<SloInfo>, window: string): Expr
    requires |chain| > 0
  {
    var n := |chain| - 1;
    if n == 0 then FactorTree(chain[0], window)
    else Bin(Mul, AllLabels, ChainTree(chain[..n], window), FactorTree(chain[n], window))
  }

  function RouteTree(leg: Leg, window: string): Expr
    requires |leg.chain| > 0
  {
    Bin(Mul, AllLabels, NumberTree(leg.weight), Paren(ChainTree(leg.chain, window)))
  }

  ghost predicate Nonempty(legs: seq<Leg>) {
    forall i | 0 <= i < |legs| :: |legs[i].chain| > 0
  }

  function RoutesTree(legs: seq<Leg>, window: string): Expr
    requires |legs| > 0 && forall i | 0 <= i < |legs| :: |legs[i].chain| > 0
  {
    var n := |legs| - 1;
    if n == 0 then RouteTree(legs[0], window)
    else Bin(Add, AllLabels, RoutesTree(legs[..n], window), RouteTree(legs[n], window))
  }

  function WeightedTree(legs: seq<Leg>, window: string): Expr
    requires |legs| > 0 && forall i | 0 <= i < |legs| :: |legs[i].chain| > 0
  {
    Bin(Sub, AllLabels, Lit(1.0), Paren(RoutesTree(legs, window)))
  }

  lemma FactorTreeText(s: SloInfo, window: string)
    ensures Print(FactorTree(s, window)) == FactorText(s, window) && FitsAt(FactorTree(s, window), TIGHTEST)
    ensures FitsAt(FactorTree(s, window), 4)
  {
    var sel := Select(SelectorOf(SloId(s), SliMetric(SloId(s), window)));
    var call := Call("scalar", sel);
    assert Print(call) == [TIdent("scalar"), LPar] + Print(sel) + [RPar] && FitsAt(call, 4);
    var diff := Bin(Sub, AllLabels, Lit(1.0), call);
    assert Print(diff) == [TNum(1.0)] + [TOp(Sub)] + [] + Print(call);
    assert FitsAt(Lit(1.0), 3) && FitsAt(diff, 0);
  }

  lemma MulText(l: Expr, r: Expr)
    ensures Print(Bin(Mul, AllLabels, l, r)) == Print(l) + [TOp(Mul)] + Print(r)
    ensures Print(Bin(Add, AllLabels, l, r)) == Print(l) + [TOp(Add)] + Print(r)
  {
  }

  lemma {:induction false} ChainTreeText(chain: seq<SloInfo>, window: string)
    requires |chain| > 0
    ensures Print(ChainTree(chain, window)) == JoinText(FactorTexts(chain, window), [TOp(Mul)])
    ensures FitsAt(ChainTree(chain, window), 4)
  {
    hide FactorTree, FactorText, SelectorText;
    var n := |chain| - 1;
    FactorTreeText(chain[n], window);
    if n == 0 {
    } else {
      ChainTreeText(chain[..n], window);
      assert FactorTexts(chain, window)[..n] == FactorTexts(chain[..n], window);
      MulText(ChainTree(chain[..n], window), FactorTree(chain[n], window));
    }
  }

  lemma NumberTreeText(v: real)
    ensures Print(NumberTree(v)) == NumberText(v) && !NumberTree(v).Bin?
    ensures forall level: nat :: FitsAt(NumberTree(v), level)
  {
  }

  lemma RouteTreeText(leg: Leg, window: string)
    requires |leg.chain| > 0
    ensures Print(RouteTree(leg, window)) == RouteText(leg, window) && FitsAt(RouteTree(leg, window), 4)
  {
    ChainTreeText(leg.chain, window);
    NumberTreeText(leg.weight);
    var body := Paren(ChainTree(leg.chain, window));
    assert FitsAt(ChainTree(leg.chain, window), 0);
    assert Print(body) == [LPar] + Print(ChainTree(leg.chain, window)) + [RPar] && FitsAt(body, 5);
    MulText(NumberTree(leg.weight), body);
  }

  lemma {:induction false} RoutesTreeText(legs: seq<Leg>, window: string)
    requires |legs| > 0 && Nonempty(legs)
    ensures Print(RoutesTree(legs, window)) == JoinText(RouteTexts(legs, window), [TOp(Add)])
    ensures FitsAt(RoutesTree(legs, window), 3)
  {
    hide RouteTree, RouteText, SelectorText, FactorTree, NumberTree;
    var n := |legs| - 1;
    RouteTreeText(legs[n], window);
    if n == 0 {
    } else {
      RoutesTreeText(legs[..n], window);
      assert RouteTexts(legs, window)[..n] == RouteTexts(legs[..n], window);
      MulText(RoutesTree(legs[..n], window), RouteTree(legs[n], window));
    }
  }

  lemma OneMinusMeans(e: Expr, t: Text)
    requires Print(e) == t && FitsAt(e, 0)
    ensures Parse([TNum(1.0), TOp(Sub), LPar] + t + [RPar]) == Done(Bin(Sub, AllLabels, Lit(1.0), Paren(e)), [])
  {
    hide Parse, Print;
    OneMinusText(e, t);
    Means(Bin(Sub, AllLabels, Lit(1.0), Paren(e)), [TNum(1.0), TOp(Sub), LPar] + t + [RPar]);
  }

  lemma Looser(e: Expr, level: nat)
    requires FitsAt(e, level)
    ensures FitsAt(e, 0)
  {
  }

  lemma WeightedMeans(legs: seq<Leg>, window: string)
    requires |legs| > 0 && Nonempty(legs)
    ensures Parse(WeightedText(legs, window)) == Done(WeightedTree(legs, window), [])
  {
    RoutesTreeText(legs, window);
    Looser(RoutesTree(legs, window), 3);
    OneMinusMeans(RoutesTree(legs, window), JoinText(RouteTexts(legs, window), [TOp(Add)]));
  }

  // ----- WEIGHTED_ROUTES: the value -----

  /** Probability that every component of a chain succeeds. */
  function Success(chain: seq<SloInfo>, rates: map<SloInfo, real>): real
    requires forall s | s in chain :: s in rates
  {
    if |chain| == 0 then 1.0 else
      var n := |chain| - 1;
      Success(chain[..n], rates) * (1.0 - rates[chain[n]])
  }

  ghost predicate Covers(rates: map<SloInfo, real>, legs: seq<Leg>) {
    forall i | 0 <= i < |legs| :: forall s | s in legs[i].chain :: s in rates
  }

  /** Weighted success over the routes. */
  function Availability(legs: seq<Leg>, rates: map<SloInfo, real>): real
    requires forall i | 0 <= i < |legs| :: forall s | s in legs[i].chain :: s in rates
  {
    if |legs| == 0 then 0.0 else
      var n := |legs| - 1;
      Availability(legs[..n], rates) + legs[n].weight * Success(legs[n].chain, rates)
  }

  /** Each SLO has exactly one error-rate series for the window, with the given value. */
  ghost predicate RatesIn(rates: map<SloInfo, real>, window: string, st: Store) {
    forall s | s in rates :: SoloOf(SloId(s), st, SliMetric(SloId(s), window), window, rates[s])
  }

  lemma ScalarBin(op: Operator, l: Expr, r: Expr, st: Store, a: real, b: real)
    requires Eval(l, st) == Scalar(a) && Eval(r, st) == Scalar(b) && (op == Mul || op == Add || op == Sub)
    ensures Eval(Bin(op, AllLabels, l, r), st) == Scalar(Arith(op, a, b).value)
    ensures Eval(Bin(op, AllLabels, l, Paren(r)), st) == Scalar(Arith(op, a, b).value)
  {
    assert Eval(Paren(r), st) == Scalar(b);
  }

  lemma FactorValue(s: SloInfo, window: string, st: Store, e: real)
    requires SoloOf(SloId(s), st, SliMetric(SloId(s), window), window, e)
    ensures Eval(FactorTree(s, window), st) == Scalar(1.0 - e)
  {
    var sel := Select(SelectorOf(SloId(s), SliMetric(SloId(s), window)));
    assert Eval(sel, st) == Vec([Sample(BaseLabels(SloId(s), window), e)]);
    assert Eval(Call("scalar", sel), st) == Scalar(e);
    assert Eval(Lit(1.0), st) == Scalar(1.0);
    ScalarBin(Sub, Lit(1.0), Call("scalar", sel), st, 1.0, e);
  }

  /** The factor of every SLO of the chain is worth 1 - e. */
  ghost predicate FactorsWorth(chain: seq<SloInfo>, window: string, rates: map<SloInfo, real>, st: Store) {
    forall s | s in chain :: s in rates && Eval(FactorTree(s, window), st) == Scalar(1.0 - rates[s])
  }

  lemma {:induction false} ChainValue(chain: seq<SloInfo>, window: string, rates: map<SloInfo, real>, st: Store)
    requires |chain| > 0 && FactorsWorth(chain, window, rates, st)
    ensures Eval(ChainTree(chain, window), st) == Scalar(Success(chain, rates))
  {
    hide FactorTree, Eval;
    var n := |chain| - 1;
    assert chain[n] in chain;
    if n == 0 {
      assert Success(chain[..0], rates) == 1.0;
    } else {
      ChainValue(chain[..n], window, rates, st);
      ScalarBin(Mul, ChainTree(chain[..n], window), FactorTree(chain[n], window), st,
                Success(chain[..n], rates), 1.0 - rates[chain[n]]);
    }
  }

  lemma NumberValue(v: real, st: Store)
    ensures Eval(NumberTree(v), st) == Scalar(v)
  {
  }

  lemma RouteValue(leg: Leg, window: string, rates: map<SloInfo, real>, st: Store)
    requires |leg.chain| > 0 && FactorsWorth(leg.chain, window, rates, st)
    ensures Eval(RouteTree(leg, window), st) == Scalar(leg.weight * Success(leg.chain, rates))
  {
    ChainValue(leg.chain, window, rates, st);
    NumberValue(leg.weight, st);
    ScalarBin(Mul, NumberTree(leg.weight), ChainTree(leg.chain, window), st, leg.weight, Success(leg.chain, rates));
  }

  ghost predicate RouteWorth(leg: Leg, window: string, rates: map<SloInfo, real>, st: Store) {
    && |leg.chain| > 0
    && (forall s | s in leg.chain :: s in rates)
    && Eval(RouteTree(leg, window), st) == Scalar(leg.weight * Success(leg.chain, rates))
  }

  lemma RoutesStep(pre: Expr, leg: Leg, window: string, rates: map<SloInfo, real>, st: Store, a: real)
    requires RouteWorth(leg, window, rates, st) && Eval(pre, st) == Scalar(a)
    ensures Eval(Bin(Add, AllLabels, pre, RouteTree(leg, window)), st)
         == Scalar(a + leg.weight * Success(leg.chain, rates))
  {
    ScalarBin(Add, pre, RouteTree(leg, window), st, a, leg.weight * Success(leg.chain, rates));
  }

  lemma FirstRoute(legs: seq<Leg>, window: string, rates: map<SloInfo, real>, st: Store)
    requires |legs| == 1 && RouteWorth(legs[0], window, rates, st)
    ensures Eval(RoutesTree(legs, window), st) == Scalar(Availability(legs, rates))
  {
    hide Eval, RouteTree, Success;
    assert Availability(legs[..0], rates) == 0.0;
  }

  lemma {:induction false} RoutesValue(legs: seq<Leg>, window: string, rates: map<SloInfo, real>, st: Store)
    requires |legs| > 0 && Nonempty(legs) && Covers(rates, legs)
    requires forall i | 0 <= i < |legs| :: RouteWorth(legs[i], window, rates, st)
    ensures Eval(RoutesTree(legs, window), st) == Scalar(Availability(legs, rates))
  {
    hide Eval, RouteTree, Success, RouteWorth;
    var n := |legs| - 1;
    if n == 0 {
      FirstRoute(legs, window, rates, st);
    } else {
      RoutesValue(legs[..n], window, rates, st);
      RoutesStep(RoutesTree(legs[..n], window), legs[n], window, rates, st, Availability(legs[..n], rates));
    }
  }

  lemma ChainFactors(chain: seq<SloInfo>, window: string, rates: map<SloInfo, real>, st: Store)
    requires (forall s | s in chain :: s in rates) && RatesIn(rates, window, st)
    ensures FactorsWorth(chain, window, rates, st)
  {
    forall s | s in chain ensures Eval(FactorTree(s, window), st) == Scalar(1.0 - rates[s]) {
      FactorValue(s, window, st, rates[s]);
    }
  }

  lemma LegWorth(leg: Leg, window: string, rates: map<SloInfo, real>, st: Store)
    requires |leg.chain| > 0 && (forall s | s in leg.chain :: s in rates) && RatesIn(rates, window, st)
    ensures RouteWorth(leg, window, rates, st)
  {
    ChainFactors(leg.chain, window, rates, st);
    RouteValue(leg, window, rates, st);
  }

  lemma OneMinusValue(e: Expr, st: Store, a: real)
    requires Eval(e, st) == Scalar(a)
    ensures Eval(Bin(Sub, AllLabels, Lit(1.0), Paren(e)), st) == Scalar(1.0 - a)
  {
    assert Eval(Lit(1.0), st) == Scalar(1.0);
    ScalarBin(Sub, Lit(1.0), e, st, 1.0, a);
  }

  lemma AllRoutesValue(legs: seq<Leg>, window: string, rates: map<SloInfo, real>, st: Store)
    requires |legs| > 0 && Nonempty(legs) && Covers(rates, legs) && RatesIn(rates, window, st)
    ensures Eval(RoutesTree(legs, window), st) == Scalar(Availability(legs, rates))
  {
    forall i | 0 <= i < |legs| ensures RouteWorth(legs[i], window, rates, st) {
      LegWorth(legs[i], window, rates, st);
    }
    RoutesValue(legs, window, rates, st);
  }

  /**
   The documented formula: the text emitted for a window, parsed under PromQL precedence and
   evaluated with one series per SLO, is 1 - sum_i(w_i * prod_j(1 - e_j)), for every list of
   routes with non-empty chains and every weight.
   */
  lemma WeightedValue(legs: seq<Leg>, window: string, rates: map<SloInfo, real>, st: Store)
    requires |legs| > 0 && Nonempty(legs) && Covers(rates, legs) && RatesIn(rates, window, st)
    ensures TextValue(WeightedText(legs, window), st) == Scalar(1.0 - Availability(legs, rates))
  {
    hide Parse, Eval, WeightedText, RoutesTree, Availability;
    WeightedMeans(legs, window);
    AllRoutesValue(legs, window, rates, st);
    OneMinusValue(RoutesTree(legs, window), st, Availability(legs, rates));
  }

  // ----- WEIGHTED_ROUTES: when there is a value -----

  /** The selector of the SLO answers with one series, as `scalar` needs it. */
  predicate OneSeries(s: SloInfo, window: string, st: Store) {
    |Pick(IdMatchers(SloId(s)), SeriesOf(st, SliMetric(SloId(s), window)))| == 1
  }

  /** A number when `defined`, and otherwise not a number at all. */
  predicate NumberIf(v: Value, defined: bool) {
    if defined then v.Scalar? else v == Fail
  }

  lemma BinDefined(op: Operator, l: Expr, r: Expr, st: Store, p: bool, q: bool)
    requires NumberIf(Eval(l, st), p) && NumberIf(Eval(r, st), q) && (op == Mul || op == Add || op == Sub)
    ensures NumberIf(Eval(Bin(op, AllLabels, l, r), st), p && q)
    ensures NumberIf(Eval(Bin(op, AllLabels, l, Paren(r)), st), p && q)
  {
    assert Eval(Paren(r), st) == Eval(r, st);
  }

  lemma FactorDefined(s: SloInfo, window: string, st: Store)
    ensures NumberIf(Eval(FactorTree(s, window), st), OneSeries(s, window, st))
  {
    var sel := Select(SelectorOf(SloId(s), SliMetric(SloId(s), window)));
    assert NumberIf(Eval(Call("scalar", sel), st), OneSeries(s, window, st));
    assert NumberIf(Eval(Lit(1.0), st), true);
    BinDefined(Sub, Lit(1.0), Call("scalar", sel), st, true, OneSeries(s, window, st));
  }

  predicate ChainSeries(chain: seq<SloInfo>, window: string, st: Store) {
    forall s | s in chain :: OneSeries(s, window, st)
  }

  lemma {:induction false} ChainDefined(chain: seq<SloInfo>, window: string, st: Store)
    requires |chain| > 0
    ensures NumberIf(Eval(ChainTree(chain, window), st), ChainSeries(chain, window, st))
  {
    hide FactorTree, Eval, OneSeries;
    var n := |chain| - 1;
    FactorDefined(chain[n], window, st);
    assert chain == chain[..n] + [chain[n]];
    if n == 0 {
    } else {
      ChainDefined(chain[..n], window, st);
      BinDefined(Mul, ChainTree(chain[..n], window), FactorTree(chain[n], window), st,
                 ChainSeries(chain[..n], window, st), OneSeries(chain[n], window, st));
    }
  }

  lemma RouteDefined(leg: Leg, window: string, st: Store)
    requires |leg.chain| > 0
    ensures NumberIf(Eval(RouteTree(leg, window), st), ChainSeries(leg.chain, window, st))
  {
    hide Eval, ChainTree, ChainSeries, NumberTree;
    ChainDefined(leg.chain, window, st);
    NumberValue(leg.weight, st);
    BinDefined(Mul, NumberTree(leg.weight), ChainTree(leg.chain, window), st, true,
               ChainSeries(leg.chain, window, st));
  }

  predicate AllSeries(legs: seq<Leg>, window: string, st: Store) {
    forall i | 0 <= i < |legs| :: ChainSeries(legs[i].chain, window, st)
  }

  lemma {:induction false} RoutesDefined(legs: seq<Leg>, window: string, st: Store)
    requires |legs| > 0 && Nonempty(legs)
    ensures NumberIf(Eval(RoutesTree(legs, window), st), AllSeries(legs, window, st))
  {
    hide Eval, RouteTree, ChainSeries;
    var n := |legs| - 1;
    RouteDefined(legs[n], window, st);
    if n == 0 {
    } else {
      RoutesDefined(legs[..n], window, st);
      assert AllSeries(legs, window, st) <==>
               AllSeries(legs[..n], window, st) && ChainSeries(legs[n].chain, window, st);
      BinDefined(Add, RoutesTree(legs[..n], window), RouteTree(legs[n], window), st,
                 AllSeries(legs[..n], window, st), ChainSeries(legs[n].chain, window, st));
    }
  }

  /**
   The text is worth a number exactly when every component has one error-rate series in the
   window: one missing component, of whatever route and weight, and the result is not a number.
   */
  lemma WeightedExactly(legs: seq<Leg>, window: string, st: Store)
    requires |legs| > 0 && Nonempty(legs)
    ensures NumberIf(TextValue(WeightedText(legs, window), st), AllSeries(legs, window, st))
  {
    hide Parse, Eval, WeightedText, RoutesTree, AllSeries;
    WeightedMeans(legs, window);
    RoutesDefined(legs, window, st);
    assert Eval(Lit(1.0), st) == Scalar(1.0) by { LiteralValue(1.0, st); }
    BinDefined(Sub, Lit(1.0), RoutesTree(legs, window), st, true, AllSeries(legs, window, st));
  }

  lemma LiteralValue(v: real, st: Store)
    ensures Eval(Lit(v), st) == Scalar(v)
  {
  }

  // ----- WEIGHTED_ROUTES: texts that do not parse -----

  /** A closing parenthesis starts no expression. */
  lemma NothingBefore(rest: Text, level: nat)
    requires level <= TIGHTEST
    ensures ParseAt(level, [RPar] + rest) == Error
    decreases TIGHTEST - level
  {
    if level < TIGHTEST {
      NothingBefore(rest, level + 1);
    }
  }

  /** `w * ()` is no expression. */
  lemma EmptyProduct(w: real, rest: Text)
    ensures ParseAt(4, NumberText(w) + ([TOp(Mul), LPar, RPar] + rest)) == Error
  {
    var after: Text := [TOp(Mul), LPar, RPar] + rest;
    NumberTreeText(w);
    SpineRoundTrip(NumberTree(w), 4, after);
    var operand := after[1..];
    assert operand == [LPar] + ([RPar] + rest) && operand[1..] == [RPar] + rest;
    NothingBefore(rest, 0);
    assert ParsePrimary(operand) == Error;
  }

  /** A failing operand of a sum fails the whole expression. */
  lemma FailingOperand(e: Expr, op: Operator, bad: Text, level: nat)
    requires (op == Add || op == Sub) && level <= 3 && FitsAt(e, 3)
    requires ParseAt(4, bad) == Error && |bad| > 0 && !bad[0].TOn?
    ensures ParseAt(level, Print(e) + ([TOp(op)] + bad)) == Error
    decreases 3 - level
  {
    if level == 3 {
      SpineRoundTrip(e, 3, [TOp(op)] + bad);
      assert ([TOp(op)] + bad)[1..] == bad;
    } else {
      FailingOperand(e, op, bad, level + 1);
    }
  }

  /** Everything before and after the k-th part of a join. */
  lemma {:induction false} JoinAround(parts: seq<Text>, sep: Text, k: nat) returns (after: Text)
    requires k < |parts|
    ensures JoinText(parts, sep) ==
            if k == 0 then parts[0] + after else JoinText(parts[..k], sep) + sep + parts[k] + after
  {
    var n := |parts| - 1;
    if k == n {
      after := [];
      if n > 0 { assert JoinText(parts, sep) == JoinText(parts[..n], sep) + sep + parts[n] + []; }
    } else {
      after := JoinAround(parts[..n], sep, k);
      assert parts[..n][..k] == parts[..k];
      after := after + sep + parts[n];
    }
  }

  lemma {:induction false} RouteTextAt(legs: seq<Leg>, window: string, k: nat)
    requires k < |legs|
    ensures RouteTexts(legs, window)[k] == RouteText(legs[k], window)
    ensures RouteTexts(legs, window)[..k] == RouteTexts(legs[..k], window)
  {
    var n := |legs| - 1;
    assert RouteTexts(legs, window)[..n] == RouteTexts(legs[..n], window);
    if k < n {
      RouteTextAt(legs[..n], window, k);
      assert legs[..n][..k] == legs[..k];
      assert RouteTexts(legs, window)[..k] == RouteTexts(legs, window)[..n][..k];
    }
  }

  lemma EmptyRouteText(leg: Leg, window: string)
    requires |leg.chain| == 0
    ensures RouteText(leg, window) == NumberText(leg.weight) + [TOp(Mul), LPar, RPar]
  {
    assert JoinText(FactorTexts(leg.chain, window), [TOp(Mul)]) == [];
  }

  lemma Regroup(front: Text, sep: Text, part: Text, after: Text, rest: Text)
    ensures front + sep + part + after + rest == front + (sep + (part + after + rest))
  {
  }

  lemma EmptyRouteFails(leg: Leg, window: string, after: Text, rest: Text)
    requires |leg.chain| == 0
    ensures var bad := RouteText(leg, window) + after + rest;
            |bad| > 0 && !bad[0].TOn? && ParseAt(4, bad) == Error
  {
    EmptyRouteText(leg, window);
    EmptyProduct(leg.weight, after + rest);
    assert RouteText(leg, window) + after + rest
        == NumberText(leg.weight) + ([TOp(Mul), LPar, RPar] + (after + rest));
  }

  lemma FailingRoutes(legs: seq<Leg>, window: string, k: nat, rest: Text)
    requires k < |legs| && |legs[k].chain| == 0 && Nonempty(legs[..k])
    ensures ParseAt(0, JoinText(RouteTexts(legs, window), [TOp(Add)]) + rest) == Error
  {
    var parts := RouteTexts(legs, window);
    var after := JoinAround(parts, [TOp(Add)], k);
    RouteTextAt(legs, window, k);
    EmptyRouteFails(legs[k], window, after, rest);
    var bad := parts[k] + after + rest;
    if k == 0 {
      FailingLevels(bad, 0);
    } else {
      RoutesTreeText(legs[..k], window);
      Regroup(JoinText(parts[..k], [TOp(Add)]), [TOp(Add)], parts[k], after, rest);
      FailingOperand(RoutesTree(legs[..k], window), Add, bad, 0);
    }
  }

  lemma FailingLevels(bad: Text, level: nat)
    requires level <= 4 && ParseAt(4, bad) == Error
    ensures ParseAt(level, bad) == Error
    decreases 4 - level
  {
    if level < 4 {
      FailingLevels(bad, level + 1);
    }
  }

  lemma {:induction false} FirstEmpty(legs: seq<Leg>) returns (k: nat)
    requires !Nonempty(legs)
    ensures k < |legs| && |legs[k].chain| == 0 && Nonempty(legs[..k])
  {
    if Nonempty(legs[..|legs| - 1]) {
      k := |legs| - 1;
    } else {
      k := FirstEmpty(legs[..|legs| - 1]);
      assert legs[..|legs| - 1][..k] == legs[..k];
    }
  }

  lemma FailingParenthesis(inner: Text)
    requires ParseAt(0, inner) == Error
    ensures Parse([TNum(1.0), TOp(Sub), LPar] + inner) == Error
  {
    var bad := [LPar] + inner;
    assert bad[1..] == inner;
    assert ParsePrimary(bad) == Error;
    assert Print(Lit(1.0)) + ([TOp(Sub)] + bad) == [TNum(1.0), TOp(Sub), LPar] + inner;
    assert FitsAt(Lit(1.0), 3);
    FailingOperand(Lit(1.0), Sub, bad, 0);
  }

  /**
   The emitted text is PromQL at all exactly when there is a route and no chain is empty. The
   admission check asks for neither: a composition with an empty chain is admitted, and its
   error-rate rules are then rejected by Prometheus.
   */
  lemma WeightedParses(legs: seq<Leg>, window: string)
    ensures Parse(WeightedText(legs, window)).Done? <==> |legs| > 0 && Nonempty(legs)
  {
    var inner := JoinText(RouteTexts(legs, window), [TOp(Add)]) + [RPar];
    assert WeightedText(legs, window) == [TNum(1.0), TOp(Sub), LPar] + inner;
    if |legs| == 0 {
      assert inner == [RPar] + [];
      NothingBefore([], 0);
      FailingParenthesis(inner);
    } else if !Nonempty(legs) {
      var k := FirstEmpty(legs);
      FailingRoutes(legs, window, k, [RPar]);
      FailingParenthesis(inner);
    } else {
      WeightedMeans(legs, window);
    }
  }

  /** An admitted composition whose generated text is not PromQL. */
  lemma AdmittedButUnparsable(slo: SloInfo, window: string)
    ensures var spec := Spec(99.9, "30d", ["a"], WEIGHTED_ROUTES, Some([Route("r", 1.0, [])]), None);
            && Admitted(spec) && Generates(spec, [slo])
            && Parse(WeightedText(LegsOf(spec.routes.value, AliasMap(spec.aliases, [slo])), window)) == Error
  {
    var spec := Spec(99.9, "30d", ["a"], WEIGHTED_ROUTES, Some([Route("r", 1.0, [])]), None);
    AdmittedGenerates(spec, [slo]);
    var legs := LegsOf(spec.routes.value, AliasMap(spec.aliases, [slo]));
    assert |legs[0].chain| == 0;
    WeightedParses(legs, window);
  }
}
