/** What the error-rate rules of a single SLO compute from the counters of its service. */
module SliMeaning {
  import opened Strings
  import opened PromSyntax
  import opened PromEval
  import opened Templates
  import opened RuleGenerator
  import opened RuleMeaning

  // ----- sums -----

  ghost predicate NonNegative(cs: seq<Counter>) {
    forall c, t | c in cs && t in c.increase :: c.increase[t] >= 0.0
  }

  lemma {:induction false} SumPerSecond(s: seq<Sample>, seconds: nat)
    requires seconds > 0
    ensures Sum(PerSecond(s, seconds)) == Sum(s) / seconds as real
    ensures |PerSecond(s, seconds)| == |s|
  {
    if |s| == 0 {
    } else {
      SumPerSecond(s[1..], seconds);
      assert PerSecond(s, seconds)[1..] == PerSecond(s[1..], seconds);
    }
  }

  lemma SumAppend(a: seq<Sample>, b: seq<Sample>)
    requires |a| <= 1
    ensures Sum(a + b) == Sum(a) + Sum(b)
  {
    if |a| == 1 {
      assert (a + b)[1..] == b;
    } else {
      assert a + b == b;
    }
  }

  lemma {:induction false} SumNonNegative(ms: seq<Matcher>, seconds: nat, cs: seq<Counter>)
    requires NonNegative(cs)
    ensures Sum(PickIncreases(ms, seconds, cs)) >= 0.0
  {
    if |cs| == 0 {
    } else {
      SumNonNegative(ms, seconds, cs[1..]);
      var first := if HoldsAll(ms, cs[0].labels) && seconds in cs[0].increase
        then [Sample(cs[0].labels, cs[0].increase[seconds])] else [];
      SumAppend(first, PickIncreases(ms, seconds, cs[1..]));
    }
  }

  /** One more matcher selects a part of the series, and a part of the sum. */
  lemma {:induction false} NarrowerSum(ms: seq<Matcher>, m: Matcher, seconds: nat, cs: seq<Counter>)
    requires NonNegative(cs)
    ensures Sum(PickIncreases(ms + [m], seconds, cs)) <= Sum(PickIncreases(ms, seconds, cs))
    ensures PickIncreases(ms, seconds, cs) == [] ==> PickIncreases(ms + [m], seconds, cs) == []
  {
    if |cs| == 0 {
    } else {
      NarrowerSum(ms, m, seconds, cs[1..]);
      var c := cs[0];
      assert HoldsAll(ms + [m], c.labels) ==> HoldsAll(ms, c.labels) by {
        assert forall x | x in ms :: x in ms + [m];
      }
      var wide := if HoldsAll(ms, c.labels) && seconds in c.increase
        then [Sample(c.labels, c.increase[seconds])] else [];
      var narrow := if HoldsAll(ms + [m], c.labels) && seconds in c.increase
        then [Sample(c.labels, c.increase[seconds])] else [];
      SumAppend(wide, PickIncreases(ms, seconds, cs[1..]));
      SumAppend(narrow, PickIncreases(ms + [m], seconds, cs[1..]));
    }
  }

  /** The order in which a label map was iterated does not change what is selected. */
  lemma {:induction false} OrderIrrelevant(a: seq<Matcher>, b: seq<Matcher>, labels: map<string, string>,
                                           extra: seq<Matcher>, seconds: nat, cs: seq<Counter>)
    requires IterationOf(a, labels) && IterationOf(b, labels)
    ensures PickIncreases(a + extra, seconds, cs) == PickIncreases(b + extra, seconds, cs)
  {
    if |cs| == 0 {
    } else {
      OrderIrrelevant(a, b, labels, extra, seconds, cs[1..]);
      assert forall m | m in a :: m == Matcher(m.name, false, labels[m.name]) && m in b;
      assert forall m | m in b :: m == Matcher(m.name, false, labels[m.name]) && m in a;
    }
  }

  // ----- the standard error rate -----

  function SumRateTree(sel: Selector, window: string): Expr {
    Call("sum", Call("rate", Range(sel, window)))
  }

  function FloorTree(total: Expr): Expr {
    Call2("clamp_min", total, Lit(EPSILON))
  }

  function FilledTree(error: Expr, total: Expr): Expr {
    Paren(Bin(Or, AllLabels, error, Paren(Bin(Mul, AllLabels, total, Lit(0.0)))))
  }

  function SliTree(error: Expr, total: Expr): Expr {
    Bin(Or, AllLabels, Paren(Bin(Div, AllLabels, FilledTree(error, total), FloorTree(total))), Call("absent", total))
  }

  lemma SumRatePrints(sel: Selector, window: string)
    requires WellFormedSelector(sel)
    ensures Print(SumRateTree(sel, window)) == SumRateText(SelectorText(sel), window)
    ensures FitsAt(SumRateTree(sel, window), TIGHTEST)
  {
    assert Print(Range(sel, window)) == SelectorText(sel) + [LBrack, TDur(window), RBrack];
    assert Print(Call("rate", Range(sel, window))) == [TIdent("rate"), LPar] + Print(Range(sel, window)) + [RPar];
    assert FitsAt(Call("rate", Range(sel, window)), 0);
  }

  /** A tree that is no binary operation needs no parentheses anywhere. */
  lemma Tight(e: Expr, level: nat)
    requires !e.Bin? && FitsAt(e, TIGHTEST)
    ensures FitsAt(e, level)
  {
  }

  lemma ZeroText(total: Expr, t: Text)
    requires Print(total) == t && FitsAt(total, TIGHTEST) && !total.Bin?
    ensures var zero := Paren(Bin(Mul, AllLabels, total, Lit(0.0)));
            Print(zero) == [LPar] + t + [TOp(Mul), TNum(0.0), RPar] && FitsAt(zero, 1)
  {
    var zero := Bin(Mul, AllLabels, total, Lit(0.0));
    Tight(total, 4);
    assert FitsAt(Lit(0.0), 5);
    assert Print(zero) == t + [TOp(Mul), TNum(0.0)] && FitsAt(zero, 0);
  }

  lemma OrText(l: Expr, r: Expr)
    requires FitsAt(l, 0) && FitsAt(r, 1)
    ensures Print(Paren(Bin(Or, AllLabels, l, r))) == [LPar] + Print(l) + [TOp(Or)] + Print(r) + [RPar]
    ensures FitsAt(Paren(Bin(Or, AllLabels, l, r)), TIGHTEST)
  {
    assert Print(Bin(Or, AllLabels, l, r)) == Print(l) + [TOp(Or)] + [] + Print(r);
  }

  lemma FilledText(error: Expr, total: Expr, e: Text, t: Text)
    requires Print(error) == e && Print(total) == t && FitsAt(error, TIGHTEST) && FitsAt(total, TIGHTEST)
    requires !error.Bin? && !total.Bin?
    ensures Print(FilledTree(error, total)) == [LPar] + e + [TOp(Or), LPar] + t + [TOp(Mul), TNum(0.0), RPar, RPar]
    ensures FitsAt(FilledTree(error, total), TIGHTEST)
  {
    ZeroText(total, t);
    Tight(error, 0);
    var zero := Paren(Bin(Mul, AllLabels, total, Lit(0.0)));
    hide Print;
    OrText(error, zero);
  }

  lemma FloorText(total: Expr, t: Text)
    requires Print(total) == t && FitsAt(total, TIGHTEST) && !total.Bin?
    ensures Print(FloorTree(total)) == [TIdent("clamp_min"), LPar] + t + [Comma, TNum(EPSILON), RPar]
    ensures FitsAt(FloorTree(total), TIGHTEST)
  {
    Tight(total, 0);
    assert Print(Lit(EPSILON)) == [TNum(EPSILON)] && FitsAt(Lit(EPSILON), 0);
  }

  lemma RatioText(l: Expr, r: Expr)
    requires FitsAt(l, TIGHTEST) && FitsAt(r, TIGHTEST) && !l.Bin? && !r.Bin?
    ensures var e := Paren(Bin(Div, AllLabels, l, r));
            Print(e) == [LPar] + (Print(l) + [TOp(Div)] + Print(r)) + [RPar] && FitsAt(e, 0)
  {
    Tight(l, 4);
    Tight(r, 5);
    var ratio := Bin(Div, AllLabels, l, r);
    assert Print(ratio) == Print(l) + [TOp(Div)] + [] + Print(r);
    assert FitsAt(ratio, 0);
  }

  lemma SliTreePrints(error: Expr, total: Expr, e: Text, t: Text)
    requires Print(error) == e && Print(total) == t && FitsAt(error, TIGHTEST) && FitsAt(total, TIGHTEST)
    requires !error.Bin? && !total.Bin?
    ensures Print(SliTree(error, total)) ==
            [LPar] + ([LPar] + e + [TOp(Or), LPar] + t + [TOp(Mul), TNum(0.0), RPar, RPar] + [TOp(Div)]
            + ([TIdent("clamp_min"), LPar] + t + [Comma, TNum(EPSILON), RPar])) + [RPar]
            + [TOp(Or)] + ([TIdent("absent"), LPar] + t + [RPar])
    ensures FitsAt(SliTree(error, total), 0)
  {
    hide Print, FitsAt;
    FilledText(error, total, e, t);
    FloorText(total, t);
    RatioText(FilledTree(error, total), FloorTree(total));
    AbsentText(total, t);
    EitherText(Paren(Bin(Div, AllLabels, FilledTree(error, total), FloorTree(total))), Call("absent", total));
  }

  lemma AbsentText(total: Expr, t: Text)
    requires Print(total) == t && FitsAt(total, TIGHTEST) && !total.Bin?
    ensures Print(Call("absent", total)) == [TIdent("absent"), LPar] + t + [RPar] && FitsAt(Call("absent", total), 1)
  {
    Tight(total, 0);
  }

  lemma EitherText(l: Expr, r: Expr)
    requires FitsAt(l, 0) && FitsAt(r, 1)
    ensures Print(Bin(Or, AllLabels, l, r)) == Print(l) + [TOp(Or)] + Print(r) && FitsAt(Bin(Or, AllLabels, l, r), 0)
  {
    assert Print(Bin(Or, AllLabels, l, r)) == Print(l) + [TOp(Or)] + [] + Print(r);
  }

  /** Only the grouping of the concatenation differs. */
  lemma SliTextFlat(e: Text, t: Text)
    ensures [LPar] + ([LPar] + e + [TOp(Or), LPar] + t + [TOp(Mul), TNum(0.0), RPar, RPar] + [TOp(Div)]
            + ([TIdent("clamp_min"), LPar] + t + [Comma, TNum(EPSILON), RPar])) + [RPar]
            + [TOp(Or)] + ([TIdent("absent"), LPar] + t + [RPar])
         == [LPar, LPar] + e
            + [TOp(Or), LPar] + t + [TOp(Mul), TNum(0.0), RPar, RPar, TOp(Div)]
            + [TIdent("clamp_min"), LPar] + t + [Comma, TNum(EPSILON), RPar, RPar]
            + [TOp(Or), TIdent("absent"), LPar] + t + [RPar]
  {
  }

  lemma SliMeans(es: Selector, ts: Selector, window: string)
    requires WellFormedSelector(es) && WellFormedSelector(ts)
    ensures Parse(SliErrorRateText(SelectorText(es), SelectorText(ts), window))
         == Done(SliTree(SumRateTree(es, window), SumRateTree(ts, window)), [])
  {
    SumRatePrints(es, window);
    SumRatePrints(ts, window);
    SliTreePrints(SumRateTree(es, window), SumRateTree(ts, window),
             SumRateText(SelectorText(es), window), SumRateText(SelectorText(ts), window));
    SliTextFlat(SumRateText(SelectorText(es), window), SumRateText(SelectorText(ts), window));
    Means(SliTree(SumRateTree(es, window), SumRateTree(ts, window)),
          SliErrorRateText(SelectorText(es), SelectorText(ts), window));
  }

  function Increases(sel: Selector, window: string, st: Store): seq<Sample> {
    PickIncreases(sel.matchers, Seconds(window), CountersOf(st, sel.metric))
  }

  /** A one-element vector without labels, or the empty vector. */
  function OneOrNone(present: bool, v: real): Value {
    Vec(if present then [Sample(map[], v)] else [])
  }

  lemma SumRateValue(sel: Selector, window: string, st: Store)
    requires Seconds(window) > 0
    ensures Eval(SumRateTree(sel, window), st) ==
            OneOrNone(Increases(sel, window, st) != [], Sum(Increases(sel, window, st)) / Seconds(window) as real)
  {
    var s := Increases(sel, window, st);
    SumPerSecond(s, Seconds(window));
    assert Eval(Range(sel, window), st) == Mat(s, Seconds(window));
    assert Eval(Call("rate", Range(sel, window)), st) == Vec(PerSecond(s, Seconds(window)));
  }

  lemma UnitArith(op: Operator, present: bool, v: real, r: real)
    requires Arith(op, v, r).Some? && op != Gt && op != And && op != Or
    ensures BinValue(op, AllLabels, OneOrNone(present, v), Scalar(r)) == OneOrNone(present, Arith(op, v, r).value)
  {
    var x := Sample(map[], v);
    assert WithScalar(op, [x][1..], r) == Some([]);
  }

  lemma UnitDivide(p: bool, a: real, q: bool, b: real)
    requires b != 0.0
    ensures BinValue(Div, AllLabels, OneOrNone(p, a), OneOrNone(q, b)) == OneOrNone(p && q, a / b)
  {
    var x, y := Sample(map[], a), Sample(map[], b);
    assert y in [y] && HasPartner(AllLabels, x, [y]) && !HasPartner(AllLabels, x, []);
    assert Pairs(Div, AllLabels, [x][1..], [y]) == Some([]) && Pairs(Div, AllLabels, [x][1..], []) == Some([]);
  }

  lemma UnitOr(p: bool, a: real, q: bool, b: real)
    ensures BinValue(Or, AllLabels, OneOrNone(p, a), OneOrNone(q, b)) == OneOrNone(p || q, if p then a else b)
  {
    var x, y := Sample(map[], a), Sample(map[], b);
    assert x in [x] && HasPartner(AllLabels, y, [x]) && !HasPartner(AllLabels, y, []);
    assert Keep(AllLabels, [y][1..], [x], false) == [] && Keep(AllLabels, [y][1..], [], false) == [];
  }

  lemma UnitClamp(p: bool, a: real, low: real)
    ensures Call2Value("clamp_min", OneOrNone(p, a), Scalar(low)) == OneOrNone(p, Max(a, low))
  {
    var x := Sample(map[], a);
    assert ClampMin([x][1..], low) == [];
  }

  /** Error rate from the failed and the total increase over a window: 1 without traffic data, 0 without errors. */
  function ErrorRate(failed: seq<Sample>, total: seq<Sample>, seconds: nat): real
    requires seconds > 0
  {
    if total == [] then 1.0
    else (if failed == [] then 0.0 else Sum(failed) / seconds as real) / Max(Sum(total) / seconds as real, EPSILON)
  }

  lemma FilledValue(error: Expr, total: Expr, st: Store, p: bool, a: real, q: bool, b: real)
    requires Eval(error, st) == OneOrNone(p, a) && Eval(total, st) == OneOrNone(q, b)
    ensures Eval(FilledTree(error, total), st) == OneOrNone(p || q, if p then a else 0.0)
  {
    hide OneOrNone, BinValue;
    var zero := Bin(Mul, AllLabels, total, Lit(0.0));
    UnitArith(Mul, q, b, 0.0);
    assert b * 0.0 == 0.0;
    assert Eval(zero, st) == OneOrNone(q, 0.0);
    UnitOr(p, a, q, 0.0);
    assert Eval(Paren(zero), st) == OneOrNone(q, 0.0);
  }

  lemma FloorValue(total: Expr, st: Store, q: bool, b: real)
    requires Eval(total, st) == OneOrNone(q, b)
    ensures Eval(FloorTree(total), st) == OneOrNone(q, Max(b, EPSILON))
  {
    UnitClamp(q, b, EPSILON);
  }

  lemma QuotientValue(l: Expr, r: Expr, st: Store, p: bool, a: real, q: bool, b: real)
    requires Eval(l, st) == OneOrNone(p, a) && Eval(r, st) == OneOrNone(q, b) && b != 0.0
    ensures Eval(Paren(Bin(Div, AllLabels, l, r)), st) == OneOrNone(p && q, a / b)
  {
    hide OneOrNone, BinValue;
    UnitDivide(p, a, q, b);
    assert Eval(Bin(Div, AllLabels, l, r), st) == OneOrNone(p && q, a / b);
  }

  lemma AbsentValue(total: Expr, st: Store, q: bool, b: real)
    requires Eval(total, st) == OneOrNone(q, b)
    ensures Eval(Call("absent", total), st) == OneOrNone(!q, 1.0)
  {
  }

  lemma SliTreeValue(error: Expr, total: Expr, st: Store, p: bool, a: real, q: bool, b: real)
    requires Eval(error, st) == OneOrNone(p, a) && Eval(total, st) == OneOrNone(q, b)
    ensures Eval(SliTree(error, total), st)
         == Vec([Sample(map[], if !q then 1.0 else (if p then a else 0.0) / Max(b, EPSILON))])
  {
    var rate := (if p then a else 0.0) / Max(b, EPSILON);
    assert OneOrNone(q || !q, if q then rate else 1.0) == Vec([Sample(map[], if q then rate else 1.0)]);
    hide OneOrNone, BinValue, FilledTree, FloorTree, Max;
    FilledValue(error, total, st, p, a, q, b);
    FloorValue(total, st, q, b);
    FloorPositive(b);
    QuotientValue(FilledTree(error, total), FloorTree(total), st, p || q, if p then a else 0.0, q, Max(b, EPSILON));
    AbsentValue(total, st, q, b);
    UnitOr(q, rate, !q, 1.0);
  }

  lemma FloorPositive(b: real)
    ensures Max(b, EPSILON) >= EPSILON
  {
  }

  /** The emitted expression always yields exactly one value, whatever series exist. */
  lemma SliWorth(es: Selector, ts: Selector, window: string, st: Store)
    requires WellFormedSelector(es) && WellFormedSelector(ts) && Seconds(window) > 0
    ensures Worth(SliErrorRateText(SelectorText(es), SelectorText(ts), window), st,
                  ErrorRate(Increases(es, window, st), Increases(ts, window, st), Seconds(window)))
  {
    hide Parse, SliErrorRateText, Increases, ErrorRate;
    SliValue(es, ts, window, st);
  }

  lemma SliValue(es: Selector, ts: Selector, window: string, st: Store)
    requires WellFormedSelector(es) && WellFormedSelector(ts) && Seconds(window) > 0
    ensures TextValue(SliErrorRateText(SelectorText(es), SelectorText(ts), window), st) == Vec([Sample(map[],
              ErrorRate(Increases(es, window, st), Increases(ts, window, st), Seconds(window)))])
  {
    SliMeans(es, ts, window);
    SumRateValue(es, window, st);
    SumRateValue(ts, window, st);
    var e, t := Increases(es, window, st), Increases(ts, window, st);
    SliTreeValue(SumRateTree(es, window), SumRateTree(ts, window), st,
                 e != [], Sum(e) / Seconds(window) as real, t != [], Sum(t) / Seconds(window) as real);
  }

  /** The error rate of a template that selects failures by one more matcher than the total. */
  function TemplateRate(metric: string, ms: seq<Matcher>, failed: Matcher, window: string, st: Store): real
    requires Seconds(window) > 0
  {
    ErrorRate(Increases(SelectorFor(metric, ms + [failed]), window, st),
              Increases(SelectorFor(metric, ms), window, st), Seconds(window))
  }

  lemma DivideMonotone(a: real, b: real, n: real)
    requires 0.0 <= a <= b && n > 0.0
    ensures 0.0 <= a / n <= b / n
  {
  }

  lemma DivideBounds(a: real, b: real, low: real)
    requires 0.0 <= a <= b && low > 0.0
    ensures 0.0 <= a / Max(b, low) <= 1.0
  {
  }

  lemma ErrorRateBounds(failed: seq<Sample>, total: seq<Sample>, seconds: nat)
    requires seconds > 0 && 0.0 <= Sum(failed) <= Sum(total)
    ensures 0.0 <= ErrorRate(failed, total, seconds) <= 1.0
    ensures total != [] && Sum(failed) == 0.0 ==> ErrorRate(failed, total, seconds) == 0.0
  {
    var n := seconds as real;
    DivideMonotone(Sum(failed), Sum(total), n);
    DivideBounds(Sum(failed) / n, Sum(total) / n, EPSILON);
  }

  lemma TemplateWorth(metric: string, order: seq<Matcher>, failed: Matcher, window: string, st: Store)
    requires Seconds(window) > 0
    ensures Worth(SliText(StandardQueries(metric, order, failed), window), st,
                  TemplateRate(metric, order, failed, window, st))
  {
    SliWorth(SelectorFor(metric, order + [failed]), SelectorFor(metric, order), window, st);
  }

  /**
   http-availability and kubernetes-apiserver, for every label map in every iteration order and
   all non-negative counters: one value in [0, 1], which is 1 when the total is absent and 0
   when there are no failures or no traffic.
   */
  lemma TemplateMeaning(metric: string, labels: map<string, string>, order: seq<Matcher>, failed: Matcher,
                        window: string, st: Store)
    requires IterationOf(order, labels) && Seconds(window) > 0
    requires NonNegative(CountersOf(st, metric))
    ensures var q := StandardQueries(metric, order, failed); var v := TemplateRate(metric, order, failed, window, st);
            && Worth(SliText(q, window), st, v)
            && 0.0 <= v <= 1.0
            && (Increases(SelectorFor(metric, order), window, st) == [] ==> v == 1.0)
            && (Increases(SelectorFor(metric, order), window, st) != [] ==>
                  Sum(Increases(SelectorFor(metric, order + [failed]), window, st)) == 0.0 ==> v == 0.0)
  {
    TemplateWorth(metric, order, failed, window, st);
    NarrowerSum(order, failed, Seconds(window), CountersOf(st, metric));
    SumNonNegative(order + [failed], Seconds(window), CountersOf(st, metric));
    ErrorRateBounds(Increases(SelectorFor(metric, order + [failed]), window, st),
                    Increases(SelectorFor(metric, order), window, st), Seconds(window));
  }

  /** Two iteration orders of one label map give one and the same error rate. */
  lemma TemplateOrderIrrelevant(metric: string, labels: map<string, string>, a: seq<Matcher>, b: seq<Matcher>,
                                failed: Matcher, window: string, st: Store)
    requires IterationOf(a, labels) && IterationOf(b, labels) && Seconds(window) > 0
    ensures TemplateRate(metric, a, failed, window, st) == TemplateRate(metric, b, failed, window, st)
  {
    OrderIrrelevant(a, b, labels, [failed], Seconds(window), CountersOf(st, metric));
    OrderIrrelevant(a, b, labels, [], Seconds(window), CountersOf(st, metric));
    assert a + [] == a && b + [] == b;
  }
}
