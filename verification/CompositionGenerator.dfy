/** Compilation of a composition of SLOs, and the admission check of its specification. */
module CompositionGenerator {
  import opened Strings
  import opened PromSyntax
  import opened PromEval
  import opened Templates
  import opened RuleGenerator

  const AND_MIN := "AND_MIN"
  const WEIGHTED_ROUTES := "WEIGHTED_ROUTES"

  // ----- aliases -----

  /** Component alias to SLO: the i-th objective names the i-th fetched SLO, and a later one overwrites. */
  function AliasMap(aliases: seq<string>, slos: seq<SloInfo>): map<string, SloInfo> {
    if |aliases| == 0 then map[] else
      var n := |aliases| - 1;
      var m := AliasMap(aliases[..n], slos);
      if n < |slos| then m[aliases[n] := slos[n]] else m
  }

  predicate Known(chain: seq<string>, m: map<string, SloInfo>) {
    forall i | 0 <= i < |chain| :: chain[i] in m
  }

  predicate AllKnown(routes: seq<Route>, m: map<string, SloInfo>) {
    forall i | 0 <= i < |routes| :: Known(routes[i].chain, m)
  }

  function ChainOf(chain: seq<string>, m: map<string, SloInfo>): (slos: seq<SloInfo>)
    requires Known(chain, m)
    ensures |slos| == |chain| && forall i | 0 <= i < |chain| :: slos[i] == m[chain[i]]
  {
    if |chain| == 0 then [] else ChainOf(chain[..|chain| - 1], m) + [m[chain[|chain| - 1]]]
  }

  function LegsOf(routes: seq<Route>, m: map<string, SloInfo>): (legs: seq<Leg>)
    requires AllKnown(routes, m)
    ensures |legs| == |routes|
    ensures forall i | 0 <= i < |legs| :: legs[i] == Leg(routes[i].weight, ChainOf(routes[i].chain, m))
  {
    if |routes| == 0 then [] else
      var n := |routes| - 1;
      LegsOf(routes[..n], m) + [Leg(routes[n].weight, ChainOf(routes[n].chain, m))]
  }

  // ----- the texts per window -----

  function ObjectiveIds(slos: seq<SloInfo>): (ids: seq<string>)
    ensures |ids| == |slos| && forall i | 0 <= i < |ids| :: ids[i] == ObjectiveId(slos[i])
  {
    if |slos| == 0 then [] else ObjectiveIds(slos[..|slos| - 1]) + [ObjectiveId(slos[|slos| - 1])]
  }

  function AndMinTexts(ids: seq<string>, windows: seq<string>): (ts: seq<Text>)
    ensures |ts| == |windows| && forall i | 0 <= i < |ts| :: ts[i] == AndMinText(ids, windows[i])
  {
    if |windows| == 0 then [] else
      AndMinTexts(ids, windows[..|windows| - 1]) + [AndMinText(ids, windows[|windows| - 1])]
  }

  function WeightedTexts(legs: seq<Leg>, windows: seq<string>): (ts: seq<Text>)
    ensures |ts| == |windows| && forall i | 0 <= i < |ts| :: ts[i] == WeightedText(legs, windows[i])
  {
    seq(|windows|, i requires 0 <= i < |windows| => WeightedText(legs, windows[i]))
  }

  predicate Generates(spec: Spec, slos: seq<SloInfo>) {
    || spec.kind == AND_MIN
    || (spec.kind == WEIGHTED_ROUTES && spec.routes.Some?
        && AllKnown(spec.routes.value, AliasMap(spec.aliases, slos)))
  }

  function CompositionTexts(spec: Spec, slos: seq<SloInfo>, windows: seq<string>): (ts: seq<Text>)
    requires Generates(spec, slos)
    ensures |ts| == |windows|
  {
    if spec.kind == AND_MIN then AndMinTexts(ObjectiveIds(slos), windows)
    else WeightedTexts(LegsOf(spec.routes.value, AliasMap(spec.aliases, slos)), windows)
  }

  function CompositionRule(name: string, namespace: string, spec: Spec, slos: seq<SloInfo>): PrometheusRule
    requires Generates(spec, slos)
  {
    var id := CompositionId(name, namespace);
    var group := "slok-" + name + "-aggregated";
    var texts := CompositionTexts(spec, slos, RECORDING_WINDOWS);
    PrometheusRule(
      "slok-" + name + "-" + namespace + "-aggregated", namespace,
      map["release" := "prometheus", "slok.io/slo_composition" := name],
      [RuleGroup(group, RecordingRules(id, RECORDING_WINDOWS, texts, spec.target))]
      + if AlertsEnabled(spec.burnRateAlerts)
        then [RuleGroup(group + "-burnRateAlerts", AlertRules(id, DEFAULT_PRESETS, spec.window))] else [])
  }

  function MissingAlias(alias: string): string {
    "component alias " + alias + " not found in objectives"
  }

  // ----- the generator -----

  method BuildAliasMap(aliases: seq<string>, slos: seq<SloInfo>) returns (m: map<string, SloInfo>)
    ensures m == AliasMap(aliases, slos)
  {
    m := map[];
    for i := 0 to |aliases|
      invariant m == AliasMap(aliases[..i], slos)
    {
      assert aliases[..i + 1][..i] == aliases[..i];
      if i < |slos| {
        m := m[aliases[i] := slos[i]];
      }
    }
    assert aliases[..|aliases|] == aliases;
  }

  /** The error names an alias that some chain uses and the map lacks. */
  ghost predicate Blames(error: string, routes: seq<Route>, m: map<string, SloInfo>) {
    exists i, alias :: 0 <= i < |routes| && alias in routes[i].chain && alias !in m && error == MissingAlias(alias)
  }

  lemma FactorTextsSnoc(chain: seq<string>, m: map<string, SloInfo>, i: nat, window: string)
    requires i < |chain| && Known(chain[..i], m) && chain[i] in m
    ensures Known(chain[..i + 1], m)
    ensures FactorTexts(ChainOf(chain[..i + 1], m), window)
         == FactorTexts(ChainOf(chain[..i], m), window) + [FactorText(m[chain[i]], window)]
  {
    assert chain[..i + 1][..i] == chain[..i];
    assert ChainOf(chain[..i + 1], m)[..i] == ChainOf(chain[..i], m);
  }

  lemma RouteTextsSnoc(routes: seq<Route>, m: map<string, SloInfo>, i: nat, window: string)
    requires i < |routes| && AllKnown(routes[..i], m) && Known(routes[i].chain, m)
    ensures AllKnown(routes[..i + 1], m)
    ensures RouteTexts(LegsOf(routes[..i + 1], m), window)
         == RouteTexts(LegsOf(routes[..i], m), window)
            + [RouteText(Leg(routes[i].weight, ChainOf(routes[i].chain, m)), window)]
  {
    hide RouteText, ChainOf, Known;
    assert routes[..i + 1][..i] == routes[..i];
    assert LegsOf(routes[..i + 1], m)[..i] == LegsOf(routes[..i], m);
  }

  lemma SliRulesSnoc(id: Identity, windows: seq<string>, texts: seq<Text>, i: nat)
    requires |texts| == |windows| && i < |windows|
    ensures SliRules(id, windows[..i + 1], texts[..i + 1])
         == SliRules(id, windows[..i], texts[..i]) + [SliRule(id, windows[i], texts[i])]
  {
    assert windows[..i + 1][..i] == windows[..i] && texts[..i + 1][..i] == texts[..i];
  }

  method RouteExpr(route: Route, m: map<string, SloInfo>, window: string) returns (r: Result<Text>)
    ensures r.Ok? <==> Known(route.chain, m)
    ensures r.Ok? ==> r.value == RouteText(Leg(route.weight, ChainOf(route.chain, m)), window)
    ensures r.Err? ==> exists alias :: alias in route.chain && alias !in m && r.error == MissingAlias(alias)
  {
    var chainParts: seq<Text> := [];
    var chain := route.chain;
    assert FactorTexts(ChainOf(chain[..0], m), window) == [];
    hide FactorTexts, FactorText, ChainOf, JoinText;
    for i := 0 to |chain|
      invariant Known(chain[..i], m) && chainParts == FactorTexts(ChainOf(chain[..i], m), window)
    {
      if chain[i] !in m {
        return Err(MissingAlias(chain[i]));
      }
      FactorTextsSnoc(chain, m, i, window);
      chainParts := chainParts + [FactorText(m[chain[i]], window)];
    }
    assert chain[..|chain|] == chain;
    r := Ok(NumberText(route.weight) + [TOp(Mul), LPar] + JoinText(chainParts, [TOp(Mul)]) + [RPar]);
  }

  method WeightedExpr(routes: seq<Route>, m: map<string, SloInfo>, window: string) returns (r: Result<Text>)
    ensures r.Ok? <==> AllKnown(routes, m)
    ensures r.Ok? ==> r.value == WeightedText(LegsOf(routes, m), window)
    ensures r.Err? ==> Blames(r.error, routes, m)
  {
    hide RouteText, Known, JoinText;
    var routeExprs: seq<Text> := [];
    for i := 0 to |routes|
      invariant AllKnown(routes[..i], m) && routeExprs == RouteTexts(LegsOf(routes[..i], m), window)
    {
      var expr := RouteExpr(routes[i], m, window);
      if expr.Err? {
        return Err(expr.error);
      }
      RouteTextsSnoc(routes, m, i, window);
      routeExprs := routeExprs + [expr.value];
    }
    assert routes[..|routes|] == routes;
    r := Ok([TNum(1.0), TOp(Sub), LPar] + JoinText(routeExprs, [TOp(Add)]) + [RPar]);
  }

  method WeightedRules(id: Identity, routes: seq<Route>, m: map<string, SloInfo>, windows: seq<string>)
    returns (r: Result<seq<Rule>>)
    requires |windows| > 0
    ensures r.Ok? <==> AllKnown(routes, m)
    ensures r.Ok? ==> r.value == SliRules(id, windows, WeightedTexts(LegsOf(routes, m), windows))
    ensures r.Err? ==> Blames(r.error, routes, m)
  {
    var rules: seq<Rule> := [];
    ghost var texts := if AllKnown(routes, m) then WeightedTexts(LegsOf(routes, m), windows) else seq(|windows|, _ => []);
    for i := 0 to |windows|
      invariant i > 0 ==> AllKnown(routes, m)
      invariant rules == SliRules(id, windows[..i], texts[..i])
    {
      var expr := WeightedExpr(routes, m, windows[i]);
      if expr.Err? {
        return Err(expr.error);
      }
      SliRulesSnoc(id, windows, texts, i);
      rules := rules + [SliRule(id, windows[i], expr.value)];
    }
    assert windows[..|windows|] == windows && texts[..|windows|] == texts;
    r := Ok(rules);
  }

  method AndMinRules(id: Identity, slos: seq<SloInfo>, windows: seq<string>) returns (rules: seq<Rule>)
    ensures rules == SliRules(id, windows, AndMinTexts(ObjectiveIds(slos), windows))
  {
    var ids: seq<string> := [];
    for i := 0 to |slos|
      invariant ids == ObjectiveIds(slos[..i])
    {
      assert slos[..i + 1][..i] == slos[..i];
      ids := ids + [ObjectiveId(slos[i])];
    }
    assert slos[..|slos|] == slos;
    rules := [];
    for i := 0 to |windows|
      invariant rules == SliRules(id, windows[..i], AndMinTexts(ids, windows[..i]))
    {
      assert windows[..i + 1][..i] == windows[..i];
      assert AndMinTexts(ids, windows[..i + 1])[..i] == AndMinTexts(ids, windows[..i]);
      rules := rules + [SliRule(id, windows[i], AndMinText(ids, windows[i]))];
    }
    assert windows[..|windows|] == windows;
  }

  method ErrorRateRules(id: Identity, spec: Spec, slos: seq<SloInfo>, windows: seq<string>) returns (r: Result<seq<Rule>>)
    requires |windows| > 0
    ensures r.Ok? <==> Generates(spec, slos)
    ensures r.Ok? ==> r.value == SliRules(id, windows, CompositionTexts(spec, slos, windows))
    ensures r.Err? && spec.kind == WEIGHTED_ROUTES && spec.routes.Some? ==>
              Blames(r.error, spec.routes.value, AliasMap(spec.aliases, slos))
  {
    if spec.kind == AND_MIN {
      var rules := AndMinRules(id, slos, windows);
      r := Ok(rules);
    } else if spec.kind == WEIGHTED_ROUTES {
      var m := BuildAliasMap(spec.aliases, slos);
      if spec.routes.None? {
        return Err("params is required for WEIGHTED_ROUTES composition");
      }
      r := WeightedRules(id, spec.routes.value, m, windows);
    } else {
      r := Err("unsupported composition type: " + spec.kind);
    }
  }

  method CreateAggregatedPrometheusRule(name: string, namespace: string, spec: Spec, slos: seq<SloInfo>)
    returns (r: Result<PrometheusRule>)
    ensures r.Ok? <==> Generates(spec, slos)
    ensures r.Ok? ==> r.value == CompositionRule(name, namespace, spec, slos)
    ensures r.Err? && spec.kind == WEIGHTED_ROUTES && spec.routes.Some? ==>
              Blames(r.error, spec.routes.value, AliasMap(spec.aliases, slos))
  {
    hide SliRules, BurnRules, PresetRules, AlertRules, ObjectiveRule, BudgetRule, CompositionTexts;
    var id := CompositionId(name, namespace);
    var group := "slok-" + name + "-aggregated";
    var sli := ErrorRateRules(id, spec, slos, RECORDING_WINDOWS);
    if sli.Err? {
      return Err(sli.error);
    }
    var rules := sli.value + [ObjectiveRule(id, spec.target), BudgetRule(id, spec.target)];
    rules := AppendBurnRates(id, RECORDING_WINDOWS, rules);
    var groups := [RuleGroup(group, rules)];
    if AlertsEnabled(spec.burnRateAlerts) {
      var alerts := AlertGroup(id, DEFAULT_PRESETS, spec.window);
      groups := groups + [RuleGroup(group + "-burnRateAlerts", alerts)];
    }
    r := Ok(PrometheusRule(
      "slok-" + name + "-" + namespace + "-aggregated", namespace,
      map["release" := "prometheus", "slok.io/slo_composition" := name],
      groups));
  }

  // ----- the admission check -----

  predicate DistinctNames(routes: seq<Route>) {
    forall i, j | 0 <= i < j < |routes| :: routes[i].name != routes[j].name
  }

  predicate AliasesDeclared(routes: seq<Route>, aliases: seq<string>) {
    forall i | 0 <= i < |routes| :: forall j | 0 <= j < |routes[i].chain| :: routes[i].chain[j] in aliases
  }

  predicate Admitted(spec: Spec) {
    spec.kind == WEIGHTED_ROUTES && spec.routes.Some? ==>
      DistinctNames(spec.routes.value) && AliasesDeclared(spec.routes.value, spec.aliases)
  }

  lemma AdmittedExactly(spec: Spec)
    ensures Admitted(spec) <==> spec.kind == "WEIGHTED_ROUTES" && spec.routes.Some? ==>
              && (forall i, j | 0 <= i < j < |spec.routes.value| ::
                    spec.routes.value[i].name != spec.routes.value[j].name)
              && forall i | 0 <= i < |spec.routes.value| ::
                   forall alias | alias in spec.routes.value[i].chain :: alias in spec.aliases
  {
  }

  method ValidateSLOComposition(spec: Spec) returns (error: Option<string>)
    ensures error.None? <==> Admitted(spec)
    ensures error.None? <==> spec.kind == "WEIGHTED_ROUTES" && spec.routes.Some? ==>
              && (forall i, j | 0 <= i < j < |spec.routes.value| ::
                    spec.routes.value[i].name != spec.routes.value[j].name)
              && forall i | 0 <= i < |spec.routes.value| ::
                   forall alias | alias in spec.routes.value[i].chain :: alias in spec.aliases
  {
    AdmittedExactly(spec);
    if spec.kind != WEIGHTED_ROUTES {
      return None;
    }
    if spec.routes.None? {
      return None;
    }
    var routes := spec.routes.value;
    var routeNames: set<string> := {};
    for i := 0 to |routes|
      invariant DistinctNames(routes[..i])
      invariant forall x :: x in routeNames <==> exists j | 0 <= j < i :: routes[j].name == x
    {
      if routes[i].name in routeNames {
        return Some("duplicate route name " + routes[i].name);
      }
      routeNames := routeNames + {routes[i].name};
    }
    assert routes[..|routes|] == routes;
    var objectiveAliases: set<string> := {};
    for i := 0 to |spec.aliases|
      invariant forall x :: x in objectiveAliases <==> x in spec.aliases[..i]
    {
      objectiveAliases := objectiveAliases + {spec.aliases[i]};
    }
    assert spec.aliases[..|spec.aliases|] == spec.aliases;
    for i := 0 to |routes|
      invariant AliasesDeclared(routes[..i], spec.aliases)
    {
      var chain := routes[i].chain;
      for j := 0 to |chain|
        invariant forall k | 0 <= k < j :: chain[k] in spec.aliases
      {
        if chain[j] !in objectiveAliases {
          return Some("route " + routes[i].name + " references unknown alias " + chain[j]);
        }
      }
    }
    return None;
  }

  // ----- admission against generation -----

  /** Every alias resolves to the SLO of the last objective that carries the name. */
  lemma AliasMeaning(aliases: seq<string>, slos: seq<SloInfo>, alias: string)
    requires |aliases| == |slos|
    ensures alias in AliasMap(aliases, slos) <==> alias in aliases
    ensures forall i | 0 <= i < |aliases| && aliases[i] == alias && alias !in aliases[i + 1..] ::
              alias in AliasMap(aliases, slos) && AliasMap(aliases, slos)[alias] == slos[i]
  {
    hide AliasMap;
    AliasKnown(aliases, slos, alias);
    forall i | 0 <= i < |aliases| && aliases[i] == alias && alias !in aliases[i + 1..]
      ensures alias in AliasMap(aliases, slos) && AliasMap(aliases, slos)[alias] == slos[i]
    {
      LastAlias(aliases, slos, i);
    }
  }

  lemma {:induction false} AliasKnown(aliases: seq<string>, slos: seq<SloInfo>, alias: string)
    requires |aliases| <= |slos|
    ensures alias in AliasMap(aliases, slos) <==> alias in aliases
  {
    if |aliases| == 0 {
    } else {
      AliasKnown(aliases[..|aliases| - 1], slos, alias);
    }
  }

  lemma {:induction false} LastAlias(aliases: seq<string>, slos: seq<SloInfo>, i: nat)
    requires i < |aliases| <= |slos| && aliases[i] !in aliases[i + 1..]
    ensures aliases[i] in AliasMap(aliases, slos) && AliasMap(aliases, slos)[aliases[i]] == slos[i]
  {
    var n := |aliases| - 1;
    if i < n {
      assert aliases[n] == aliases[i + 1..][n - i - 1];
      assert aliases[..n][i + 1..] == aliases[i + 1..][..n - i - 1];
      LastAlias(aliases[..n], slos, i);
    }
  }

  lemma {:induction false} AliasFetched(aliases: seq<string>, slos: seq<SloInfo>, alias: string)
    ensures alias in AliasMap(aliases, slos) <==> exists i | 0 <= i < |aliases| && i < |slos| :: aliases[i] == alias
  {
    if |aliases| == 0 {
    } else {
      AliasFetched(aliases[..|aliases| - 1], slos, alias);
    }
  }

  /**
   What is generated at all: AND_MIN always, and WEIGHTED_ROUTES with params whose chains name
   only objectives for which an SLO was fetched. Every other kind is refused.
   */
  lemma GeneratesExactly(spec: Spec, slos: seq<SloInfo>)
    ensures Generates(spec, slos) <==>
              || spec.kind == "AND_MIN"
              || (spec.kind == "WEIGHTED_ROUTES" && spec.routes.Some?
                  && forall i | 0 <= i < |spec.routes.value| ::
                       forall alias | alias in spec.routes.value[i].chain ::
                         exists j | 0 <= j < |spec.aliases| && j < |slos| :: spec.aliases[j] == alias)
  {
    var m := AliasMap(spec.aliases, slos);
    forall alias: string
      ensures alias in m <==> exists j | 0 <= j < |spec.aliases| && j < |slos| :: spec.aliases[j] == alias
    {
      AliasFetched(spec.aliases, slos, alias);
    }
    if spec.routes.Some? {
      forall i | 0 <= i < |spec.routes.value|
        ensures Known(spec.routes.value[i].chain, m) <==> forall alias | alias in spec.routes.value[i].chain :: alias in m
      {
      }
    }
  }

  /**
   With one fetched SLO per objective, generation fails exactly when some chain names an alias
   that no objective declares; so an admitted weighted composition is always generated.
   */
  lemma AdmittedGenerates(spec: Spec, slos: seq<SloInfo>)
    requires spec.kind == "WEIGHTED_ROUTES" && spec.routes.Some? && |slos| == |spec.aliases|
    ensures Generates(spec, slos) <==> AliasesDeclared(spec.routes.value, spec.aliases)
    ensures Admitted(spec) ==> Generates(spec, slos)
  {
    forall alias: string ensures alias in AliasMap(spec.aliases, slos) <==> alias in spec.aliases {
      AliasMeaning(spec.aliases, slos, alias);
    }
  }
}
