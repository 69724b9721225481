/** AND_MIN, and the whole recording group of both kinds of composition. */
module CompositionGroups {
  import opened Strings
  import opened PromSyntax
  import opened PromEval
  import opened RuleGenerator
  import opened RuleMeaning
  import opened CompositionGenerator
  import opened CompositionMeaning

  // ----- AND_MIN -----

  function IdSelector(ids: seq<string>, window: string): Selector {
    Selector("slok:sli_error_rate:" + window, true, [Matcher("objective_id", true, Join(ids, "|"))])
  }

  function AndMinTree(ids: seq<string>, window: string): Expr {
    MaxBy(Select(IdSelector(ids, window)))
  }

  lemma AndMinMeans(ids: seq<string>, window: string)
    ensures Parse(AndMinText(ids, window)) == Done(AndMinTree(ids, window), [])
  {
    var sel := Select(IdSelector(ids, window));
    assert Print(sel) == [TIdent("slok:sli_error_rate:" + window), LBrace, TIdent("objective_id"), EqRegex,
                          TStr(Join(ids, "|")), RBrace];
    assert FitsAt(sel, 0);
    Means(AndMinTree(ids, window), AndMinText(ids, window));
  }

  /** The series that the id pattern takes: of every SLO with one of the ids, in any namespace. */
  function Matched(ids: seq<string>, window: string, st: Store): seq<Sample> {
    Pick(IdSelector(ids, window).matchers, SeriesOf(st, "slok:sli_error_rate:" + window))
  }

  lemma {:induction false} PickMember(ms: seq<Matcher>, s: seq<Sample>, x: Sample)
    ensures x in Pick(ms, s) <==> x in s && HoldsAll(ms, x.labels)
  {
    if |s| == 0 {
    } else {
      PickMember(ms, s[1..], x);
    }
  }

  lemma {:induction false} MaximumMeaning(s: seq<Sample>)
    requires |s| > 0
    ensures forall x | x in s :: x.v <= Maximum(s)
    ensures exists x :: x in s && x.v == Maximum(s)
  {
    if |s| <= 1 {
      assert s[0] in s;
    } else {
      MaximumMeaning(s[1..]);
      assert forall x | x in s :: x == s[0] || x in s[1..];
      assert s[0] in s && forall x | x in s[1..] :: x in s;
    }
  }

  /** The largest of the referenced error rates. */
  function MaxRate(slos: seq<SloInfo>, rates: map<SloInfo, real>): real
    requires |slos| > 0 && forall s | s in slos :: s in rates
  {
    if |slos| == 1 then rates[slos[0]] else Max(rates[slos[0]], MaxRate(slos[1..], rates))
  }

  lemma {:induction false} MaxRateMeaning(slos: seq<SloInfo>, rates: map<SloInfo, real>)
    requires |slos| > 0 && forall s | s in slos :: s in rates
    ensures forall s | s in slos :: rates[s] <= MaxRate(slos, rates)
    ensures exists s :: s in slos && rates[s] == MaxRate(slos, rates)
  {
    assert slos[0] in slos;
    if |slos| <= 1 {
    } else {
      MaxRateMeaning(slos[1..], rates);
      assert forall s | s in slos :: s == slos[0] || s in slos[1..];
      assert forall s | s in slos[1..] :: s in slos;
    }
  }

  /** Ids are plain: no alternation inside one of them. */
  ghost predicate PlainIds(slos: seq<SloInfo>) {
    forall s | s in slos :: '|' !in ObjectiveId(s)
  }

  /** The pattern joined from the ids takes a label exactly when one of the ids does. */
  lemma PatternMeaning(slos: seq<SloInfo>, value: string)
    requires |slos| > 0 && PlainIds(slos)
    ensures RegexMatch(Join(ObjectiveIds(slos), "|"), value) <==> exists s | s in slos :: DotMatch(ObjectiveId(s), value)
  {
    hide DotMatch, ObjectiveId, Join, Split;
    var ids := ObjectiveIds(slos);
    forall p | p in ids ensures '|' !in p {
      var i :| 0 <= i < |ids| && ids[i] == p;
      assert slos[i] in slos;
    }
    SplitJoin(ids, '|');
    assert ['|'] == "|";
    if s :| s in slos && DotMatch(ObjectiveId(s), value) {
      var i :| 0 <= i < |slos| && slos[i] == s;
      assert ids[i] in ids;
    }
    if p :| p in ids && DotMatch(p, value) {
      var i :| 0 <= i < |ids| && ids[i] == p;
      assert slos[i] in slos;
    }
  }

  lemma IdTaken(slos: seq<SloInfo>, window: string, s: SloInfo, r: SloInfo)
    requires PlainIds(slos) && r in slos && ObjectiveId(r) == ObjectiveId(s)
    ensures HoldsAll(IdSelector(ObjectiveIds(slos), window).matchers, BaseLabels(SloId(s), window))
  {
    PatternMeaning(slos, ObjectiveId(s));
    assert DotMatch(ObjectiveId(r), ObjectiveId(s));
    assert Get(BaseLabels(SloId(s), window), "objective_id") == ObjectiveId(s);
  }

  lemma SoloMember(s: SloInfo, window: string, st: Store, e: real)
    requires SoloOf(SloId(s), st, SliMetric(SloId(s), window), window, e)
    ensures Sample(BaseLabels(SloId(s), window), e) in SeriesOf(st, "slok:sli_error_rate:" + window)
  {
    PickMember(IdMatchers(SloId(s)), SeriesOf(st, SliMetric(SloId(s), window)), Sample(BaseLabels(SloId(s), window), e));
  }

  /** The series of an SLO with a referenced id is among the matched ones. */
  lemma ReferencedMatched(slos: seq<SloInfo>, window: string, st: Store, s: SloInfo, r: SloInfo, e: real)
    requires PlainIds(slos) && r in slos && ObjectiveId(r) == ObjectiveId(s)
    requires SoloOf(SloId(s), st, SliMetric(SloId(s), window), window, e)
    ensures Sample(BaseLabels(SloId(s), window), e) in Matched(ObjectiveIds(slos), window, st)
  {
    SoloMember(s, window, st, e);
    IdTaken(slos, window, s, r);
    PickMember(IdSelector(ObjectiveIds(slos), window).matchers, SeriesOf(st, "slok:sli_error_rate:" + window),
               Sample(BaseLabels(SloId(s), window), e));
  }

  lemma AndMinEval(ids: seq<string>, window: string, st: Store)
    ensures TextValue(AndMinText(ids, window), st) ==
            Vec(if Matched(ids, window, st) == [] then [] else [Sample(map[], Maximum(Matched(ids, window, st)))])
  {
    AndMinMeans(ids, window);
    assert Eval(Select(IdSelector(ids, window)), st) == Vec(Matched(ids, window, st));
  }

  /**
   AND_MIN is the largest matched error rate: never below a referenced one, nor below that of a
   namesake in another namespace, since the id carries no namespace. `AndMinExactly` says for
   which SLOs it is the maximum of the referenced rates.
   */
  lemma AndMinValue(slos: seq<SloInfo>, window: string, rates: map<SloInfo, real>, st: Store)
    requires |slos| > 0 && PlainIds(slos) && (forall s | s in slos :: s in rates) && RatesIn(rates, window, st)
    ensures var matched := Matched(ObjectiveIds(slos), window, st);
            && matched != []
            && Worth(AndMinText(ObjectiveIds(slos), window), st, Maximum(matched))
            && (forall s | s in slos :: rates[s] <= Maximum(matched))
            && (forall s, r | s in rates && r in slos && ObjectiveId(r) == ObjectiveId(s) :: rates[s] <= Maximum(matched))
  {
    hide SoloOf, BaseLabels, AndMinText, TextValue, Matched, Maximum, ObjectiveIds, ObjectiveId, PlainIds;
    var matched := Matched(ObjectiveIds(slos), window, st);
    AndMinEval(ObjectiveIds(slos), window, st);
    ReferencedMatched(slos, window, st, slos[0], slos[0], rates[slos[0]]);
    MaximumMeaning(matched);
    forall s, r | s in rates && r in slos && ObjectiveId(r) == ObjectiveId(s) ensures rates[s] <= Maximum(matched) {
      ReferencedMatched(slos, window, st, s, r, rates[s]);
      assert Sample(BaseLabels(SloId(s), window), rates[s]) in matched;
    }
  }

  // ----- AND_MIN against the SLOs that are deployed -----

  /** Every deployed SLO has exactly one error-rate series for the window, and there are no others. */
  ghost predicate Deployed(deployed: seq<SloInfo>, rates: map<SloInfo, real>, window: string, st: Store) {
    && (forall d | d in deployed :: d in rates && SoloOf(SloId(d), st, SliMetric(SloId(d), window), window, rates[d]))
    && (forall x | x in SeriesOf(st, "slok:sli_error_rate:" + window) ::
          exists d | d in deployed :: x == Sample(BaseLabels(SloId(d), window), rates[d]))
  }

  /** AND_MIN over `slos` is the largest of their rates, whatever the rates of the deployed SLOs are. */
  ghost predicate AlwaysMaximum(slos: seq<SloInfo>, deployed: seq<SloInfo>, window: string)
    requires |slos| > 0 && forall s | s in slos :: s in deployed
  {
    forall rates: map<SloInfo, real>, st: Store | Deployed(deployed, rates, window, st) ::
      Worth(AndMinText(ObjectiveIds(slos), window), st, MaxRate(slos, rates))
  }

  /** The joined id pattern takes the id of `d`. */
  ghost predicate Takes(slos: seq<SloInfo>, d: SloInfo) {
    RegexMatch(Join(ObjectiveIds(slos), "|"), ObjectiveId(d))
  }

  lemma TakenLabels(slos: seq<SloInfo>, d: SloInfo, window: string, labels: Labels)
    requires Extends(labels, BaseLabels(SloId(d), window))
    ensures HoldsAll(IdSelector(ObjectiveIds(slos), window).matchers, labels) <==> Takes(slos, d)
  {
    hide RegexMatch, ObjectiveId;
    var ms := IdSelector(ObjectiveIds(slos), window).matchers;
    assert Get(labels, "objective_id") == ObjectiveId(d) by {
      assert "objective_id" in BaseLabels(SloId(d), window);
    }
    assert HoldsAll(ms, labels) <==> Holds(ms[0], labels);
  }

  lemma MatchedDeployed(slos: seq<SloInfo>, deployed: seq<SloInfo>, rates: map<SloInfo, real>, window: string, st: Store)
    requires Deployed(deployed, rates, window, st)
    ensures forall d | d in deployed && Takes(slos, d) ::
              Sample(BaseLabels(SloId(d), window), rates[d]) in Matched(ObjectiveIds(slos), window, st)
    ensures forall x | x in Matched(ObjectiveIds(slos), window, st) ::
              exists d | d in deployed && Takes(slos, d) :: x == Sample(BaseLabels(SloId(d), window), rates[d])
  {
    hide RegexMatch, BaseLabels, Join, SoloOf, Takes, HoldsAll;
    var ms, series := IdSelector(ObjectiveIds(slos), window).matchers, SeriesOf(st, "slok:sli_error_rate:" + window);
    forall d | d in deployed && Takes(slos, d)
      ensures Sample(BaseLabels(SloId(d), window), rates[d]) in Matched(ObjectiveIds(slos), window, st)
    {
      SoloMember(d, window, st, rates[d]);
      TakenLabels(slos, d, window, BaseLabels(SloId(d), window));
      PickMember(ms, series, Sample(BaseLabels(SloId(d), window), rates[d]));
    }
    forall x | x in Matched(ObjectiveIds(slos), window, st)
      ensures exists d | d in deployed && Takes(slos, d) :: x == Sample(BaseLabels(SloId(d), window), rates[d])
    {
      PickMember(ms, series, x);
      var d :| d in deployed && x == Sample(BaseLabels(SloId(d), window), rates[d]);
      TakenLabels(slos, d, window, BaseLabels(SloId(d), window));
    }
  }

  lemma DeployedRates(slos: seq<SloInfo>, deployed: seq<SloInfo>, rates: map<SloInfo, real>, window: string, st: Store)
    requires (forall s | s in slos :: s in deployed) && Deployed(deployed, rates, window, st)
    ensures forall s | s in slos :: s in rates
  {
  }

  lemma SameMaximum(slos: seq<SloInfo>, rates: map<SloInfo, real>, matched: seq<Sample>)
    requires |slos| > 0 && (forall s | s in slos :: s in rates)
    requires forall s | s in slos :: exists x | x in matched :: x.v == rates[s]
    requires forall x | x in matched :: exists s | s in slos :: x.v == rates[s]
    ensures matched != [] && Maximum(matched) == MaxRate(slos, rates)
  {
    assert slos[0] in slos;
    hide Maximum, MaxRate;
    MaximumMeaning(matched);
    MaxRateMeaning(slos, rates);
    var x :| x in matched && x.v == Maximum(matched);
    var s :| s in slos && rates[s] == MaxRate(slos, rates);
  }

  /** When the pattern takes exactly the referenced SLOs, AND_MIN is their maximum. */
  lemma ClosedMaximum(slos: seq<SloInfo>, deployed: seq<SloInfo>, rates: map<SloInfo, real>, window: string, st: Store)
    requires |slos| > 0 && (forall s | s in slos :: s in deployed) && Deployed(deployed, rates, window, st)
    requires forall d | d in deployed :: d in slos <==> Takes(slos, d)
    ensures Worth(AndMinText(ObjectiveIds(slos), window), st, MaxRate(slos, rates))
  {
    hide Takes, BaseLabels, SoloOf, AndMinText, TextValue, Matched, Maximum, MaxRate, ObjectiveIds;
    var matched := Matched(ObjectiveIds(slos), window, st);
    MatchedDeployed(slos, deployed, rates, window, st);
    forall s | s in slos ensures exists x | x in matched :: x.v == rates[s] {
      assert Sample(BaseLabels(SloId(s), window), rates[s]) in matched;
    }
    SameMaximum(slos, rates, matched);
    AndMinEval(ObjectiveIds(slos), window, st);
  }

  // ----- a store for any rates -----

  function SamplesOf(deployed: seq<SloInfo>, rates: map<SloInfo, real>, window: string): seq<Sample>
    requires forall d | d in deployed :: d in rates
  {
    if |deployed| == 0 then [] else
      var n := |deployed| - 1;
      var before := SamplesOf(deployed[..n], rates, window);
      if deployed[n] in deployed[..n] then before
      else before + [Sample(BaseLabels(SloId(deployed[n]), window), rates[deployed[n]])]
  }

  lemma PickOne(d: SloInfo, s: SloInfo, window: string, v: real)
    ensures Pick(IdMatchers(SloId(d)), [Sample(BaseLabels(SloId(s), window), v)])
         == if s == d then [Sample(BaseLabels(SloId(s), window), v)] else []
  {
    if s == d {
      OwnLabels(SloId(d), window);
    } else {
      OtherSloForeign(d, s, window);
      assert Extends(BaseLabels(SloId(s), window), BaseLabels(SloId(s), window));
    }
  }

  lemma PickNone(ms: seq<Matcher>)
    ensures Pick(ms, []) == []
  {
  }

  lemma {:induction false} SamplesOfDeployed(deployed: seq<SloInfo>, rates: map<SloInfo, real>, window: string)
    requires forall s | s in deployed :: s in rates
    ensures forall x | x in SamplesOf(deployed, rates, window) ::
              exists s | s in deployed :: x == Sample(BaseLabels(SloId(s), window), rates[s])
  {
    hide BaseLabels;
    if |deployed| == 0 {
    } else {
      var n := |deployed| - 1;
      SamplesOfDeployed(deployed[..n], rates, window);
      assert deployed[n] in deployed && forall s | s in deployed[..n] :: s in deployed;
    }
  }

  lemma {:induction false} SamplesPicked(deployed: seq<SloInfo>, rates: map<SloInfo, real>, window: string, d: SloInfo)
    requires (forall s | s in deployed :: s in rates) && d in rates
    ensures Pick(IdMatchers(SloId(d)), SamplesOf(deployed, rates, window))
         == if d in deployed then [Sample(BaseLabels(SloId(d), window), rates[d])] else []
  {
    hide BaseLabels, IdMatchers, Pick;
    PickNone(IdMatchers(SloId(d)));
    if |deployed| == 0 {
    } else {
      var n := |deployed| - 1;
      SamplesPicked(deployed[..n], rates, window, d);
      assert deployed == deployed[..n] + [deployed[n]];
      PickAppend(IdMatchers(SloId(d)), SamplesOf(deployed[..n], rates, window),
                 [Sample(BaseLabels(SloId(deployed[n]), window), rates[deployed[n]])]);
      PickOne(d, deployed[n], window, rates[deployed[n]]);
    }
  }

  /** Rate one for one SLO, zero for all others, and a store that holds just these rates. */
  function HotRates(deployed: seq<SloInfo>, hot: SloInfo): map<SloInfo, real> {
    map d | d in deployed :: if d == hot then 1.0 else 0.0
  }

  function HotStore(deployed: seq<SloInfo>, hot: SloInfo, window: string): Store {
    Store(map["slok:sli_error_rate:" + window := SamplesOf(deployed, HotRates(deployed, hot), window)], map[])
  }

  lemma HotDeployed(deployed: seq<SloInfo>, hot: SloInfo, window: string)
    ensures Deployed(deployed, HotRates(deployed, hot), window, HotStore(deployed, hot, window))
  {
    hide BaseLabels, IdMatchers, Pick;
    var rates := HotRates(deployed, hot);
    forall d | d in deployed
      ensures d in rates
      ensures SoloOf(SloId(d), HotStore(deployed, hot, window), SliMetric(SloId(d), window), window, rates[d])
    {
      SamplesPicked(deployed, rates, window, d);
    }
    SamplesOfDeployed(deployed, rates, window);
  }

  /** An unreferenced SLO that the pattern takes raises AND_MIN above every referenced rate. */
  lemma Overshoots(slos: seq<SloInfo>, deployed: seq<SloInfo>, hot: SloInfo, window: string)
    requires |slos| > 0 && (forall s | s in slos :: s in deployed) && hot in deployed && hot !in slos && Takes(slos, hot)
    ensures var rates, st := HotRates(deployed, hot), HotStore(deployed, hot, window);
            && Deployed(deployed, rates, window, st)
            && MaxRate(slos, rates) == 0.0
            && TextValue(AndMinText(ObjectiveIds(slos), window), st) == Vec([Sample(map[], 1.0)])
  {
    hide Takes, BaseLabels, SoloOf, AndMinText, TextValue, Deployed, HotStore, Matched, Maximum, MaxRate, ObjectiveIds;
    var rates, st := HotRates(deployed, hot), HotStore(deployed, hot, window);
    HotDeployed(deployed, hot, window);
    MaxRateMeaning(slos, rates);
    MatchedDeployed(slos, deployed, rates, window, st);
    var matched := Matched(ObjectiveIds(slos), window, st);
    AndMinEval(ObjectiveIds(slos), window, st);
    assert Sample(BaseLabels(SloId(hot), window), rates[hot]) in matched;
    MaximumMeaning(matched);
  }

  /** A referenced SLO that the pattern does not take is left out of AND_MIN. */
  lemma Undershoots(slos: seq<SloInfo>, deployed: seq<SloInfo>, hot: SloInfo, window: string)
    requires |slos| > 0 && (forall s | s in slos :: s in deployed) && hot in slos && !Takes(slos, hot)
    ensures var rates, st := HotRates(deployed, hot), HotStore(deployed, hot, window);
            && Deployed(deployed, rates, window, st)
            && MaxRate(slos, rates) == 1.0
            && !Worth(AndMinText(ObjectiveIds(slos), window), st, 1.0)
  {
    hide Takes, BaseLabels, SoloOf, AndMinText, TextValue, Deployed, HotStore, Matched, Maximum, MaxRate, ObjectiveIds;
    var rates, st := HotRates(deployed, hot), HotStore(deployed, hot, window);
    HotDeployed(deployed, hot, window);
    MaxRateMeaning(slos, rates);
    MatchedDeployed(slos, deployed, rates, window, st);
    var matched := Matched(ObjectiveIds(slos), window, st);
    AndMinEval(ObjectiveIds(slos), window, st);
    if |matched| > 0 {
      MaximumMeaning(matched);
      var x :| x in matched && x.v == Maximum(matched);
      assert x.v == 0.0;
    }
  }

  /**
   AND_MIN is the maximum of the referenced rates, for all rates of the deployed SLOs, exactly
   when the joined id pattern takes the ids of the referenced SLOs and of no other deployed one.
   */
  lemma AndMinExactly(slos: seq<SloInfo>, deployed: seq<SloInfo>, window: string)
    requires |slos| > 0 && forall s | s in slos :: s in deployed
    ensures AlwaysMaximum(slos, deployed, window) <==> forall d | d in deployed :: d in slos <==> Takes(slos, d)
  {
    hide Takes, Deployed, HotStore, HotRates, AndMinText, MaxRate, TextValue;
    if d :| d in deployed && d !in slos && Takes(slos, d) {
      Overshoots(slos, deployed, d, window);
      assert !Worth(AndMinText(ObjectiveIds(slos), window), HotStore(deployed, d, window), 0.0);
      assert !AlwaysMaximum(slos, deployed, window);
    } else if d :| d in deployed && d in slos && !Takes(slos, d) {
      Undershoots(slos, deployed, d, window);
      assert !AlwaysMaximum(slos, deployed, window);
    } else {
      forall rates: map<SloInfo, real>, st: Store | Deployed(deployed, rates, window, st)
        ensures (forall s | s in slos :: s in rates)
             && Worth(AndMinText(ObjectiveIds(slos), window), st, MaxRate(slos, rates))
      {
        DeployedRates(slos, deployed, rates, window, st);
        ClosedMaximum(slos, deployed, rates, window, st);
      }
    }
  }

  /** With plain ids: exactly when no unreferenced deployed SLO has an id that some referenced id matches. */
  lemma AndMinByIds(slos: seq<SloInfo>, deployed: seq<SloInfo>, window: string)
    requires |slos| > 0 && PlainIds(slos) && forall s | s in slos :: s in deployed
    ensures AlwaysMaximum(slos, deployed, window)
            <==> forall d | d in deployed && (exists s | s in slos :: DotMatch(ObjectiveId(s), ObjectiveId(d))) ::
                   d in slos
  {
    hide AlwaysMaximum, RegexMatch, ObjectiveId, Join;
    AndMinExactly(slos, deployed, window);
    forall d | d in deployed
      ensures Takes(slos, d) <==> exists s | s in slos :: DotMatch(ObjectiveId(s), ObjectiveId(d))
    {
      PatternMeaning(slos, ObjectiveId(d));
    }
    forall s | s in slos ensures DotMatch(ObjectiveId(s), ObjectiveId(s)) {
    }
  }

  /** A namesake in another namespace: rates 0 and 1, and AND_MIN over the first alone is 1. */
  lemma NamesakeRaises(name: string, objective: string, a: string, b: string, window: string)
    requires a != b && '|' !in name && '|' !in objective
    ensures var slos, other := [SloInfo(name, a, objective)], SloInfo(name, b, objective);
            var rates, st := HotRates(slos + [other], other), HotStore(slos + [other], other, window);
            && Deployed(slos + [other], rates, window, st) && MaxRate(slos, rates) == 0.0
            && TextValue(AndMinText(ObjectiveIds(slos), window), st) == Vec([Sample(map[], 1.0)])
  {
    hide HotStore, HotRates, Deployed, AndMinText, TextValue, MaxRate, Takes, Join;
    var slos, other := [SloInfo(name, a, objective)], SloInfo(name, b, objective);
    assert '|' !in ObjectiveId(slos[0]);
    TakesAlike(slos, other);
    Overshoots(slos, slos + [other], other, window);
  }

  /** A dot in a name takes any character: an SLO `axb` raises AND_MIN over `a.b`. */
  lemma DottedNameRaises(namespace: string, objective: string, window: string)
    requires '|' !in objective
    ensures var slos, other := [SloInfo("a.b", namespace, objective)], SloInfo("axb", namespace, objective);
            var rates, st := HotRates(slos + [other], other), HotStore(slos + [other], other, window);
            && Deployed(slos + [other], rates, window, st) && MaxRate(slos, rates) == 0.0
            && TextValue(AndMinText(ObjectiveIds(slos), window), st) == Vec([Sample(map[], 1.0)])
  {
    hide HotStore, HotRates, Deployed, AndMinText, TextValue, MaxRate, Takes, Join;
    var slos, other := [SloInfo("a.b", namespace, objective)], SloInfo("axb", namespace, objective);
    assert '|' !in ObjectiveId(slos[0]);
    assert slos[0].name != other.name by { assert "a.b"[1] != "axb"[1]; }
    TakesAlike(slos, other);
    Overshoots(slos, slos + [other], other, window);
  }

  lemma TakesAlike(slos: seq<SloInfo>, other: SloInfo)
    requires |slos| == 1 && '|' !in ObjectiveId(slos[0]) && DotMatch(ObjectiveId(slos[0]), ObjectiveId(other))
    ensures Takes(slos, other)
  {
    hide DotMatch, ObjectiveId, RegexMatch;
    assert PlainIds(slos);
    PatternMeaning(slos, ObjectiveId(other));
    assert slos[0] in slos;
  }

  // ----- the groups -----

  /** What a composition reads, it does not record. */
  lemma SourcesApart(id: Identity, windows: seq<string>, window: string)
    requires id.CompositionId?
    ensures !Recorded(id, windows, "slok:sli_error_rate:" + window)
  {
    var source := "slok:sli_error_rate:" + window;
    assert source[5] == 's' && source[15] == 'r';
    forall i | 0 <= i < |windows|
      ensures source != SliMetric(id, windows[i]) && source != BurnMetric(id, windows[i])
    {
      Initials(id, windows[i]);
      assert SliMetric(id, windows[i])[15] == 'c';
    }
    Initials(id, window);
  }

  lemma FactorReads(s: SloInfo, window: string)
    ensures Reads(FactorTree(s, window)) == {"slok:sli_error_rate:" + window}
  {
    var sel := Select(SelectorOf(SloId(s), SliMetric(SloId(s), window)));
    assert Reads(Call("scalar", sel)) == {"slok:sli_error_rate:" + window};
    assert Reads(Lit(1.0)) == {};
    assert Reads(Bin(Sub, AllLabels, Lit(1.0), Call("scalar", sel))) == {"slok:sli_error_rate:" + window};
  }

  lemma {:induction false} ChainReads(chain: seq<SloInfo>, window: string)
    requires |chain| > 0
    ensures Reads(ChainTree(chain, window)) == {"slok:sli_error_rate:" + window}
  {
    var n := |chain| - 1;
    FactorReads(chain[n], window);
    if n == 0 {
    } else {
      ChainReads(chain[..n], window);
    }
  }

  lemma {:induction false} RoutesReads(legs: seq<Leg>, window: string)
    requires |legs| > 0 && Nonempty(legs)
    ensures Reads(RoutesTree(legs, window)) == {"slok:sli_error_rate:" + window}
  {
    var n := |legs| - 1;
    ChainReads(legs[n].chain, window);
    assert Reads(NumberTree(legs[n].weight)) == {};
    assert Reads(RouteTree(legs[n], window)) == {"slok:sli_error_rate:" + window};
    if n == 0 {
    } else {
      RoutesReads(legs[..n], window);
    }
  }

  lemma WeightedIndependent(id: Identity, windows: seq<string>, legs: seq<Leg>, window: string)
    requires id.CompositionId? && |legs| > 0 && Nonempty(legs)
    ensures Independent(id, windows, WeightedText(legs, window))
  {
    hide Parse, WeightedText, Recorded, RoutesTree;
    WeightedMeans(legs, window);
    RoutesReads(legs, window);
    assert Reads(Lit(1.0)) == {};
    assert Reads(Paren(RoutesTree(legs, window))) == {"slok:sli_error_rate:" + window};
    SourcesApart(id, windows, window);
  }

  lemma AndMinIndependent(id: Identity, windows: seq<string>, ids: seq<string>, window: string)
    requires id.CompositionId?
    ensures Independent(id, windows, AndMinText(ids, window))
  {
    AndMinMeans(ids, window);
    assert Reads(Select(IdSelector(ids, window))) == {"slok:sli_error_rate:" + window};
    SourcesApart(id, windows, window);
  }

  lemma WeightedWorth(id: Identity, windows: seq<string>, legs: seq<Leg>, window: string, rates: map<SloInfo, real>,
                      e: real, st: Store)
    requires id.CompositionId? && |legs| > 0 && Nonempty(legs) && Covers(rates, legs) && RatesIn(rates, window, st)
    requires e == 1.0 - Availability(legs, rates)
    ensures Independent(id, windows, WeightedText(legs, window)) && Worth(WeightedText(legs, window), st, e)
  {
    hide WeightedText, Availability, Independent, RatesIn, TextValue;
    WeightedIndependent(id, windows, legs, window);
    WeightedValue(legs, window, rates, st);
  }

  /**
   One window of the recording group of a WEIGHTED_ROUTES composition, as soon as its components
   have an error rate in that window: the documented formula over them, and its quotient by the
   composition's own budget. The other windows may be without rates.
   */
  lemma {:induction false} WeightedGroupMeaning(id: Identity, windows: seq<string>, legs: seq<Leg>, target: real, k: nat,
                             rates: map<SloInfo, real>, st: Store)
    requires id.CompositionId? && Distinct(windows) && Owned(id, windows, st) && target != 100.0
    requires |legs| > 0 && Nonempty(legs) && k < |windows| && Covers(rates, legs) && RatesIn(rates, windows[k], st)
    ensures var rules := RecordingRules(id, windows, WeightedTexts(legs, windows), target);
            && WellOrdered(rules)
            && Leaves(id, windows[k], Some(1.0 - Availability(legs, rates)), target, EvalGroup(rules, st))
  {
    hide WeightedText, EvalGroup, Availability, Owned, Leaves, WellOrdered, Independent, TextValue, RatesIn,
         RecordingRules;
    var texts := WeightedTexts(legs, windows);
    forall i | 0 <= i < |windows| ensures Independent(id, windows, texts[i]) {
      WeightedIndependent(id, windows, legs, windows[i]);
    }
    WeightedWorth(id, windows, legs, windows[k], rates, 1.0 - Availability(legs, rates), st);
    GroupWellOrdered(id, windows, texts, target);
    GroupWindow(id, windows, texts, target, st, k, Some(1.0 - Availability(legs, rates)));
  }

  /**
   One window of the recording group of an AND_MIN composition, over any ids and any store: the
   largest error rate that the id pattern takes in that window, and nothing where it takes none.
   */
  lemma AndMinGroupMeaning(id: Identity, windows: seq<string>, ids: seq<string>, target: real, k: nat, st: Store)
    requires id.CompositionId? && Distinct(windows) && Owned(id, windows, st) && target != 100.0 && k < |windows|
    ensures var rules := RecordingRules(id, windows, AndMinTexts(ids, windows), target);
            var matched := Matched(ids, windows[k], st);
            && WellOrdered(rules)
            && Leaves(id, windows[k], if matched == [] then None else Some(Maximum(matched)), target,
                      EvalGroup(rules, st))
  {
    hide AndMinText, EvalGroup, Matched, Owned, Leaves, WellOrdered, Independent, Maximum, TextValue, RecordingRules;
    var texts := AndMinTexts(ids, windows);
    forall i | 0 <= i < |windows| ensures Independent(id, windows, texts[i]) {
      AndMinIndependent(id, windows, ids, windows[i]);
    }
    var matched := Matched(ids, windows[k], st);
    AndMinEval(ids, windows[k], st);
    GroupWellOrdered(id, windows, texts, target);
    GroupWindow(id, windows, texts, target, st, k, if matched == [] then None else Some(Maximum(matched)));
  }
}
