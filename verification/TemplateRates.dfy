/**
 From a template to the recorded error rate, in terms of the service's counters alone: which
 counters are added up, over which time, and what becomes of their quotient.
 */
module TemplateRates {
  import opened Strings
  import opened PromSyntax
  import opened PromEval
  import opened Templates
  import opened RuleGenerator
  import opened RuleMeaning
  import opened SliMeaning
  import opened SloMeaning

  // ----- adding up counters -----

  /** The increase over so many seconds of all counters whose labels are of the kind `p`. */
  function Total(cs: seq<Counter>, seconds: nat, p: Labels -> bool): real {
    if |cs| == 0 then 0.0 else
      (if p(cs[0].labels) && seconds in cs[0].increase then cs[0].increase[seconds] else 0.0)
      + Total(cs[1..], seconds, p)
  }

  /** Some counter of that kind has an increase over so many seconds. */
  predicate Counted(cs: seq<Counter>, seconds: nat, p: Labels -> bool) {
    exists c | c in cs :: p(c.labels) && seconds in c.increase
  }

  /** The labels have every wanted value, an empty one also standing for no such label. */
  predicate Carries(labels: Labels, wanted: map<string, string>) {
    forall x | x in wanted :: (x in labels && labels[x] == wanted[x]) || (x !in labels && wanted[x] == "")
  }

  /** Three characters, the first of them a 5. */
  predicate ServerError(labels: Labels, name: string) {
    name in labels && |labels[name]| == 3 && labels[name][0] == '5'
  }

  lemma {:induction false} SumIsTotal(ms: seq<Matcher>, seconds: nat, cs: seq<Counter>, p: Labels -> bool)
    requires forall l: Labels :: HoldsAll(ms, l) <==> p(l)
    ensures Sum(PickIncreases(ms, seconds, cs)) == Total(cs, seconds, p)
    ensures PickIncreases(ms, seconds, cs) != [] <==> Counted(cs, seconds, p)
  {
    hide HoldsAll;
    if |cs| == 0 {
    } else {
      SumIsTotal(ms, seconds, cs[1..], p);
      var c := cs[0];
      var first := if HoldsAll(ms, c.labels) && seconds in c.increase
        then [Sample(c.labels, c.increase[seconds])] else [];
      SumAppend(first, PickIncreases(ms, seconds, cs[1..]));
      assert cs == [c] + cs[1..];
    }
  }

  lemma OrderCarries(order: seq<Matcher>, labels: map<string, string>, l: Labels)
    requires IterationOf(order, labels)
    ensures HoldsAll(order, l) <==> Carries(l, labels)
  {
    forall m | m in order ensures m == Matcher(m.name, false, labels[m.name]) {
    }
    if HoldsAll(order, l) {
      forall x | x in labels ensures (x in l && l[x] == labels[x]) || (x !in l && labels[x] == "") {
        assert Holds(Matcher(x, false, labels[x]), l);
      }
    }
  }

  lemma NarrowedCarries(order: seq<Matcher>, labels: map<string, string>, m: Matcher, l: Labels)
    requires IterationOf(order, labels)
    ensures HoldsAll(order + [m], l) <==> Carries(l, labels) && Holds(m, l)
  {
    hide Holds, Carries, IterationOf;
    OrderCarries(order, labels, l);
    assert forall x | x in order :: x in order + [m];
    assert m in order + [m];
  }

  lemma FiveHundreds(name: string, l: Labels)
    ensures Holds(Matcher(name, true, "5.."), l) <==> ServerError(l, name)
  {
    SplitJoin(["5.."], '|');
    assert Split("5..", '|') == ["5.."];
    assert "5.."[0] == '5' && "5.."[1] == '.' && "5.."[2] == '.';
    var v := Get(l, name);
    assert RegexMatch("5..", v) <==> DotMatch("5..", v) by { assert "5.." in Split("5..", '|'); }
    hide RegexMatch;
  }

  // ----- the quotient -----

  /**
   The error rate v of a window of n seconds: 1 when nothing was counted; otherwise the quotient
   of failed and total increase, as long as the total makes at least a trillionth per second, and
   below that the failed increase per second times a trillion.
   */
  predicate IsRate(v: real, n: nat, counted: bool, failed: real, total: real)
    requires n > 0
  {
    if !counted then v == 1.0
    else if total / n as real >= 0.000000000001 then v * total == failed
    else v == failed / n as real * 1000000000000.0
  }

  lemma QuotientTimes(failed: real, total: real, n: real)
    requires n > 0.0 && total > 0.0
    ensures failed / n / (total / n) * total == failed
  {
    var t, f := total / n, failed / n;
    assert t * n == total && f * n == failed;
    var v := f / t;
    assert v * t == f;
    assert v * total == v * t * n;
  }

  lemma TimesTrillion(x: real)
    ensures x / 0.000000000001 == x * 1000000000000.0
  {
  }

  lemma PositiveTotal(total: real, n: real)
    requires n > 0.0 && total / n >= 0.000000000001
    ensures total > 0.0
  {
    assert total == total / n * n;
  }

  lemma RatioLaw(f: real, t: real, n: nat)
    requires n > 0
    ensures IsRate(f / n as real / Max(t / n as real, EPSILON), n, true, f, t)
  {
    var m := n as real;
    if t / m >= 0.000000000001 {
      PositiveTotal(t, m);
      QuotientTimes(f, t, m);
    } else {
      TimesTrillion(f / m);
    }
  }

  lemma ErrorRateLaw(failed: seq<Sample>, total: seq<Sample>, n: nat)
    requires n > 0
    ensures IsRate(ErrorRate(failed, total, n), n, total != [], Sum(failed), Sum(total))
  {
    RatioLaw(Sum(failed), Sum(total), n);
  }

  lemma Complemented(x: real)
    ensures 1.0 - (1.0 - x) == x
  {
  }

  lemma LatencyLaw(fast: seq<Sample>, total: seq<Sample>, n: nat)
    requires n > 0
    ensures IsRate(1.0 - LatencyRate(fast, total, n), n, true, Sum(fast), Sum(total))
  {
    hide IsRate, Sum, Max;
    RatioLaw(Sum(fast), Sum(total), n);
    FloorPositive(Sum(total) / n as real);
    Complemented(Sum(fast) / n as real / Max(Sum(total) / n as real, EPSILON));
  }

  // ----- SLOs with two selectors -----

  /** The recorded rate of one window of an SLO whose queries are two selectors of any kind. */
  lemma StandardSlo(sloName: string, namespace: string, objective: Objective, es: Selector, ts: Selector, w: string,
                    n: nat, st: Store, failed: Labels -> bool, all: Labels -> bool)
    returns (v: real)
    requires Compilable(objective) && objective.target != 100.0
    requires WellFormedSelector(es) && WellFormedSelector(ts) && es.metric == ts.metric
    requires Owned(SloId(SloInfo(sloName, namespace, objective.name)), RECORDING_WINDOWS, st)
    requires w in RECORDING_WINDOWS && Seconds(w) == n > 0
    requires forall l: Labels :: HoldsAll(es.matchers, l) <==> failed(l)
    requires forall l: Labels :: HoldsAll(ts.matchers, l) <==> all(l)
    ensures var cs := CountersOf(st, ts.metric);
            IsRate(v, n, Counted(cs, n, all), Total(cs, n, failed), Total(cs, n, all))
    ensures var rule := SloRule(sloName, namespace, objective, Resolved(SelectorText(ts), SelectorText(es), []));
            Leaves(SloId(SloInfo(sloName, namespace, objective.name)), w, Some(v), objective.target,
                   EvalGroup(rule.groups[0].rules, st))
  {
    hide EvalGroup, SloRule, SelectorText, Owned, SoloOf, HoldsAll, IsRate, ErrorRate;
    var i :| 0 <= i < |RECORDING_WINDOWS| && RECORDING_WINDOWS[i] == w;
    SloGroupMeaning(sloName, namespace, objective, es, ts, st);
    v := StandardErrors(es, ts, st)[i];
    ErrorRateLaw(Increases(es, w, st), Increases(ts, w, st), n);
    SumIsTotal(es.matchers, n, CountersOf(st, es.metric), failed);
    SumIsTotal(ts.matchers, n, CountersOf(st, ts.metric), all);
  }

  /** All labels that carry the wanted values. */
  function All(wanted: map<string, string>): Labels -> bool {
    l => Carries(l, wanted)
  }

  /** Those of them that match one more condition. */
  function Only(wanted: map<string, string>, m: Matcher): Labels -> bool {
    l => Carries(l, wanted) && Holds(m, l)
  }

  lemma TemplateSlo(sloName: string, namespace: string, objective: Objective, metric: string, order: seq<Matcher>,
                    labels: map<string, string>, m: Matcher, failed: Labels -> bool, w: string, n: nat, st: Store)
    returns (v: real)
    requires Ready(sloName, namespace, objective, st) && IterationOf(order, labels)
    requires w in RECORDING_WINDOWS && Seconds(w) == n > 0
    requires forall l: Labels :: failed(l) <==> Carries(l, labels) && Holds(m, l)
    ensures var cs := CountersOf(st, metric);
            IsRate(v, n, Counted(cs, n, All(labels)), Total(cs, n, failed), Total(cs, n, All(labels)))
    ensures Emits(sloName, namespace, objective, StandardQueries(metric, order, m), st, w, Some(v))
  {
    hide EvalGroup, SloRule, SelectorText, Owned, Leaves, HoldsAll, Holds, Carries, IterationOf, IsRate, Total, Counted,
         Compilable;
    var es, ts := SelectorFor(metric, order + [m]), SelectorFor(metric, order);
    forall l: Labels ensures HoldsAll(ts.matchers, l) <==> All(labels)(l) {
      OrderCarries(order, labels, l);
    }
    forall l: Labels ensures HoldsAll(es.matchers, l) <==> failed(l) {
      NarrowedCarries(order, labels, m, l);
    }
    v := StandardSlo(sloName, namespace, objective, es, ts, w, n, st, failed, All(labels));
  }

  // ----- the three templates -----

  /** The SLO's own series are written by nobody else, and its target leaves it a budget. */
  ghost predicate Ready(sloName: string, namespace: string, objective: Objective, st: Store) {
    Compilable(objective) && objective.target != 100.0
    && Owned(SloId(SloInfo(sloName, namespace, objective.name)), RECORDING_WINDOWS, st)
  }

  /** What the emitted recording group of the SLO leaves for a window. */
  ghost predicate Emits(sloName: string, namespace: string, objective: Objective, resolved: Resolved, st: Store,
                        w: string, e: Option<real>)
    requires Compilable(objective) && objective.target != 100.0
  {
    Leaves(SloId(SloInfo(sloName, namespace, objective.name)), w, e, objective.target,
           EvalGroup(SloRule(sloName, namespace, objective, resolved).groups[0].rules, st))
  }

  /** Labels that carry the wanted values, and whose code under this name is a server error. */
  function ServerErrors(wanted: map<string, string>, name: string): Labels -> bool {
    l => Carries(l, wanted) && ServerError(l, name)
  }

  lemma ServerErrorsExactly(wanted: map<string, string>, name: string)
    ensures forall l: Labels ::
              ServerErrors(wanted, name)(l) <==> Carries(l, wanted) && Holds(Matcher(name, true, "5.."), l)
  {
    hide Carries, ServerError, Holds;
    forall l: Labels ensures Holds(Matcher(name, true, "5.."), l) <==> ServerError(l, name) {
      FiveHundreds(name, l);
    }
  }

  /**
   http-availability: of all counters `http_requests_total` with the template's labels, the share
   of those whose status has three characters and begins with a 5.
   */
  lemma AvailabilitySlo(sloName: string, namespace: string, objective: Objective, resolved: Resolved,
                        labels: map<string, string>, params: map<string, string>, w: string, n: nat, st: Store)
    returns (v: real)
    requires Ready(sloName, namespace, objective, st)
    requires objective.sli.template == Some(Template("http-availability", labels, params))
    requires ResolvesTo(objective.sli, resolved) && w in RECORDING_WINDOWS && Seconds(w) == n > 0
    ensures var cs := CountersOf(st, "http_requests_total");
            IsRate(v, n, Counted(cs, n, All(labels)), Total(cs, n, ServerErrors(labels, "status")),
                   Total(cs, n, All(labels)))
    ensures Emits(sloName, namespace, objective, resolved, st, w, Some(v))
  {
    hide Ready, Emits, IterationOf, IsRate, Total, Counted, All, ServerErrors, StandardQueries, Holds, Carries;
    var m := Matcher("status", true, "5..");
    var order :| IterationOf(order, labels) && resolved == StandardQueries("http_requests_total", order, m);
    ServerErrorsExactly(labels, "status");
    v := TemplateSlo(sloName, namespace, objective, "http_requests_total", order, labels, m,
                     ServerErrors(labels, "status"), w, n, st);
  }

  /** The codes that kubernetes-apiserver counts as failures: the given pattern, or else the server errors. */
  function FailedCodes(wanted: map<string, string>, params: map<string, string>): Labels -> bool {
    if "errorCodes" in params && params["errorCodes"] != "" then
      l => Carries(l, wanted) && RegexMatch(params["errorCodes"], Get(l, "code"))
    else ServerErrors(wanted, "code")
  }

  lemma FailedCodesExactly(wanted: map<string, string>, params: map<string, string>)
    ensures forall l: Labels :: FailedCodes(wanted, params)(l) <==>
                                Carries(l, wanted) && Holds(Matcher("code", true, ErrorCodes(params)), l)
  {
    hide Carries, RegexMatch;
    if "errorCodes" in params && params["errorCodes"] != "" {
    } else {
      hide ServerErrors;
      ServerErrorsExactly(wanted, "code");
    }
  }

  /** kubernetes-apiserver: the share of failed codes among the counters `apiserver_request_total`. */
  lemma ApiServerSlo(sloName: string, namespace: string, objective: Objective, resolved: Resolved,
                     labels: map<string, string>, params: map<string, string>, w: string, n: nat, st: Store)
    returns (v: real)
    requires Ready(sloName, namespace, objective, st)
    requires objective.sli.template == Some(Template("kubernetes-apiserver", labels, params))
    requires ResolvesTo(objective.sli, resolved) && w in RECORDING_WINDOWS && Seconds(w) == n > 0
    ensures var cs := CountersOf(st, "apiserver_request_total");
            IsRate(v, n, Counted(cs, n, All(labels)), Total(cs, n, FailedCodes(labels, params)),
                   Total(cs, n, All(labels)))
    ensures Emits(sloName, namespace, objective, resolved, st, w, Some(v))
  {
    assert "kubernetes-apiserver" != "http-availability" && "kubernetes-apiserver" != "http-latency";
    hide Ready, Emits, IterationOf, IsRate, Total, Counted, All, FailedCodes, StandardQueries, Holds, Carries, ErrorCodes;
    var m := Matcher("code", true, ErrorCodes(params));
    var order :| IterationOf(order, labels) && resolved == StandardQueries("apiserver_request_total", order, m);
    FailedCodesExactly(labels, params);
    v := TemplateSlo(sloName, namespace, objective, "apiserver_request_total", order, labels, m,
                     FailedCodes(labels, params), w, n, st);
  }

  /** Labels that carry the wanted values, and this bound of the histogram bucket. */
  function Bucket(wanted: map<string, string>, bound: string): Labels -> bool {
    l => Carries(l, wanted) && Carries(l, map["le" := bound])
  }

  lemma BucketExactly(order: seq<Matcher>, wanted: map<string, string>, bound: string)
    requires IterationOf(order, wanted)
    ensures forall l: Labels :: HoldsAll(order, l) <==> All(wanted)(l)
    ensures forall l: Labels :: HoldsAll(order + [Matcher("le", false, bound)], l) <==> Bucket(wanted, bound)(l)
  {
    hide HoldsAll, Holds, Carries, IterationOf;
    forall l: Labels
      ensures HoldsAll(order, l) <==> Carries(l, wanted)
      ensures HoldsAll(order + [Matcher("le", false, bound)], l) <==>
                Carries(l, wanted) && Carries(l, map["le" := bound])
    {
      OrderCarries(order, wanted, l);
      NarrowedCarries(order, wanted, Matcher("le", false, bound), l);
      EqualityCarries("le", bound, l);
    }
  }

  lemma EqualityCarries(name: string, value: string, l: Labels)
    ensures Holds(Matcher(name, false, value), l) <==> Carries(l, map[name := value])
  {
  }

  /** What the latency template is worth in a window of n seconds, if anything. */
  ghost predicate IsLatency(v: Option<real>, n: nat, buckets: seq<Counter>, counts: seq<Counter>,
                            wanted: map<string, string>, bound: string)
    requires n > 0
  {
    && (v.Some? <==> Counted(buckets, n, Bucket(wanted, bound)) && Counted(counts, n, All(wanted)))
    && (v.Some? ==>
          IsRate(1.0 - v.value, n, true, Total(buckets, n, Bucket(wanted, bound)), Total(counts, n, All(wanted))))
  }

  lemma LatencyAtLaw(order: seq<Matcher>, wanted: map<string, string>, bound: string, w: string, n: nat, st: Store)
    requires IterationOf(order, wanted) && Seconds(w) == n > 0
    ensures IsLatency(LatencyAt(order, bound, w, st), n, CountersOf(st, "http_request_duration_seconds_bucket"),
                      CountersOf(st, "http_request_duration_seconds_count"), wanted, bound)
  {
    hide HoldsAll, IterationOf, IsRate, Total, Counted, LatencyRate, Seconds;
    var bs, cs := SelectorFor(BUCKET_METRIC, order + [Matcher("le", false, bound)]), SelectorFor(COUNT_METRIC, order);
    LatencyLaw(Increases(bs, w, st), Increases(cs, w, st), n);
    BucketExactly(order, wanted, bound);
    SumIsTotal(bs.matchers, n, CountersOf(st, BUCKET_METRIC), Bucket(wanted, bound));
    SumIsTotal(cs.matchers, n, CountersOf(st, COUNT_METRIC), All(wanted));
  }

  /**
   http-latency: what is left of 1 after the share of the bucket with the template's threshold
   among all requests, when both were counted; and otherwise no series at all.
   */
  lemma LatencySlo(sloName: string, namespace: string, objective: Objective, resolved: Resolved,
                   labels: map<string, string>, params: map<string, string>, w: string, n: nat, st: Store)
    returns (v: Option<real>)
    requires Ready(sloName, namespace, objective, st)
    requires objective.sli.template == Some(Template("http-latency", labels, params))
    requires ResolvesTo(objective.sli, resolved) && w in RECORDING_WINDOWS && Seconds(w) == n > 0
    ensures "threshold" in params
    ensures IsLatency(v, n, CountersOf(st, "http_request_duration_seconds_bucket"),
                      CountersOf(st, "http_request_duration_seconds_count"), labels, params["threshold"])
    ensures Emits(sloName, namespace, objective, resolved, st, w, v)
  {
    assert "http-latency" != "http-availability";
    hide EvalGroup, SloRule, Owned, IterationOf, IsLatency, LatencyRaw, Compilable, LatencyAt, Leaves, Seconds;
    var threshold := params["threshold"];
    var order :| IterationOf(order, labels) && resolved == Resolved([], [], LatencyRaw(order, threshold));
    var i :| 0 <= i < |RECORDING_WINDOWS| && RECORDING_WINDOWS[i] == w;
    LatencyGroupMeaning(sloName, namespace, objective, order, threshold, st);
    LatencyAtLaw(order, labels, threshold, w, n, st);
    v := LatencyErrors(order, threshold, st)[i];
  }
}
