/** SLI templates: from a template name and labels to the queries or the raw expression of an SLI. */
module Templates {
  import opened Strings
  import opened PromSyntax

  datatype Query = Query(total: Text, error: Text)

  datatype Template = Template(name: string, labels: map<string, string>, params: map<string, string>)

  datatype Sli = Sli(query: Option<Query>, template: Option<Template>)

  /** Either two metric selectors, or, when `raw` is not empty, a whole expression with a window placeholder. */
  datatype Resolved = Resolved(total: Text, error: Text, raw: Text)

  const PLACEHOLDER := "{{window}}"

  /** strings.Join for pieces of PromQL text. */
  function JoinText(parts: seq<Text>, sep: Text): Text {
    if |parts| == 0 then [] else
    if |parts| == 1 then parts[0] else JoinText(parts[..|parts| - 1], sep) + sep + parts[|parts| - 1]
  }

  /** strings.ReplaceAll of the placeholder by a window. */
  function Instantiate(raw: Text, window: string): Text {
    if |raw| == 0 then [] else
      [if raw[0] == TDur(PLACEHOLDER) then TDur(window) else raw[0]] + Instantiate(raw[1..], window)
  }

  /** `ms` lists the labels of the map, each once, in the order of some iteration over the map. */
  ghost predicate IterationOf(ms: seq<Matcher>, labels: map<string, string>) {
    && (forall m | m in ms :: !m.regex && m.name in labels && labels[m.name] == m.value)
    && (forall x | x in labels :: Matcher(x, false, labels[x]) in ms)
    && |ms| == |labels|
  }

  lemma {:induction false} MatchersTextSnoc(ms: seq<Matcher>, m: Matcher)
    ensures MatchersText(ms + [m]) == if ms == [] then MatcherText(m) else MatchersText(ms) + [Comma] + MatcherText(m)
  {
    if |ms| == 1 {
      assert (ms + [m])[1..] == [m];
    } else if |ms| > 1 {
      assert (ms + [m])[1..] == ms[1..] + [m];
      MatchersTextSnoc(ms[1..], m);
    }
  }

  /** Go iterates over a map in an arbitrary order: any order may come out. */
  method BuildLabelSelector(labels: map<string, string>) returns (text: Text)
    ensures exists order :: IterationOf(order, labels) && text == MatchersText(order)
  {
    ghost var order: seq<Matcher> := [];
    if |labels| == 0 {
      assert IterationOf(order, labels);
      return [];
    }
    var parts: seq<Text> := [];
    var todo := labels.Keys;
    while todo != {}
      invariant todo <= labels.Keys && |order| + |todo| == |labels.Keys|
      invariant forall m | m in order :: !m.regex && m.name in labels && labels[m.name] == m.value
      invariant forall x | x in labels && x !in todo :: Matcher(x, false, labels[x]) in order
      invariant |parts| == |order| && JoinText(parts, [Comma]) == MatchersText(order)
      decreases |todo|
    {
      var k :| k in todo;
      MatchersTextSnoc(order, Matcher(k, false, labels[k]));
      assert (parts + [MatcherText(Matcher(k, false, labels[k]))])[..|parts|] == parts;
      parts := parts + [[TIdent(k), Eq, TStr(labels[k])]];
      order := order + [Matcher(k, false, labels[k])];
      todo := todo - {k};
    }
    text := JoinText(parts, [Comma]);
    assert IterationOf(order, labels);
  }

  function SelectorFor(metric: string, ms: seq<Matcher>): Selector {
    Selector(metric, ms != [], ms)
  }

  function StandardQueries(metric: string, ms: seq<Matcher>, failed: Matcher): Resolved {
    Resolved(SelectorText(SelectorFor(metric, ms)), SelectorText(SelectorFor(metric, ms + [failed])), [])
  }

  lemma PlainSelectorText(metric: string, ms: seq<Matcher>)
    ensures MatchersText(ms) == [] <==> ms == []
    ensures SelectorText(SelectorFor(metric, ms)) ==
            if ms == [] then [TIdent(metric)] else [TIdent(metric), LBrace] + MatchersText(ms) + [RBrace]
  {
  }

  lemma NarrowedSelectorText(metric: string, ms: seq<Matcher>, m: Matcher)
    ensures SelectorText(SelectorFor(metric, ms + [m])) ==
            if ms == [] then [TIdent(metric), LBrace] + MatcherText(m) + [RBrace]
            else [TIdent(metric), LBrace] + (MatchersText(ms) + [Comma] + MatcherText(m)) + [RBrace]
  {
    hide MatcherText, MatchersText;
    MatchersTextSnoc(ms, m);
    assert ms + [m] != [];
  }

  /** The text of the two queries of a template, with its special case for no labels. */
  lemma StandardText(metric: string, order: seq<Matcher>, name: string, codes: string, sel: Text)
    requires sel == MatchersText(order)
    ensures StandardQueries(metric, order, Matcher(name, true, codes)) ==
            if sel == [] then
              Resolved([TIdent(metric)], [TIdent(metric), LBrace, TIdent(name), EqRegex, TStr(codes), RBrace], [])
            else
              Resolved([TIdent(metric), LBrace] + sel + [RBrace],
                       [TIdent(metric), LBrace] + sel + [Comma, TIdent(name), EqRegex, TStr(codes), RBrace], [])
  {
    hide SelectorText, MatchersText, SelectorFor;
    PlainSelectorText(metric, order);
    NarrowedSelectorText(metric, order, Matcher(name, true, codes));
  }

  const HTTP_METRIC := "http_requests_total"
  const APISERVER_METRIC := "apiserver_request_total"
  const BUCKET_METRIC := "http_request_duration_seconds_bucket"
  const COUNT_METRIC := "http_request_duration_seconds_count"

  method HttpAvailabilityTemplate(labels: map<string, string>) returns (r: Resolved)
    ensures exists order ::
              IterationOf(order, labels) && r == StandardQueries(HTTP_METRIC, order, Matcher("status", true, "5.."))
  {
    hide StandardQueries, MatchersText, IterationOf, SelectorText;
    var sel := BuildLabelSelector(labels);
    ghost var order :| IterationOf(order, labels) && sel == MatchersText(order);
    var total := [TIdent(HTTP_METRIC), LBrace] + sel + [RBrace];
    var error := [TIdent(HTTP_METRIC), LBrace] + sel + [Comma, TIdent("status"), EqRegex, TStr("5.."), RBrace];
    if sel == [] {
      total := [TIdent(HTTP_METRIC)];
      error := [TIdent(HTTP_METRIC), LBrace, TIdent("status"), EqRegex, TStr("5.."), RBrace];
    }
    StandardText(HTTP_METRIC, order, "status", "5..", sel);
    r := Resolved(total, error, []);
  }

  method KubernetesAPIServerTemplate(labels: map<string, string>, params: map<string, string>)
    returns (r: Resolved)
    ensures exists order ::
              && IterationOf(order, labels)
              && r == StandardQueries(APISERVER_METRIC, order, Matcher("code", true, ErrorCodes(params)))
  {
    hide StandardQueries, MatchersText, IterationOf, SelectorText;
    var sel := BuildLabelSelector(labels);
    ghost var order :| IterationOf(order, labels) && sel == MatchersText(order);
    var codes := ErrorCodes(params);
    StandardText(APISERVER_METRIC, order, "code", codes, sel);
    if sel == [] {
      r := Resolved([TIdent(APISERVER_METRIC)],
                    [TIdent(APISERVER_METRIC), LBrace, TIdent("code"), EqRegex, TStr(codes), RBrace], []);
    } else {
      r := Resolved([TIdent(APISERVER_METRIC), LBrace] + sel + [RBrace],
                    [TIdent(APISERVER_METRIC), LBrace] + sel + [Comma, TIdent("code"), EqRegex, TStr(codes), RBrace],
                    []);
    }
  }

  function ErrorCodes(params: map<string, string>): string {
    if "errorCodes" in params && params["errorCodes"] != "" then params["errorCodes"] else "5.."
  }

  const EPSILON := 0.000000000001

  /** Error rate 1 - fast / total, with the selectors of the two series left open. */
  function LatencyText(bucket: Text, count: Text): Text {
    [TNum(1.0), TOp(Sub), LPar, TIdent("sum"), LPar, TIdent("rate"), LPar]
    + bucket
    + [LBrack, TDur(PLACEHOLDER), RBrack, RPar, RPar, TOp(Div), TIdent("clamp_min"), LPar,
       TIdent("sum"), LPar, TIdent("rate"), LPar]
    + count
    + [LBrack, TDur(PLACEHOLDER), RBrack, RPar, RPar, Comma, TNum(EPSILON), RPar, RPar]
  }

  function LatencyRaw(ms: seq<Matcher>, threshold: string): Text {
    LatencyText(SelectorText(SelectorFor(BUCKET_METRIC, ms + [Matcher("le", false, threshold)])),
                SelectorText(SelectorFor(COUNT_METRIC, ms)))
  }

  lemma LatencySelectors(order: seq<Matcher>, threshold: string, sel: Text)
    requires sel == MatchersText(order)
    ensures SelectorText(SelectorFor(COUNT_METRIC, order))
         == if sel == [] then [TIdent(COUNT_METRIC)] else [TIdent(COUNT_METRIC), LBrace] + sel + [RBrace]
    ensures var le: Text := [TIdent("le"), Eq, TStr(threshold)];
            var whole: Text := if sel == [] then le else sel + [Comma, TIdent("le"), Eq, TStr(threshold)];
            SelectorText(SelectorFor(BUCKET_METRIC, order + [Matcher("le", false, threshold)]))
            == [TIdent(BUCKET_METRIC), LBrace] + whole + [RBrace]
  {
    hide SelectorText, MatchersText, SelectorFor;
    PlainSelectorText(COUNT_METRIC, order);
    NarrowedSelectorText(BUCKET_METRIC, order, Matcher("le", false, threshold));
  }

  method HttpLatencyTemplate(labels: map<string, string>, params: map<string, string>)
    returns (r: Result<Resolved>)
    ensures r.Ok? <==> "threshold" in params && params["threshold"] != ""
    ensures r.Ok? ==> exists order ::
              IterationOf(order, labels) && r.value == Resolved([], [], LatencyRaw(order, params["threshold"]))
  {
    hide MatchersText, IterationOf, SelectorText, SelectorFor, LatencyText;
    if "threshold" !in params || params["threshold"] == "" {
      return Err("http-latency template requires 'threshold' param");
    }
    var threshold := params["threshold"];
    var sel := BuildLabelSelector(labels);
    ghost var order :| IterationOf(order, labels) && sel == MatchersText(order);
    var bucketSelector := sel + [Comma, TIdent("le"), Eq, TStr(threshold)];
    if sel == [] {
      bucketSelector := [TIdent("le"), Eq, TStr(threshold)];
    }
    var bucket := [TIdent(BUCKET_METRIC), LBrace] + bucketSelector + [RBrace];
    var count := [TIdent(COUNT_METRIC), LBrace] + sel + [RBrace];
    if sel == [] {
      count := [TIdent(COUNT_METRIC)];
    }
    LatencySelectors(order, threshold, sel);
    r := Ok(Resolved([], [], LatencyText(bucket, count)));
  }

  /** What the queries of an SLI may resolve to: one result for each order of the label map. */
  ghost predicate ResolvesTo(sli: Sli, r: Resolved) {
    match sli.template
    case None => sli.query.Some? && r == Resolved(sli.query.value.total, sli.query.value.error, [])
    case Some(t) =>
      exists order :: IterationOf(order, t.labels) &&
        if t.name == "http-availability" then
          r == StandardQueries(HTTP_METRIC, order, Matcher("status", true, "5.."))
        else if t.name == "http-latency" then
          "threshold" in t.params && r == Resolved([], [], LatencyRaw(order, t.params["threshold"]))
        else
          r == StandardQueries(APISERVER_METRIC, order, Matcher("code", true, ErrorCodes(t.params)))
  }

  /** The SLI names a known template with the parameters it needs, or carries its own queries. */
  predicate Resolvable(sli: Sli) {
    match sli.template
    case None => sli.query.Some?
    case Some(t) =>
      || t.name == "http-availability"
      || t.name == "kubernetes-apiserver"
      || (t.name == "http-latency" && "threshold" in t.params && t.params["threshold"] != "")
  }

  method Resolve(sli: Sli) returns (r: Result<Resolved>)
    ensures r.Ok? <==> Resolvable(sli)
    ensures r.Err? <==>
              if sli.template.None? then sli.query.None? else
                var t := sli.template.value;
                || t.name !in ["http-availability", "http-latency", "kubernetes-apiserver"]
                || (t.name == "http-latency" && ("threshold" !in t.params || t.params["threshold"] == ""))
    ensures r.Ok? ==> ResolvesTo(sli, r.value)
  {
    if sli.template.Some? {
      var t := sli.template.value;
      if t.name == "http-availability" {
        var q := HttpAvailabilityTemplate(t.labels);
        r := Ok(q);
      } else if t.name == "http-latency" {
        r := HttpLatencyTemplate(t.labels, t.params);
      } else if t.name == "kubernetes-apiserver" {
        var q := KubernetesAPIServerTemplate(t.labels, t.params);
        r := Ok(q);
      } else {
        r := Err("unknown template: " + t.name);
      }
    } else if sli.query.None? {
      r := Err("either template or query must be specified");
    } else {
      r := Ok(Resolved(sli.query.value.total, sli.query.value.error, []));
    }
  }
}
