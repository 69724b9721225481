/**
 What PromQL text means: evaluation of an expression over a store of series, and of a rule
 group rule by rule, each rule seeing what the rules before it have just recorded.

 A sample carries its labels without the metric name: the store is indexed by the name, and
 no operation of the fragment looks at it (vector matching ignores it). A counter series
 offers its increase over a window of so many seconds when it has enough points in it.
 A result that is not a number (division by zero, `scalar` of anything but one series) is
 the failure value: NaN and infinities are outside the model.
 */
module PromEval {
  import opened Strings
  import opened PromSyntax

  type Labels = map<string, string>

  datatype Sample = Sample(labels: Labels, v: real)

  datatype Counter = Counter(labels: Labels, increase: map<nat, real>)

  datatype Store = Store(series: map<string, seq<Sample>>, counters: map<string, seq<Counter>>)

  datatype Value = Fail | Scalar(r: real) | Vec(s: seq<Sample>) | Mat(increases: seq<Sample>, seconds: nat)

  // ----- selection -----

  function SeriesOf(st: Store, metric: string): seq<Sample> {
    if metric in st.series then st.series[metric] else []
  }

  function CountersOf(st: Store, metric: string): seq<Counter> {
    if metric in st.counters then st.counters[metric] else []
  }

  function Get(labels: Labels, name: string): string {
    if name in labels then labels[name] else ""
  }

  /** One alternative of a pattern: a dot stands for any character, all else for itself. */
  predicate DotMatch(pattern: string, s: string) {
    |pattern| == |s| && forall i | 0 <= i < |s| :: pattern[i] == '.' || pattern[i] == s[i]
  }

  /** Anchored alternation. */
  predicate RegexMatch(pattern: string, s: string) {
    exists p | p in Split(pattern, '|') :: DotMatch(p, s)
  }

  predicate Holds(m: Matcher, labels: Labels) {
    if m.regex then RegexMatch(m.value, Get(labels, m.name)) else Get(labels, m.name) == m.value
  }

  predicate HoldsAll(ms: seq<Matcher>, labels: Labels) {
    forall m | m in ms :: Holds(m, labels)
  }

  function Pick(ms: seq<Matcher>, s: seq<Sample>): seq<Sample> {
    if |s| == 0 then [] else (if HoldsAll(ms, s[0].labels) then [s[0]] else []) + Pick(ms, s[1..])
  }

  function PickIncreases(ms: seq<Matcher>, seconds: nat, s: seq<Counter>): seq<Sample> {
    if |s| == 0 then [] else
      (if HoldsAll(ms, s[0].labels) && seconds in s[0].increase
       then [Sample(s[0].labels, s[0].increase[seconds])] else [])
      + PickIncreases(ms, seconds, s[1..])
  }

  /** Length of a duration literal such as `30d`; zero when it is not one. */
  function Seconds(dur: string): nat {
    if |dur| < 2 || !AllDigits(dur[..|dur| - 1]) then 0 else
      Decimal(dur[..|dur| - 1]) *
        match dur[|dur| - 1]
        case 's' => 1
        case 'm' => 60
        case 'h' => 3600
        case 'd' => 86400
        case 'w' => 604800
        case _ => 0
  }

  // ----- functions and aggregations -----

  function Sum(s: seq<Sample>): real {
    if |s| == 0 then 0.0 else s[0].v + Sum(s[1..])
  }

  function Max(a: real, b: real): real {
    if a < b then b else a
  }

  function Maximum(s: seq<Sample>): real
    requires |s| > 0
  {
    if |s| == 1 then s[0].v else Max(s[0].v, Maximum(s[1..]))
  }

  function PerSecond(s: seq<Sample>, seconds: nat): seq<Sample>
    requires seconds > 0
  {
    if |s| == 0 then [] else [Sample(s[0].labels, s[0].v / seconds as real)] + PerSecond(s[1..], seconds)
  }

  function ClampMin(s: seq<Sample>, low: real): seq<Sample> {
    if |s| == 0 then [] else [Sample(s[0].labels, Max(s[0].v, low))] + ClampMin(s[1..], low)
  }

  function Negated(s: seq<Sample>): seq<Sample> {
    if |s| == 0 then [] else [Sample(s[0].labels, -s[0].v)] + Negated(s[1..])
  }

  /** `absent` is emitted only around an aggregation without labels, so its result has none. */
  function CallValue(f: string, a: Value): Value {
    match a
    case Vec(s) =>
      if f == "sum" then Vec(if s == [] then [] else [Sample(map[], Sum(s))])
      else if f == "absent" then Vec(if s == [] then [Sample(map[], 1.0)] else [])
      else if f == "scalar" && |s| == 1 then Scalar(s[0].v)
      else Fail
    case Mat(s, seconds) =>
      if f == "rate" && seconds > 0 then Vec(PerSecond(s, seconds))
      else if f == "increase" then Vec(s)
      else Fail
    case Scalar(r) => if f == "vector" then Vec([Sample(map[], r)]) else Fail
    case Fail => Fail
  }

  function Call2Value(f: string, a: Value, b: Value): Value {
    if f == "clamp_min" && a.Vec? && b.Scalar? then Vec(ClampMin(a.s, b.r)) else Fail
  }

  // ----- binary operators -----

  function Arith(op: Operator, a: real, b: real): Option<real> {
    match op
    case Mul => Some(a * b)
    case Div => if b == 0.0 then None else Some(a / b)
    case Add => Some(a + b)
    case Sub => Some(a - b)
    case _ => None
  }

  predicate IsComparison(op: Operator) {
    op == Gt || op == Lt || op == Le
  }

  predicate Compares(op: Operator, a: real, b: real) {
    if op == Gt then a > b else if op == Lt then a < b else a <= b
  }

  /** The operator between one value on each side: the result, or nothing kept by a comparison. */
  function Combine(op: Operator, labels: Labels, a: real, b: real): Option<seq<Sample>> {
    if IsComparison(op) then Some(if Compares(op, a, b) then [Sample(labels, a)] else [])
    else
      match Arith(op, a, b)
      case None => None
      case Some(v) => Some([Sample(labels, v)])
  }

  function WithScalar(op: Operator, s: seq<Sample>, r: real): Option<seq<Sample>> {
    if |s| == 0 then Some([]) else
      match (Combine(op, s[0].labels, s[0].v, r), WithScalar(op, s[1..], r))
      case (Some(x), Some(y)) => Some(x + y)
      case _ => None
  }

  function ScalarWith(op: Operator, r: real, s: seq<Sample>): Option<seq<Sample>> {
    if |s| == 0 then Some([]) else
      match (Combine(op, s[0].labels, r, s[0].v), ScalarWith(op, r, s[1..]))
      case (Some(x), Some(y)) => Some(x + y)
      case _ => None
  }

  /** The labels by which a sample is matched with the other side. */
  function Key(m: Matching, labels: Labels): Labels {
    match m
    case AllLabels => labels
    case OnLabels(ls) => map x | x in labels && x in ls :: labels[x]
  }

  predicate HasPartner(m: Matching, x: Sample, s: seq<Sample>) {
    exists y | y in s :: Key(m, y.labels) == Key(m, x.labels)
  }

  predicate Twins(m: Matching, s: seq<Sample>) {
    exists i, j | 0 <= i < j < |s| :: Key(m, s[i].labels) == Key(m, s[j].labels)
  }

  /** Two series of the left side would match the same series of the right side. */
  predicate SharedPartner(m: Matching, l: seq<Sample>, r: seq<Sample>) {
    exists i, j | 0 <= i < j < |l| :: Key(m, l[i].labels) == Key(m, l[j].labels) && HasPartner(m, l[i], r)
  }

  function PartnerOf(m: Matching, x: Sample, s: seq<Sample>): (y: Sample)
    requires HasPartner(m, x, s)
  {
    if Key(m, s[0].labels) == Key(m, x.labels) then s[0] else PartnerOf(m, x, s[1..])
  }

  function Pairs(op: Operator, m: Matching, l: seq<Sample>, r: seq<Sample>): Option<seq<Sample>> {
    if |l| == 0 then Some([])
    else if !HasPartner(m, l[0], r) then Pairs(op, m, l[1..], r)
    else
      match (Combine(op, Key(m, l[0].labels), l[0].v, PartnerOf(m, l[0], r).v), Pairs(op, m, l[1..], r))
      case (Some(x), Some(y)) => Some(x + y)
      case _ => None
  }

  function Keep(m: Matching, l: seq<Sample>, r: seq<Sample>, partnered: bool): seq<Sample> {
    if |l| == 0 then [] else
      (if HasPartner(m, l[0], r) == partnered then [l[0]] else []) + Keep(m, l[1..], r, partnered)
  }

  function Lifted(v: Option<seq<Sample>>): Value {
    match v
    case None => Fail
    case Some(s) => Vec(s)
  }

  function BinValue(op: Operator, m: Matching, a: Value, b: Value): Value {
    match (a, b)
    case (Vec(l), Vec(r)) =>
      if op == And then Vec(Keep(m, l, r, true))
      else if op == Or then Vec(l + Keep(m, r, l, false))
      else if Twins(m, r) || SharedPartner(m, l, r) then Fail
      else Lifted(Pairs(op, m, l, r))
    case (Vec(l), Scalar(r)) => if m.AllLabels? then Lifted(WithScalar(op, l, r)) else Fail
    case (Scalar(l), Vec(r)) => if m.AllLabels? then Lifted(ScalarWith(op, l, r)) else Fail
    case (Scalar(l), Scalar(r)) =>
      if m.OnLabels? then Fail else
      (match Arith(op, l, r)
       case None => Fail
       case Some(v) => Scalar(v))
    case _ => Fail
  }

  /** Two series that would match one and the same series make an arithmetic or comparing operation fail. */
  lemma AmbiguousFails(op: Operator, m: Matching, x: Sample, y: Sample, z: Sample)
    requires op != And && op != Or && Key(m, y.labels) == Key(m, z.labels)
    ensures BinValue(op, m, Vec([x]), Vec([y, z])) == Fail
    ensures Key(m, x.labels) == Key(m, y.labels) ==> BinValue(op, m, Vec([y, z]), Vec([x])) == Fail
  {
    assert [y, z][0] == y && [y, z][1] == z;
    assert Twins(m, [y, z]);
    if Key(m, x.labels) == Key(m, y.labels) {
      assert x in [x];
      assert HasPartner(m, y, [x]) && HasPartner(m, [y, z][0], [x]);
      assert SharedPartner(m, [y, z], [x]);
    }
  }

  function Eval(e: Expr, st: Store): Value {
    match e
    case Lit(v) => Scalar(v)
    case Neg(a) =>
      (match Eval(a, st)
       case Scalar(r) => Scalar(-r)
       case Vec(s) => Vec(Negated(s))
       case _ => Fail)
    case Select(sel) => Vec(Pick(sel.matchers, SeriesOf(st, sel.metric)))
    case Range(sel, dur) => Mat(PickIncreases(sel.matchers, Seconds(dur), CountersOf(st, sel.metric)), Seconds(dur))
    case Paren(a) => Eval(a, st)
    case Call(f, a) => CallValue(f, Eval(a, st))
    case Call2(f, a, b) => Call2Value(f, Eval(a, st), Eval(b, st))
    case MaxBy(a) =>
      (match Eval(a, st)
       case Vec(s) => Vec(if s == [] then [] else [Sample(map[], Maximum(s))])
       case _ => Fail)
    case Bin(op, m, l, r) => BinValue(op, m, Eval(l, st), Eval(r, st))
  }

  /** The value of a text: of the one tree it parses to. */
  function TextValue(t: Text, st: Store): Value {
    match Parse(t)
    case Error => Fail
    case Done(e, _) => Eval(e, st)
  }

  // ----- rule groups -----

  /** `hold` is how long an alert's condition must last before it is sent. */
  datatype Rule =
    | Recording(record: string, expr: Text, labels: Labels)
    | Alerting(alert: string, expr: Text, labels: Labels, hold: Option<string>)

  predicate Extends(big: Labels, small: Labels) {
    forall x | x in small :: x in big && big[x] == small[x]
  }

  /** The series of a metric that a rule with these labels does not write. */
  function Others(labels: Labels, s: seq<Sample>): seq<Sample> {
    if |s| == 0 then [] else (if Extends(s[0].labels, labels) then [] else [s[0]]) + Others(labels, s[1..])
  }

  function Relabelled(labels: Labels, s: seq<Sample>): seq<Sample> {
    if |s| == 0 then [] else [Sample(s[0].labels + labels, s[0].v)] + Relabelled(labels, s[1..])
  }

  /** What a rule whose expression has value `v` records; nothing when its evaluation fails. */
  function Output(labels: Labels, v: Value): Option<seq<Sample>> {
    var s := match v
      case Vec(s) => Some(Relabelled(labels, s))
      case Scalar(r) => Some([Sample(labels, r)])
      case _ => None;
    if s.Some? && Twins(AllLabels, s.value) then None else s
  }

  /** A recording rule replaces the series it wrote before; an alerting rule records nothing. */
  function EvalRule(rule: Rule, st: Store): Store {
    match rule
    case Alerting(_, _, _, _) => st
    case Recording(record, expr, labels) =>
      match Output(labels, TextValue(expr, st))
      case None => st
      case Some(out) => st.(series := st.series[record := Others(labels, SeriesOf(st, record)) + out])
  }

  function EvalGroup(rules: seq<Rule>, st: Store): Store {
    if |rules| == 0 then st else EvalRule(rules[|rules| - 1], EvalGroup(rules[..|rules| - 1], st))
  }

  /** An alert fires when its expression yields at least one series. */
  predicate Fires(t: Text, st: Store) {
    var v := TextValue(t, st);
    v.Vec? && v.s != []
  }

  // ----- what an expression reads -----

  function Reads(e: Expr): set<string> {
    match e
    case Lit(_) => {}
    case Neg(a) => Reads(a)
    case Select(sel) => {sel.metric}
    case Range(_, _) => {}
    case Paren(a) => Reads(a)
    case Call(_, a) => Reads(a)
    case Call2(_, a, b) => Reads(a) + Reads(b)
    case MaxBy(a) => Reads(a)
    case Bin(_, _, l, r) => Reads(l) + Reads(r)
  }

  /** The recorded series that a rule reads. */
  function RuleReads(rule: Rule): set<string> {
    match Parse(rule.expr)
    case Error => {}
    case Done(e, _) => Reads(e)
  }

  lemma {:induction false} EvalFrame(e: Expr, s1: Store, s2: Store)
    requires s1.counters == s2.counters
    requires forall x | x in Reads(e) :: SeriesOf(s1, x) == SeriesOf(s2, x)
    ensures Eval(e, s1) == Eval(e, s2)
  {
    match e
    case Neg(a) => EvalFrame(a, s1, s2);
    case Paren(a) => EvalFrame(a, s1, s2);
    case Call(_, a) => EvalFrame(a, s1, s2);
    case Call2(_, a, b) => EvalFrame(a, s1, s2); EvalFrame(b, s1, s2);
    case MaxBy(a) => EvalFrame(a, s1, s2);
    case Bin(_, _, l, r) => EvalFrame(l, s1, s2); EvalFrame(r, s1, s2);
    case _ =>
  }

  /**
   The order of a group is sound: each recording rule records a series of its own, and every
   rule reads only source series and series recorded by the rules before it.
   */
  ghost predicate WellOrdered(rules: seq<Rule>) {
    && (forall i, j | 0 <= i < j < |rules| ::
          rules[i].Recording? && rules[j].Recording? ==> rules[i].record != rules[j].record)
    && (forall i, j | 0 <= i <= j < |rules| :: rules[j].Recording? ==> rules[j].record !in RuleReads(rules[i]))
  }

  lemma {:induction false} GroupFrame(rules: seq<Rule>, st: Store, metric: string)
    requires forall r | r in rules :: r.Recording? ==> r.record != metric
    ensures SeriesOf(EvalGroup(rules, st), metric) == SeriesOf(st, metric)
    ensures EvalGroup(rules, st).counters == st.counters
  {
    if |rules| == 0 {
    } else {
      GroupFrame(rules[..|rules| - 1], st, metric);
    }
  }

  lemma RuleFrame(rule: Rule, last: Rule, st: Store)
    requires rule.Recording? && (last.Recording? ==> last.record !in RuleReads(rule))
    ensures TextValue(rule.expr, EvalRule(last, st)) == TextValue(rule.expr, st)
  {
    var p := Parse(rule.expr);
    if p.Done? && last.Recording? {
      EvalFrame(p.value, EvalRule(last, st), st);
    }
  }

  lemma RuleStep(rule: Rule, st: Store, metric: string)
    ensures var out := Output(rule.labels, TextValue(rule.expr, st));
            SeriesOf(EvalRule(rule, st), metric) ==
              if rule.Recording? && metric == rule.record && out.Some?
              then Others(rule.labels, SeriesOf(st, metric)) + out.value
              else SeriesOf(st, metric)
  {
    hide Parse, Output, Others, TextValue;
  }

  /** The equation that a rule states between the series it records and its expression. */
  predicate Settled(rule: Rule, before: Store, after: Store)
    requires rule.Recording?
  {
    var out := Output(rule.labels, TextValue(rule.expr, after));
    SeriesOf(after, rule.record) ==
      if out.Some? then Others(rule.labels, SeriesOf(before, rule.record)) + out.value
      else SeriesOf(before, rule.record)
  }

  /**
   Evaluating a well-ordered group once, rule by rule, solves all its equations at the same
   time: every rule's series is what its expression is worth in the final store.
   */
  lemma {:induction false} GroupSettles(rules: seq<Rule>, st: Store, i: nat)
    requires WellOrdered(rules) && i < |rules| && rules[i].Recording?
    ensures Settled(rules[i], st, EvalGroup(rules, st))
  {
    hide EvalRule, Output, Others, TextValue, RuleReads, SeriesOf;
    var n := |rules| - 1;
    var before := EvalGroup(rules[..n], st);
    RuleFrame(rules[i], rules[n], before);
    RuleStep(rules[n], before, rules[i].record);
    if i < n {
      GroupSettles(rules[..n], st, i);
    } else {
      GroupFrame(rules[..n], st, rules[n].record);
    }
  }

  /** Alerting rules at the end of a group record nothing. */
  lemma {:induction false} AlertsRecordNothing(rules: seq<Rule>, alerts: seq<Rule>, st: Store)
    requires forall r | r in alerts :: r.Alerting?
    ensures EvalGroup(rules + alerts, st) == EvalGroup(rules, st)
  {
    if |alerts| == 0 {
      assert rules + alerts == rules;
    } else {
      var n := |alerts| - 1;
      assert (rules + alerts)[..|rules| + n] == rules + alerts[..n];
      AlertsRecordNothing(rules, alerts[..n], st);
      assert alerts[n] in alerts;
    }
  }

  /** Nor do they disturb its order. */
  lemma {:induction false} AlertsKeepOrder(rules: seq<Rule>, alerts: seq<Rule>)
    requires WellOrdered(rules) && forall r | r in alerts :: r.Alerting?
    ensures WellOrdered(rules + alerts)
  {
    hide RuleReads;
    forall i | |rules| <= i < |rules + alerts| ensures (rules + alerts)[i].Alerting? {
      assert (rules + alerts)[i] in alerts;
    }
  }

  // ----- one series per identity -----

  /** Exactly one series of the metric answers the selector, with this label set and value. */
  predicate Solo(st: Store, metric: string, ms: seq<Matcher>, labels: Labels, v: real) {
    Pick(ms, SeriesOf(st, metric)) == [Sample(labels, v)]
  }

  /** Nobody but the rule with these labels writes series of the metric that the selector takes. */
  ghost predicate Exclusive(st: Store, metric: string, ms: seq<Matcher>, labels: Labels) {
    forall s | s in SeriesOf(st, metric) :: HoldsAll(ms, s.labels) ==> Extends(s.labels, labels)
  }

  lemma {:induction false} PickAppend(ms: seq<Matcher>, a: seq<Sample>, b: seq<Sample>)
    ensures Pick(ms, a + b) == Pick(ms, a) + Pick(ms, b)
  {
    hide HoldsAll;
    if |a| == 0 {
      assert a + b == b;
    } else {
      assert (a + b)[1..] == a[1..] + b;
      PickAppend(ms, a[1..], b);
    }
  }

  lemma {:induction false} PickOthers(ms: seq<Matcher>, labels: Labels, s: seq<Sample>)
    requires forall x | x in s :: HoldsAll(ms, x.labels) ==> Extends(x.labels, labels)
    ensures Pick(ms, Others(labels, s)) == []
  {
    if |s| == 0 {
    } else {
      PickOthers(ms, labels, s[1..]);
      PickAppend(ms, if Extends(s[0].labels, labels) then [] else [s[0]], Others(labels, s[1..]));
    }
  }

  /** A rule whose expression is worth one number leaves exactly one series with its labels. */
  lemma SettledSolo(rule: Rule, before: Store, after: Store, ms: seq<Matcher>, v: real)
    requires rule.Recording? && Settled(rule, before, after)
    requires Exclusive(before, rule.record, ms, rule.labels) && HoldsAll(ms, rule.labels)
    requires var x := TextValue(rule.expr, after);
             || x == Scalar(v)
             || (x.Vec? && |x.s| == 1 && x.s[0].v == v && Extends(rule.labels, x.s[0].labels))
    ensures Solo(after, rule.record, ms, rule.labels, v)
  {
    var x := TextValue(rule.expr, after);
    var prior := SeriesOf(before, rule.record);
    if x.Vec? {
      assert x.s[0].labels + rule.labels == rule.labels;
      assert Relabelled(rule.labels, x.s) == [Sample(rule.labels, v)];
    }
    assert Output(rule.labels, x) == Some([Sample(rule.labels, v)]);
    PickOthers(ms, rule.labels, prior);
    PickAppend(ms, Others(rule.labels, prior), [Sample(rule.labels, v)]);
  }
}
