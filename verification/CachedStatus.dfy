/** The status as the controller really computes it: every query goes through the cache. */
module CachedStatus {
  import opened Strings
  import opened PromEval
  import opened RuleGenerator
  import opened Reconciler
  import opened StatusAlerts
  import opened Cache
  import B = ErrorBudget

  // ----- the keys of the cache -----

  /** The text of a query, which is the key of the cache, read from its end. */
  function FromNamespace(s: SloInfo): string {
    ",slo_namespace=\"" + s.namespace + "\"}"
  }

  function FromName(s: SloInfo): string {
    ",slo_name=\"" + s.name + ['"'] + FromNamespace(s)
  }

  function FromObjective(s: SloInfo): string {
    "objective_name=\"" + s.objective + ['"'] + FromName(s)
  }

  function QueryString(metric: string, s: SloInfo): string {
    metric + ['{'] + FromObjective(s)
  }

  lemma NamespaceLast(s: SloInfo, t: SloInfo)
    ensures FromNamespace(s) == FromNamespace(t) <==> s.namespace == t.namespace
  {
    var a, b := FromNamespace(s), FromNamespace(t);
    assert a[16..|a| - 2] == s.namespace && b[16..|b| - 2] == t.namespace;
  }

  /** Entries of the cache are kept apart: by metric, and by every one of the three names. */
  lemma QueriesApart(m: string, n: string, s: SloInfo, t: SloInfo)
    requires '{' !in m && '{' !in n
    requires '"' !in s.objective && '"' !in t.objective && '"' !in s.name && '"' !in t.name
    ensures QueryString(m, s) == QueryString(n, t) <==> m == n && s == t
  {
    assert "" + m == m && "" + n == n;
    CutApart("", '{', m, FromObjective(s), n, FromObjective(t));
    CutApart("objective_name=\"", '"', s.objective, FromName(s), t.objective, FromName(t));
    CutApart(",slo_name=\"", '"', s.name, FromNamespace(s), t.name, FromNamespace(t));
    NamespaceLast(s, t);
  }

  /** What the backend gave for queries about the SLO is what Prometheus held at that instant. */
  ghost predicate Honest(s: State, slo: SloInfo, history: int -> Store) {
    forall g, metric | g in s.given && g.query == QueryString(metric, slo) ::
      QueryAnswer(history(g.at), metric, slo) == Some(g.value)
  }

  /** From look-up to store no call takes longer than `delay`. */
  ghost predicate Prompt(s: State, delay: int) {
    forall c | c in s.calls && s.calls[c].Fresh? :: s.calls[c].at - s.calls[c].looked <= delay
  }

  // ----- how old an answer may be -----

  /** Every write to the cache is that of a finished call. */
  ghost predicate StoredFresh(s: State) {
    forall w | w in s.stored ::
      w.call in s.calls && s.calls[w.call].Fresh? && s.calls[w.call].query == w.query
      && s.calls[w.call].at == w.at && s.calls[w.call].value == w.value
  }

  lemma {:induction false} AllStoredFresh(trace: seq<State>, steps: seq<Step>, ttl: int, i: nat)
    requires Behaviour(trace, steps, ttl) && i < |trace|
    ensures StoredFresh(trace[i])
  {
    if i == 0 {
    } else {
      AllStoredFresh(trace, steps, ttl, i - 1);
      assert Enabled(trace[i - 1], steps[i - 1]) && trace[i] == Next(trace[i - 1], steps[i - 1], ttl);
    }
  }

  /** The backend gave the value for the query between the two instants. */
  ghost predicate GivenWithin(s: State, query: string, value: real, from: int, to: int) {
    exists g :: g in s.given && g.query == query && g.value == value && from <= g.at <= to
  }

  /** A finished call's answer was given at most `delay` before; a hit's at most `ttl + delay` before. */
  lemma AnswerAge(trace: seq<State>, steps: seq<Step>, ttl: nat, delay: nat, i: nat, c: int)
    requires Behaviour(trace, steps, ttl) && i < |trace| && Prompt(trace[i], delay)
    requires c in trace[i].calls && Answered(trace[i].calls[c]).Some?
    ensures var s := trace[i]; var (v, at) := Answered(s.calls[c]).value;
            GivenWithin(s, s.calls[c].query, v, at - ttl - delay, at)
  {
    hide Behaviour, Inv;
    var s := trace[i];
    AnswersGenuine(trace, steps, ttl, i, c);
    AllStoredFresh(trace, steps, ttl, i);
    if s.calls[c].Hit? {
      var w :| w in s.stored && w.query == s.calls[c].query && w.value == s.calls[c].value
               && s.calls[c].at - ttl <= w.at <= s.calls[c].at;
      AnswersGenuine(trace, steps, ttl, i, w.call);
    }
  }

  // ----- a whole reconciliation through the cache -----

  /** Prometheus gave this answer to the query at some instant between the two. */
  ghost predicate Recent(a: Option<real>, metric: string, slo: SloInfo, history: int -> Store, from: int, to: int) {
    exists t | from <= t <= to :: a == QueryAnswer(history(t), metric, slo)
  }

  /** The answer is that of some call for the query, or else Prometheus had none while the reconciliation ran. */
  ghost predicate Through(a: Option<real>, metric: string, slo: SloInfo, s: State, history: int -> Store,
                          from: int, to: int)
  {
    match a
    case Some(v) =>
      exists c | c in s.calls && s.calls[c].query == QueryString(metric, slo) ::
        Answered(s.calls[c]).Some? && Answered(s.calls[c]).value.0 == v && from <= Answered(s.calls[c]).value.1 <= to
    case None => exists t | from <= t <= to :: QueryAnswer(history(t), metric, slo) == None
  }

  lemma ThroughRecent(trace: seq<State>, steps: seq<Step>, ttl: nat, delay: nat, i: nat, history: int -> Store,
                      a: Option<real>, metric: string, slo: SloInfo, from: int, to: int)
    requires Behaviour(trace, steps, ttl) && i < |trace| && Prompt(trace[i], delay) && Honest(trace[i], slo, history)
    requires Through(a, metric, slo, trace[i], history, from, to)
    ensures Recent(a, metric, slo, history, from - ttl - delay, to)
  {
    hide Behaviour, QueryAnswer, QueryString, Prompt;
    var s := trace[i];
    if a.Some? {
      var c :| c in s.calls && s.calls[c].query == QueryString(metric, slo) && Answered(s.calls[c]).Some?
               && Answered(s.calls[c]).value.0 == a.value && from <= Answered(s.calls[c]).value.1 <= to;
      AnswerAge(trace, steps, ttl, delay, i, c);
      var at := Answered(s.calls[c]).value.1;
      var g :| g in s.given && g.query == QueryString(metric, slo) && g.value == a.value
               && at - ttl - delay <= g.at <= at;
      assert QueryAnswer(history(g.at), metric, slo) == Some(g.value);
    }
  }

  /** The queries of one reconciliation, in the order in which the controller gives up on them. */
  ghost predicate AskedThrough(a: Answers, slo: SloInfo, window: string, s: State, history: int -> Store,
                               from: int, to: int)
  {
    && |a.shorts| == |a.longs| == |PRESETS|
    && Through(a.errorRate5m, "slok:sli_error_rate:5m", slo, s, history, from, to)
    && (a.errorRate5m.Some? ==> Through(a.windowed, "slok:burn_rate:" + window, slo, s, history, from, to))
    && (a.errorRate5m.Some? && a.windowed.Some? && B.ParseWindow(window).Ok? ==>
          forall i | 0 <= i < |PRESETS| ::
            && Through(a.shorts[i], "slok:burn_rate:" + PRESETS[i].0, slo, s, history, from, to)
            && (a.shorts[i].Some? ==> Through(a.longs[i], "slok:burn_rate:" + PRESETS[i].1, slo, s, history, from, to)))
  }

  /** Nothing that the controller asks about the SLO has changed between the two instants. */
  ghost predicate Steady(slo: SloInfo, window: string, history: int -> Store, from: int, to: int) {
    forall t | from <= t <= to :: AnswersFrom(history(t), slo, window) == AnswersFrom(history(to), slo, window)
  }

  /** Only the presets whose first query was answered look at the second. */
  lemma {:induction false} SameCollected(presets: seq<(string, string)>, shorts: seq<Option<real>>,
                                         a: seq<Option<real>>, b: seq<Option<real>>)
    requires |shorts| == |a| == |b| == |presets|
    requires forall i | 0 <= i < |presets| :: shorts[i].Some? ==> a[i] == b[i]
    ensures Collected(presets, shorts, a) == Collected(presets, shorts, b)
  {
    if |presets| == 0 {
    } else {
      var n := |presets| - 1;
      SameCollected(presets[..n], shorts[..n], a[..n], b[..n]);
    }
  }

  /** Answers that agree as far as the controller asks give the same status. */
  lemma SameStatus(window: string, a: Answers, b: Answers)
    requires |a.shorts| == |a.longs| == |b.shorts| == |b.longs| == |PRESETS|
    requires a.errorRate5m == b.errorRate5m && (a.errorRate5m.Some? ==> a.windowed == b.windowed)
    requires a.errorRate5m.Some? && a.windowed.Some? && B.ParseWindow(window).Ok? ==>
               a.shorts == b.shorts && forall i | 0 <= i < |PRESETS| :: a.shorts[i].Some? ==> a.longs[i] == b.longs[i]
    ensures StatusFor(window, a) == StatusFor(window, b)
  {
    hide B.ParseWindow, B.BudgetFor, B.DetermineStatus, Collected;
    if a.errorRate5m.Some? && a.windowed.Some? && B.ParseWindow(window).Ok? {
      SameCollected(PRESETS, a.shorts, a.longs, b.longs);
    }
  }

  /** An answer through the cache is the current one, when the answers have been steady for long enough. */
  lemma SteadyAnswer(trace: seq<State>, steps: seq<Step>, ttl: nat, delay: nat, i: nat, history: int -> Store,
                     a: Option<real>, metric: string, slo: SloInfo, from: int, to: int)
    requires Behaviour(trace, steps, ttl) && i < |trace| && Prompt(trace[i], delay) && Honest(trace[i], slo, history)
    requires Through(a, metric, slo, trace[i], history, from, to)
    requires forall t | from - ttl - delay <= t <= to ::
               QueryAnswer(history(t), metric, slo) == QueryAnswer(history(to), metric, slo)
    ensures a == QueryAnswer(history(to), metric, slo)
  {
    hide Behaviour, QueryAnswer, Through, Honest, Prompt;
    ThroughRecent(trace, steps, ttl, delay, i, history, a, metric, slo, from, to);
  }

  /**
   The status computed through the cache, under every interleaving with other calls: it is the
   status that a direct look at Prometheus gives, when nothing that is asked has changed since
   the time to live and one call's delay before the reconciliation began.
   */
  lemma CachedStatusIsCurrent(trace: seq<State>, steps: seq<Step>, ttl: nat, delay: nat, i: nat,
                              history: int -> Store, a: Answers, slo: SloInfo, window: string, from: int, to: int)
    requires Behaviour(trace, steps, ttl) && i < |trace| && Prompt(trace[i], delay) && Honest(trace[i], slo, history)
    requires AskedThrough(a, slo, window, trace[i], history, from, to)
    requires Steady(slo, window, history, from - ttl - delay, to)
    ensures StatusFor(window, a) == StatusFor(window, AnswersFrom(history(to), slo, window))
  {
    hide Behaviour, Prompt, Honest, Through, QueryAnswer, StatusFor, B.ParseWindow;
    var now := AnswersFrom(history(to), slo, window);
    SteadyAnswer(trace, steps, ttl, delay, i, history, a.errorRate5m, "slok:sli_error_rate:5m", slo, from, to);
    if a.errorRate5m.Some? {
      SteadyAnswer(trace, steps, ttl, delay, i, history, a.windowed, "slok:burn_rate:" + window, slo, from, to);
    }
    if a.errorRate5m.Some? && a.windowed.Some? && B.ParseWindow(window).Ok? {
      forall j | 0 <= j < |PRESETS|
        ensures a.shorts[j] == now.shorts[j] && (a.shorts[j].Some? ==> a.longs[j] == now.longs[j])
      {
        SteadyPreset(slo, window, history, from - ttl - delay, to, j);
        SteadyAnswer(trace, steps, ttl, delay, i, history, a.shorts[j], "slok:burn_rate:" + PRESETS[j].0, slo, from, to);
        if a.shorts[j].Some? {
          SteadyAnswer(trace, steps, ttl, delay, i, history, a.longs[j], "slok:burn_rate:" + PRESETS[j].1, slo, from, to);
        }
      }
    }
    SameStatus(window, a, now);
  }

  lemma SteadyPreset(slo: SloInfo, window: string, history: int -> Store, from: int, to: int, j: nat)
    requires Steady(slo, window, history, from, to) && j < |PRESETS|
    ensures forall t | from <= t <= to ::
              && QueryAnswer(history(t), "slok:burn_rate:" + PRESETS[j].0, slo)
                 == QueryAnswer(history(to), "slok:burn_rate:" + PRESETS[j].0, slo)
              && QueryAnswer(history(t), "slok:burn_rate:" + PRESETS[j].1, slo)
                 == QueryAnswer(history(to), "slok:burn_rate:" + PRESETS[j].1, slo)
  {
    forall t | from <= t <= to
      ensures QueryAnswer(history(t), "slok:burn_rate:" + PRESETS[j].0, slo)
           == AnswersFrom(history(to), slo, window).shorts[j]
      ensures QueryAnswer(history(t), "slok:burn_rate:" + PRESETS[j].1, slo)
           == AnswersFrom(history(to), slo, window).longs[j]
    {
      assert AnswersFrom(history(t), slo, window) == AnswersFrom(history(to), slo, window);
      assert AnswersFrom(history(t), slo, window).shorts[j]
          == QueryAnswer(history(t), "slok:burn_rate:" + PRESETS[j].0, slo);
    }
  }
}
