/** The correlation engine: filter the changes around a spike, score them, sort them, summarize. */
module Engine {
  import opened Strings
  import opened Collector

  const MINUTE: int := 60_000_000_000
  const WINDOW_BEFORE: int := 30 * MINUTE
  const WINDOW_AFTER: int := 10 * MINUTE
  const HIGH_WINDOW: int := 15 * MINUTE
  const MEDIUM_WINDOW: int := 60 * MINUTE

  datatype WorkloadSelector = WorkloadSelector(labels: map<string, string>, namespaces: seq<string>)

  datatype Confidence = High | Medium | Low

  datatype Scored = Scored(record: ChangeRecord, confidence: Confidence, score: int)

  datatype CorrelatedEvent = CorrelatedEvent(
    kind: string, name: string, namespace: string, timestamp: int,
    changeType: string, change: string, actor: string, confidence: Confidence)

  datatype Summary =
    | NoChanges(severity: string)
    | NoneHigh(severity: string, total: nat)
    | LikelyCause(severity: string, kind: string, namespace: string, name: string, diff: string)
    | Several(severity: string, count: nat, named: seq<(string, string)>)

  datatype Correlation = Correlation(
    detectedAt: int, severity: string, windowStart: int, windowEnd: int,
    events: seq<CorrelatedEvent>, summary: Summary, eventCount: nat)

  // ----- filtering -----

  predicate Admits(r: ChangeRecord, sloNamespace: string, selector: Option<WorkloadSelector>) {
    match selector
    case None => r.namespace == sloNamespace
    case Some(w) =>
      && (if w.namespaces == [] then r.namespace == sloNamespace else r.namespace in w.namespaces)
      && (r.kind == "Event" || LabelsMatch(r.labels, w.labels))
  }

  function Admitted(s: seq<ChangeRecord>, sloNamespace: string, selector: Option<WorkloadSelector>): seq<ChangeRecord> {
    if |s| == 0 then [] else
      var n := |s| - 1;
      Admitted(s[..n], sloNamespace, selector) + if Admits(s[n], sloNamespace, selector) then [s[n]] else []
  }

  lemma AdmittedSnoc(s: seq<ChangeRecord>, i: nat, sloNamespace: string, selector: Option<WorkloadSelector>)
    requires i < |s|
    ensures Admitted(s[..i + 1], sloNamespace, selector)
         == Admitted(s[..i], sloNamespace, selector) + if Admits(s[i], sloNamespace, selector) then [s[i]] else []
  {
    assert s[..i + 1][..i] == s[..i];
  }

  method AllowedNamespaces(sloNamespace: string, w: WorkloadSelector) returns (allowed: set<string>)
    ensures forall x :: x in allowed <==> if w.namespaces == [] then x == sloNamespace else x in w.namespaces
  {
    allowed := {};
    if |w.namespaces| > 0 {
      for i := 0 to |w.namespaces|
        invariant forall x :: x in allowed <==> x in w.namespaces[..i]
      {
        allowed := allowed + {w.namespaces[i]};
      }
      assert w.namespaces[..|w.namespaces|] == w.namespaces;
    } else {
      allowed := {sloNamespace};
    }
  }

  method FilterBySelector(changes: seq<ChangeRecord>, sloNamespace: string, selector: Option<WorkloadSelector>)
    returns (filtered: seq<ChangeRecord>)
    ensures filtered == Admitted(changes, sloNamespace, selector)
  {
    filtered := [];
    if selector.None? {
      for i := 0 to |changes|
        invariant filtered == Admitted(changes[..i], sloNamespace, selector)
      {
        AdmittedSnoc(changes, i, sloNamespace, selector);
        if changes[i].namespace == sloNamespace {
          filtered := filtered + [changes[i]];
        }
      }
      assert changes[..|changes|] == changes;
      return;
    }
    var w := selector.value;
    var allowed := AllowedNamespaces(sloNamespace, w);
    for i := 0 to |changes|
      invariant filtered == Admitted(changes[..i], sloNamespace, selector)
    {
      AdmittedSnoc(changes, i, sloNamespace, selector);
      var change := changes[i];
      if change.namespace !in allowed {
        continue;
      }
      if |w.labels| > 0 {
        if change.kind == "Event" {
          filtered := filtered + [change];
          continue;
        }
        var matches := MatchLabels(change.labels, w.labels);
        if !matches {
          continue;
        }
      }
      filtered := filtered + [change];
    }
    assert changes[..|changes|] == changes;
  }

  // ----- scoring -----

  /** strings.Contains. */
  predicate Contains(s: string, part: string) {
    part <= s || (|s| > 0 && Contains(s[1..], part))
  }

  predicate Alarming(diff: string) {
    Contains(diff, "OOMKilled") || Contains(diff, "CrashLoopBackOff")
  }

  function Gap(r: ChangeRecord, trigger: int): int {
    if trigger - r.timestamp < 0 then r.timestamp - trigger else trigger - r.timestamp
  }

  function TimePoints(gap: int): int {
    if gap <= HIGH_WINDOW then 30 else if gap <= MEDIUM_WINDOW then 15 else 5
  }

  function KindPoints(r: ChangeRecord): int {
    if r.kind == "Deployment" then 25
    else if r.kind == "ConfigMap" then 20
    else if r.kind == "Secret" then 15
    else if r.kind == "Event" then (if Alarming(r.diff) then 10 else -5)
    else 0
  }

  function Score(r: ChangeRecord, trigger: int, sloNamespace: string, labels: map<string, string>): int {
    TimePoints(Gap(r, trigger))
    + (if r.namespace == sloNamespace then 20 else 0)
    + KindPoints(r)
    + (if |labels| > 0 && LabelsMatch(r.labels, labels) then 30 else 0)
  }

  function Level(score: int): Confidence {
    if score >= 50 then High else if score >= 25 then Medium else Low
  }

  function ScoreOf(r: ChangeRecord, trigger: int, sloNamespace: string, labels: map<string, string>): Scored {
    var score := Score(r, trigger, sloNamespace, labels);
    Scored(r, Level(score), score)
  }

  function ScoreAll(s: seq<ChangeRecord>, trigger: int, sloNamespace: string, labels: map<string, string>)
    : (scored: seq<Scored>)
    ensures |scored| == |s|
    ensures forall i | 0 <= i < |s| :: scored[i] == ScoreOf(s[i], trigger, sloNamespace, labels)
  {
    if |s| == 0 then [] else
      ScoreAll(s[..|s| - 1], trigger, sloNamespace, labels) + [ScoreOf(s[|s| - 1], trigger, sloNamespace, labels)]
  }

  method ScoreChange(change: ChangeRecord, trigger: int, sloNamespace: string, labels: map<string, string>)
    returns (scored: Scored)
    ensures scored == ScoreOf(change, trigger, sloNamespace, labels)
  {
    var score := 0;
    var timeDiff := trigger - change.timestamp;
    if timeDiff < 0 {
      timeDiff := -timeDiff;
    }
    if timeDiff <= HIGH_WINDOW {
      score := score + 30;
    } else if timeDiff <= MEDIUM_WINDOW {
      score := score + 15;
    } else {
      score := score + 5;
    }
    if change.namespace == sloNamespace {
      score := score + 20;
    }
    score := score + KindPoints(change);
    if |labels| > 0 {
      var matches := MatchLabels(change.labels, labels);
      if matches {
        score := score + 30;
      }
    }
    var confidence: Confidence;
    if score >= 50 {
      confidence := High;
    } else if score >= 25 {
      confidence := Medium;
    } else {
      confidence := Low;
    }
    scored := Scored(change, confidence, score);
  }

  method ScoreChanges(changes: seq<ChangeRecord>, trigger: int, sloNamespace: string, labels: map<string, string>)
    returns (scored: seq<Scored>)
    ensures scored == ScoreAll(changes, trigger, sloNamespace, labels)
  {
    scored := [];
    for i := 0 to |changes|
      invariant scored == ScoreAll(changes[..i], trigger, sloNamespace, labels)
    {
      assert changes[..i + 1][..i] == changes[..i];
      var s := ScoreChange(changes[i], trigger, sloNamespace, labels);
      scored := scored + [s];
    }
    assert changes[..|changes|] == changes;
  }

  // ----- sorting -----

  predicate Descending(s: seq<Scored>) {
    forall i, j | 0 <= i < j < |s| :: s[i].score >= s[j].score
  }

  /** Where `x` goes in a descending sequence. */
  function Position(s: seq<Scored>, x: Scored): (k: nat)
    requires Descending(s)
    ensures k <= |s|
    ensures forall i | 0 <= i < k :: s[i].score >= x.score
    ensures forall i | k <= i < |s| :: s[i].score <= x.score
  {
    if |s| == 0 || s[|s| - 1].score >= x.score then |s| else Position(s[..|s| - 1], x)
  }

  lemma Inserted(s: seq<Scored>, x: Scored, k: nat)
    requires Descending(s) && k == Position(s, x)
    ensures var t := s[..k] + [x] + s[k..]; Descending(t) && multiset(t) == multiset(s) + multiset{x}
  {
    assert s == s[..k] + s[k..];
  }

  /**
   sort.Slice is not stable: callers may rely only on a descending permutation, which is all
   that the postcondition offers.
   */
  method SortByScore(scored: seq<Scored>) returns (sorted: seq<Scored>)
    ensures Descending(sorted) && multiset(sorted) == multiset(scored)
  {
    sorted := [];
    for i := 0 to |scored|
      invariant Descending(sorted) && multiset(sorted) == multiset(scored[..i])
    {
      var k := Position(sorted, scored[i]);
      Inserted(sorted, scored[i], k);
      assert scored[..i + 1] == scored[..i] + [scored[i]];
      sorted := sorted[..k] + [scored[i]] + sorted[k..];
    }
    assert scored[..|scored|] == scored;
  }

  // ----- the summary -----

  function HighOnes(s: seq<Scored>): seq<Scored> {
    if |s| == 0 then [] else HighOnes(s[..|s| - 1]) + if s[|s| - 1].confidence == High then [s[|s| - 1]] else []
  }

  function Names(s: seq<Scored>): (names: seq<(string, string)>)
    ensures |names| == |s|
  {
    if |s| == 0 then [] else Names(s[..|s| - 1]) + [(s[|s| - 1].record.kind, s[|s| - 1].record.name)]
  }

  lemma HighSnoc(s: seq<Scored>, i: nat)
    requires i < |s|
    ensures HighOnes(s[..i + 1]) == if s[i].confidence == High then HighOnes(s[..i]) + [s[i]] else HighOnes(s[..i])
    ensures s[i].confidence == High ==>
              Names(HighOnes(s[..i + 1])) == Names(HighOnes(s[..i])) + [(s[i].record.kind, s[i].record.name)]
  {
    assert s[..i + 1][..i] == s[..i];
    if s[i].confidence == High {
      assert HighOnes(s[..i + 1])[..|HighOnes(s[..i])|] == HighOnes(s[..i]);
    }
  }

  function Least(a: nat, b: nat): nat {
    if a < b then a else b
  }

  /** What the rule-based summary says about the scored changes, the best first. */
  predicate Summarizes(summary: Summary, scored: seq<Scored>, severity: string) {
    var high := HighOnes(scored);
    if |scored| == 0 then summary == NoChanges(severity)
    else if |high| == 0 then summary == NoneHigh(severity, |scored|)
    else if |high| == 1 then
      var top := scored[0].record;
      summary == LikelyCause(severity, top.kind, top.namespace, top.name, top.diff)
    else summary == Several(severity, |high|, Names(high)[..Least(3, |high|)])
  }

  method GenerateSummary(scored: seq<Scored>, severity: string) returns (summary: Summary)
    ensures Summarizes(summary, scored, severity)
  {
    if |scored| == 0 {
      return NoChanges(severity);
    }
    var highCount := 0;
    var highConfidence: seq<(string, string)> := [];
    for i := 0 to |scored|
      invariant highCount == |HighOnes(scored[..i])| && highConfidence == Names(HighOnes(scored[..i]))
    {
      HighSnoc(scored, i);
      if scored[i].confidence == High {
        highCount := highCount + 1;
        highConfidence := highConfidence + [(scored[i].record.kind, scored[i].record.name)];
      }
    }
    assert scored[..|scored|] == scored;
    if highCount == 0 {
      return NoneHigh(severity, |scored|);
    }
    if highCount == 1 {
      var top := scored[0].record;
      return LikelyCause(severity, top.kind, top.namespace, top.name, top.diff);
    }
    summary := Several(severity, highCount, highConfidence[..Least(3, |highConfidence|)]);
  }

  // ----- the analysis -----

  function EventOf(s: Scored): CorrelatedEvent {
    CorrelatedEvent(s.record.kind, s.record.name, s.record.namespace, s.record.timestamp,
                    s.record.changeType, s.record.diff, s.record.actor, s.confidence)
  }

  function EventsOf(s: seq<Scored>): (events: seq<CorrelatedEvent>)
    ensures |events| == |s| && forall i | 0 <= i < |s| :: events[i] == EventOf(s[i])
  {
    if |s| == 0 then [] else EventsOf(s[..|s| - 1]) + [EventOf(s[|s| - 1])]
  }

  method ConvertEvents(sorted: seq<Scored>) returns (events: seq<CorrelatedEvent>)
    ensures events == EventsOf(sorted)
  {
    events := [];
    for i := 0 to |sorted|
      invariant events == EventsOf(sorted[..i])
    {
      assert sorted[..i + 1][..i] == sorted[..i];
      events := events + [EventOf(sorted[i])];
    }
    assert sorted[..|sorted|] == sorted;
  }

  function SelectorLabels(selector: Option<WorkloadSelector>): map<string, string> {
    if selector.Some? then selector.value.labels else map[]
  }

  /** The correlation lists a descending permutation of the scored candidates, and summarizes it. */
  ghost predicate IsAnalysis(c: Correlation, scored: seq<Scored>, candidates: seq<ChangeRecord>, sloNamespace: string,
                             trigger: int, labels: map<string, string>, severity: string)
  {
    && multiset(scored) == multiset(ScoreAll(candidates, trigger, sloNamespace, labels))
    && Descending(scored)
    && c.events == EventsOf(scored)
    && c.eventCount == |c.events|
    && c.detectedAt == trigger && c.severity == severity
    && c.windowStart == trigger - WINDOW_BEFORE && c.windowEnd == trigger + WINDOW_AFTER
    && Summarizes(c.summary, scored, severity)
  }

  method Correlate(changes: seq<ChangeRecord>, sloNamespace: string, trigger: int, labels: map<string, string>,
                   severity: string)
    returns (c: Correlation)
    ensures exists scored :: IsAnalysis(c, scored, changes, sloNamespace, trigger, labels, severity)
  {
    var unsorted := ScoreChanges(changes, trigger, sloNamespace, labels);
    var sorted := SortByScore(unsorted);
    var events := ConvertEvents(sorted);
    var summary := GenerateSummary(sorted, severity);
    c := Correlation(trigger, severity, trigger - WINDOW_BEFORE, trigger + WINDOW_AFTER, events, summary, |events|);
    assert IsAnalysis(c, sorted, changes, sloNamespace, trigger, labels, severity);
  }

  /** The changes that the analysis considers, out of the retained records `latest`. */
  function Candidates(latest: seq<ChangeRecord>, sloNamespace: string, trigger: int, cutoff: int,
                      selector: Option<WorkloadSelector>): seq<ChangeRecord>
  {
    Admitted(Within(latest, cutoff, trigger - WINDOW_BEFORE, trigger + WINDOW_AFTER), sloNamespace, selector)
  }

  /** The correlation object: what was asked, the analysis, and a refined summary if there is one. */
  datatype Report = Report(
    name: string, namespace: string, sloName: string, burnRate: real, previousBurnRate: real,
    correlation: Correlation, refined: Option<string>)

  class CorrelationEngine {
    const collector: ChangeCollector

    constructor (collector: ChangeCollector)
      ensures this.collector == collector
    {
      this.collector := collector;
    }

    method FindCandidates(sloNamespace: string, trigger: int, selector: Option<WorkloadSelector>, now: int)
      returns (candidates: seq<ChangeRecord>)
      requires collector.Valid()
      ensures candidates == Candidates(Latest(collector.log, collector.count), sloNamespace, trigger,
                                       now - collector.retention, selector)
    {
      var allChanges := collector.GetChangesInWindow(trigger - WINDOW_BEFORE, trigger + WINDOW_AFTER, now);
      candidates := FilterBySelector(allChanges, sloNamespace, selector);
    }

    /**
     `minute` is the trigger time as the object's name spells it, and `refined` the sentence of
     a language model, when one is configured: it replaces the rule-based summary if it is not
     empty and there was a change to summarize.
     */
    method Analyze(sloName: string, sloNamespace: string, trigger: int, minute: string, burnRate: real,
                   previousBurnRate: real, severity: string, selector: Option<WorkloadSelector>,
                   refined: Option<string>, now: int)
      returns (report: Report)
      requires collector.Valid()
      ensures var candidates := Candidates(Latest(collector.log, collector.count), sloNamespace, trigger,
                                           now - collector.retention, selector);
              && (exists scored ::
                    IsAnalysis(report.correlation, scored, candidates, sloNamespace, trigger, SelectorLabels(selector),
                               severity))
              && report.refined == (if refined.Some? && refined.value != "" && candidates != [] then refined else None)
      ensures report.name == sloName + "-" + minute && report.namespace == sloNamespace && report.sloName == sloName
      ensures report.burnRate == burnRate && report.previousBurnRate == previousBurnRate
    {
      var candidates := FindCandidates(sloNamespace, trigger, selector, now);
      var c := Correlate(candidates, sloNamespace, trigger, SelectorLabels(selector), severity);
      var sentence := None;
      if refined.Some? && |candidates| > 0 {
        if refined.value != "" {
          sentence := refined;
        }
      }
      report := Report(sloName + "-" + minute, sloNamespace, sloName, burnRate, previousBurnRate, c, sentence);
    }
  }

  // ----- what the analysis means -----

  lemma {:induction false} AdmittedMember(s: seq<ChangeRecord>, sloNamespace: string, selector: Option<WorkloadSelector>,
                                          r: ChangeRecord)
    ensures multiset(Admitted(s, sloNamespace, selector))[r]
         == if Admits(r, sloNamespace, selector) then multiset(s)[r] else 0
  {
    if |s| == 0 {
    } else {
      var n := |s| - 1;
      AdmittedMember(s[..n], sloNamespace, selector, r);
      KeptCount(s, Admitted(s[..n], sloNamespace, selector), Admits(s[n], sloNamespace, selector), r);
    }
  }

  lemma {:induction false} AdmittedInOrder(s: seq<ChangeRecord>, sloNamespace: string, selector: Option<WorkloadSelector>)
    ensures InOrder(Admitted(s, sloNamespace, selector), s)
  {
    hide Admits, InOrder;
    NothingInOrder<ChangeRecord>();
    if |s| == 0 {
    } else {
      var before := Admitted(s[..|s| - 1], sloNamespace, selector);
      AdmittedInOrder(s[..|s| - 1], sloNamespace, selector);
      InOrderSnoc(before, s);
      assert before + [] == before;
    }
  }

  /**
   What the selector admits. Without one, the changes of the SLO's own namespace. With one, those
   of its namespaces, or of the SLO's own if it names none; and of them an Event always, any other
   change only if it holds every label asked for, where an empty value also stands for no label.
   The filter keeps each admitted change as often as it comes, and in its order.
   */
  lemma FilterExactly(changes: seq<ChangeRecord>, sloNamespace: string, selector: Option<WorkloadSelector>,
                      r: ChangeRecord)
    ensures var labelled := selector.Some? ==> forall x | x in selector.value.labels ::
              || (x in r.labels && r.labels[x] == selector.value.labels[x])
              || (x !in r.labels && selector.value.labels[x] == "");
            var placed := if selector.None? || selector.value.namespaces == [] then r.namespace == sloNamespace
              else r.namespace in selector.value.namespaces;
            multiset(Admitted(changes, sloNamespace, selector))[r]
            == if placed && (r.kind == "Event" || labelled) then multiset(changes)[r] else 0
    ensures InOrder(Admitted(changes, sloNamespace, selector), changes)
  {
    AdmittedMember(changes, sloNamespace, selector, r);
    AdmittedInOrder(changes, sloNamespace, selector);
  }

  /**
   The candidates, with multiplicity: every retained record that the selector admits and that
   lies strictly between 30 minutes before and 10 minutes after the trigger, and no other. With
   the default retention of four hours the check on age removes nothing, whatever was logged,
   exactly when the analysis runs at most 3h30m (and one nanosecond) after the trigger.
   */
  lemma CandidatesExactly(latest: seq<ChangeRecord>, sloNamespace: string, trigger: int, now: int,
                          selector: Option<WorkloadSelector>, r: ChangeRecord)
    ensures now <= trigger + 12_600_000_000_001 ==>
              multiset(Candidates(latest, sloNamespace, trigger, now - 14_400_000_000_000, selector))[r]
              == if trigger - 1_800_000_000_000 < r.timestamp < trigger + 600_000_000_000
                    && Admits(r, sloNamespace, selector)
                 then multiset(latest)[r] else 0
    ensures CutoffHarmless(now - 14_400_000_000_000, trigger - 1_800_000_000_000, trigger + 600_000_000_000)
            <==> now <= trigger + 12_600_000_000_001
  {
    var start, end, cutoff := trigger - WINDOW_BEFORE, trigger + WINDOW_AFTER, now - 14_400_000_000_000;
    RetentionExactly(cutoff, start, end);
    if now <= trigger + 12_600_000_000_001 {
      RetentionHarmless(latest, cutoff, start, end);
      AdmittedMember(Within(latest, start, start, end), sloNamespace, selector, r);
      WithinCount(latest, start, start, end, r);
    }
  }

  /** Every candidate lies in the window, and is admitted. */
  lemma CandidateRange(latest: seq<ChangeRecord>, sloNamespace: string, trigger: int, cutoff: int,
                       selector: Option<WorkloadSelector>, r: ChangeRecord)
    requires r in Candidates(latest, sloNamespace, trigger, cutoff, selector)
    ensures Gap(r, trigger) < 30 * MINUTE && Admits(r, sloNamespace, selector)
  {
    var within := Within(latest, cutoff, trigger - WINDOW_BEFORE, trigger + WINDOW_AFTER);
    AdmittedMember(within, sloNamespace, selector, r);
    WithinMember(latest, cutoff, trigger - WINDOW_BEFORE, trigger + WINDOW_AFTER, r);
  }

  predicate Collected(r: ChangeRecord) {
    r.kind == "Deployment" || r.kind == "ConfigMap" || r.kind == "Secret" || r.kind == "Event"
  }

  /** The part occurs somewhere in the text. */
  ghost predicate Occurs(part: string, s: string) {
    exists before, after :: s == before + part + after
  }

  lemma {:induction false} ContainsExactly(s: string, part: string)
    ensures Contains(s, part) <==> Occurs(part, s)
  {
    if part <= s {
      assert s == [] + part + s[|part|..];
    } else if |s| > 0 {
      ContainsExactly(s[1..], part);
      if before, after :| s[1..] == before + part + after {
        assert s == ([s[0]] + before) + part + after;
      }
      if before, after :| s == before + part + after {
        assert before != [] by { assert part + after == [] + part + after; }
        assert s[1..] == before[1..] + part + after;
      }
    }
  }

  lemma AlarmingExactly(diff: string)
    ensures Alarming(diff) <==> Occurs("OOMKilled", diff) || Occurs("CrashLoopBackOff", diff)
  {
    hide Occurs, Contains;
    ContainsExactly(diff, "OOMKilled");
    ContainsExactly(diff, "CrashLoopBackOff");
  }

  /**
   Scores inside an analysis, for the four collected kinds: always between 10 and 105, never
   from the over-60-minute case; high from 50 points on and low below 25. Without a selector every
   non-Event is high and an Event is high exactly when it is within 15 minutes and mentions
   OOMKilled or CrashLoopBackOff, and nothing is low; with a non-empty label selector every
   non-Event is high.
   */
  lemma ScoresInAnalysis(latest: seq<ChangeRecord>, sloNamespace: string, trigger: int, cutoff: int,
                         selector: Option<WorkloadSelector>, r: ChangeRecord)
    requires r in Candidates(latest, sloNamespace, trigger, cutoff, selector) && Collected(r)
    ensures var x := ScoreOf(r, trigger, sloNamespace, SelectorLabels(selector));
            && 10 <= x.score <= 105
            && TimePoints(Gap(r, trigger)) > 5
            && (x.confidence == High <==> x.score >= 50) && (x.confidence == Low <==> x.score < 25)
            && (selector.None? ==>
                  && x.confidence != Low
                  && (r.kind != "Event" ==> x.confidence == High)
                  && (r.kind == "Event" ==>
                        (x.confidence == High <==>
                           && trigger - 900_000_000_000 <= r.timestamp <= trigger + 900_000_000_000
                           && (Occurs("OOMKilled", r.diff) || Occurs("CrashLoopBackOff", r.diff)))))
            && (selector.Some? && |selector.value.labels| > 0 && r.kind != "Event" ==> x.confidence == High)
  {
    hide Occurs, Contains;
    AlarmingExactly(r.diff);
    hide Alarming;
    CandidateRange(latest, sloNamespace, trigger, cutoff, selector, r);
  }

  /** Two records that differ at most in kind and difference: alike in time, place and labels. */
  ghost predicate AlikeButKind(a: ChangeRecord, b: ChangeRecord) {
    a.timestamp == b.timestamp && a.namespace == b.namespace && a.labels == b.labels
  }

  /**
   What counts for a cause. Of two changes alike in time, place and labels a Deployment beats a
   ConfigMap by 5 points, that a Secret by 5, that an Event with an alarming message by 5, and
   that any other Event by 15. The full 105 points are those of a Deployment in the SLO's
   namespace, within 15 minutes of the trigger, with every label of a non-empty selector.
   */
  lemma KindsRanked(a: ChangeRecord, b: ChangeRecord, trigger: int, sloNamespace: string, labels: map<string, string>)
    requires Collected(a) && Collected(b)
    ensures var x, y := ScoreOf(a, trigger, sloNamespace, labels).score, ScoreOf(b, trigger, sloNamespace, labels).score;
            var alarming := Occurs("OOMKilled", a.diff) || Occurs("CrashLoopBackOff", a.diff);
            AlikeButKind(a, b) ==>
              && (a.kind == "Deployment" && b.kind == "ConfigMap" ==> x == y + 5)
              && (a.kind == "ConfigMap" && b.kind == "Secret" ==> x == y + 5)
              && (a.kind == "Event" && b.kind == "Secret" ==> x == y - if alarming then 5 else 20)
    ensures ScoreOf(a, trigger, sloNamespace, labels).score == 105 <==>
              && a.kind == "Deployment" && a.namespace == sloNamespace
              && trigger - 900_000_000_000 <= a.timestamp <= trigger + 900_000_000_000
              && labels != map[] && forall x | x in labels ::
                   (x in a.labels && a.labels[x] == labels[x]) || (x !in a.labels && labels[x] == "")
  {
    hide Occurs, Contains;
    AlarmingExactly(a.diff);
    AlarmingExactly(b.diff);
    hide Alarming;
  }

  /**
   The other three points, for two changes of one kind and message: within 15 minutes of the
   trigger rather than within the hour is worth 15 and rather than outside it 25; the SLO's
   namespace is worth 20, and every label of a non-empty selector 30.
   */
  lemma PointsApart(a: ChangeRecord, b: ChangeRecord, trigger: int, sloNamespace: string, labels: map<string, string>)
    requires a.kind == b.kind && a.diff == b.diff
    ensures var x, y := ScoreOf(a, trigger, sloNamespace, labels).score, ScoreOf(b, trigger, sloNamespace, labels).score;
            var near := trigger - 900_000_000_000 <= a.timestamp <= trigger + 900_000_000_000;
            var close := trigger - 900_000_000_000 <= b.timestamp <= trigger + 900_000_000_000;
            var within := trigger - 3_600_000_000_000 <= b.timestamp <= trigger + 3_600_000_000_000;
            && (a.namespace == b.namespace && a.labels == b.labels && near ==>
                  x == y + if close then 0 else if within then 15 else 25)
            && (a.timestamp == b.timestamp && a.labels == b.labels && a.namespace == sloNamespace != b.namespace ==>
                  x == y + 20)
            && (a.timestamp == b.timestamp && a.namespace == b.namespace && labels != map[] ==>
                  LabelsMatch(a.labels, labels) && !LabelsMatch(b.labels, labels) ==> x == y + 30)
  {
    hide Alarming, LabelsMatch;
  }

  /** A scored sequence whose levels are those of its scores. */
  ghost predicate Leveled(s: seq<Scored>) {
    forall i | 0 <= i < |s| :: s[i].confidence == Level(s[i].score)
  }

  lemma ScoredLeveled(s: seq<Scored>, changes: seq<ChangeRecord>, trigger: int, sloNamespace: string,
                      labels: map<string, string>)
    requires multiset(s) == multiset(ScoreAll(changes, trigger, sloNamespace, labels))
    ensures Leveled(s)
  {
    var all := ScoreAll(changes, trigger, sloNamespace, labels);
    forall i | 0 <= i < |s| ensures s[i].confidence == Level(s[i].score) {
      assert s[i] in multiset(s);
      assert s[i] in multiset(all);
      var j :| 0 <= j < |all| && all[j] == s[i];
    }
  }

  lemma {:induction false} HighFirst(s: seq<Scored>)
    requires Descending(s) && Leveled(s)
    ensures |HighOnes(s)| <= |s| && HighOnes(s) == s[..|HighOnes(s)|]
    ensures forall i | |HighOnes(s)| <= i < |s| :: s[i].confidence != High
  {
    var n := |s| - 1;
    if n < 0 {
    } else {
      HighFirst(s[..n]);
      var h := |HighOnes(s[..n])|;
      assert h < n ==> s[..n][h].confidence != High && s[h].score >= s[n].score;
      if s[n].confidence == High {
        assert s == s[..n] + [s[n]];
      }
    }
  }

  lemma LevelsDescend(s: seq<Scored>)
    requires Descending(s) && Leveled(s)
    ensures forall i, j | 0 <= i < j < |s| ::
              && (s[j].confidence == High ==> s[i].confidence == High)
              && (s[j].confidence == Medium ==> s[i].confidence != Low)
  {
  }

  lemma SingleHigh(s: seq<Scored>)
    requires Descending(s) && Leveled(s) && |HighOnes(s)| == 1
    ensures |s| > 0 && s[0].confidence == High && forall i | 0 < i < |s| :: s[i].confidence != High
  {
    HighFirst(s);
    HighAreHigh(s);
    assert HighOnes(s)[0] == s[..1][0] == s[0];
  }

  /**
   Whatever permutation the sort chose: high events precede medium ones and medium ones
   precede low ones, and when exactly one event is high the summary names that event.
   */
  lemma AnalysisOrder(c: Correlation, s: seq<Scored>, candidates: seq<ChangeRecord>, sloNamespace: string,
                      trigger: int, labels: map<string, string>, severity: string)
    requires IsAnalysis(c, s, candidates, sloNamespace, trigger, labels, severity)
    ensures forall i, j | 0 <= i < j < |c.events| ::
              && (c.events[j].confidence == High ==> c.events[i].confidence == High)
              && (c.events[j].confidence == Medium ==> c.events[i].confidence != Low)
    ensures |HighOnes(s)| == 1 ==>
              && |c.events| > 0 && c.events[0].confidence == High
              && (forall i | 0 < i < |c.events| :: c.events[i].confidence != High)
              && var top := c.events[0]; c.summary == LikelyCause(severity, top.kind, top.namespace, top.name, top.change)
  {
    ScoredLeveled(s, candidates, trigger, sloNamespace, labels);
    LevelsDescend(s);
    if |HighOnes(s)| == 1 {
      SingleHigh(s);
    }
  }

  lemma ScoreTells(a: ChangeRecord, b: ChangeRecord, trigger: int, sloNamespace: string, labels: map<string, string>)
    ensures ScoreOf(a, trigger, sloNamespace, labels) == ScoreOf(b, trigger, sloNamespace, labels) <==> a == b
  {
  }

  lemma {:induction false} ScoreAllCount(s: seq<ChangeRecord>, trigger: int, sloNamespace: string,
                                         labels: map<string, string>, r: ChangeRecord)
    ensures multiset(ScoreAll(s, trigger, sloNamespace, labels))[ScoreOf(r, trigger, sloNamespace, labels)]
         == multiset(s)[r]
  {
    hide ScoreOf, TimePoints;
    if |s| == 0 {
    } else {
      var n := |s| - 1;
      ScoreAllCount(s[..n], trigger, sloNamespace, labels, r);
      ScoreTells(s[n], r, trigger, sloNamespace, labels);
      assert s == s[..n] + [s[n]];
      OneMore(s[..n], s[n], r);
      OneMore(ScoreAll(s[..n], trigger, sloNamespace, labels), ScoreOf(s[n], trigger, sloNamespace, labels),
                ScoreOf(r, trigger, sloNamespace, labels));
    }
  }

  /**
   Nothing is lost or invented: each candidate is listed as often as it was retained, with its own
   score, and the events show the candidates field by field.
   */
  lemma AnalysisComplete(c: Correlation, s: seq<Scored>, candidates: seq<ChangeRecord>, sloNamespace: string,
                         trigger: int, labels: map<string, string>, severity: string, r: ChangeRecord)
    requires IsAnalysis(c, s, candidates, sloNamespace, trigger, labels, severity)
    ensures multiset(s)[ScoreOf(r, trigger, sloNamespace, labels)] == multiset(candidates)[r]
    ensures |c.events| == |s| == |candidates| == c.eventCount
    ensures c.detectedAt == trigger && c.severity == severity
    ensures c.windowStart == trigger - 1_800_000_000_000 && c.windowEnd == trigger + 600_000_000_000
    ensures forall i | 0 <= i < |s| ::
              var r, e := s[i].record, c.events[i];
              && e.kind == r.kind && e.name == r.name && e.namespace == r.namespace && e.timestamp == r.timestamp
              && e.changeType == r.changeType && e.change == r.diff && e.actor == r.actor
              && e.confidence == (if s[i].score >= 50 then High else if s[i].score >= 25 then Medium else Low)
  {
    ScoreAllCount(candidates, trigger, sloNamespace, labels, r);
    ScoredLeveled(s, candidates, trigger, sloNamespace, labels);
    assert |multiset(s)| == |multiset(ScoreAll(candidates, trigger, sloNamespace, labels))|;
  }

  lemma {:induction false} NamesAt(s: seq<Scored>, i: nat)
    requires i < |s|
    ensures Names(s)[i] == (s[i].record.kind, s[i].record.name)
  {
    if i < |s| - 1 {
      NamesAt(s[..|s| - 1], i);
    }
  }

  /**
   The rule-based summary in terms of the events listed: there is a number of high events, which
   come first, and the sentence says that there are none at all, that none is high, the single
   high one, or the number of the high ones with the first three of them.
   */
  lemma SummaryOfEvents(c: Correlation, s: seq<Scored>, candidates: seq<ChangeRecord>, sloNamespace: string,
                        trigger: int, labels: map<string, string>, severity: string)
    returns (high: nat)
    requires IsAnalysis(c, s, candidates, sloNamespace, trigger, labels, severity)
    ensures high <= |c.events| && forall i | 0 <= i < |c.events| :: c.events[i].confidence == High <==> i < high
    ensures |c.events| == 0 ==> c.summary == NoChanges(severity)
    ensures |c.events| > 0 && high == 0 ==> c.summary == NoneHigh(severity, |c.events|)
    ensures high == 1 ==>
              var top := c.events[0]; c.summary == LikelyCause(severity, top.kind, top.namespace, top.name, top.change)
    ensures high > 1 ==>
              && c.summary.Several? && c.summary.severity == severity && c.summary.count == high
              && |c.summary.named| == (if high < 3 then high else 3)
              && forall i | 0 <= i < |c.summary.named| :: c.summary.named[i] == (c.events[i].kind, c.events[i].name)
  {
    high := |HighOnes(s)|;
    ScoredLeveled(s, candidates, trigger, sloNamespace, labels);
    HighFirst(s);
    HighAreHigh(s);
    forall i | 0 <= i < high
      ensures s[i].confidence == High && Names(HighOnes(s))[i] == (s[i].record.kind, s[i].record.name)
    {
      assert HighOnes(s)[i] == s[..high][i];
      NamesAt(HighOnes(s), i);
    }
  }

  lemma {:induction false} HighAreHigh(s: seq<Scored>)
    ensures forall i | 0 <= i < |HighOnes(s)| :: HighOnes(s)[i].confidence == High
  {
    if |s| == 0 {
    } else {
      HighAreHigh(s[..|s| - 1]);
    }
  }
}
