/**
 The caching Prometheus client. A query is three steps: look into the cache under the read
 lock, fetch from the backend under no lock, store under the write lock. Calls may overlap
 between the steps.
 */
module Cache {
  import opened Strings

  datatype Entry = Entry(value: real, fetchTime: int)

  type Entries = map<string, Entry>

  /** getCache: an entry older than the time to live does not count. */
  function Lookup(cache: Entries, query: string, now: int, ttl: int): Option<real> {
    if query !in cache || now - cache[query].fetchTime > ttl then None else Some(cache[query].value)
  }

  /** What a call does when no other call comes between its steps: its result and the cache it leaves. */
  function QueryEffect(cache: Entries, query: string, looked: int, answer: Result<real>, stored: int, ttl: int)
    : (Result<real>, Entries)
  {
    match Lookup(cache, query, looked, ttl)
    case Some(v) => (Ok(v), cache)
    case None => (answer, if answer.Ok? then cache[query := Entry(answer.value, stored)] else cache)
  }

  // ----- the client object, one call at a time -----

  /** A backend answer: a value, or an error that is handed on. */
  class CachedClient {
    var cache: Entries
    const ttl: int

    constructor (ttl: int)
      ensures cache == map[] && this.ttl == ttl
    {
      cache := map[];
      this.ttl := ttl;
    }

    method GetCache(query: string, now: int) returns (found: Option<real>)
      ensures found == Lookup(cache, query, now, ttl)
    {
      if query !in cache {
        return None;
      }
      var entry := cache[query];
      if now - entry.fetchTime > ttl {
        return None;
      }
      found := Some(entry.value);
    }

    method SetCache(query: string, value: real, now: int)
      modifies this
      ensures cache == old(cache)[query := Entry(value, now)]
    {
      cache := cache[query := Entry(value, now)];
    }

    /**
     QuerySLI and QuerySLINotNormalized do the same, each with its own backend call, on one cache.
     `looked` and `stored` are the two clock readings, `answer` what the backend would say.
     */
    method Query(query: string, looked: int, answer: Result<real>, stored: int) returns (r: Result<real>)
      modifies this
      ensures (r, cache) == QueryEffect(old(cache), query, looked, answer, stored, ttl)
    {
      var found := GetCache(query, looked);
      if found.Some? {
        return Ok(found.value);
      }
      if answer.Err? {
        return answer;
      }
      SetCache(query, answer.value, stored);
      r := answer;
    }
  }

  // ----- overlapping calls, as a state machine -----

  /** Which of the two query methods a call uses. */
  datatype Kind = Plain | NotNormalized

  /** How far a call has come. */
  datatype Progress =
    | Missed(query: string, kind: Kind, looked: int)
    | Fetched(query: string, kind: Kind, looked: int, value: real)
    | Hit(query: string, kind: Kind, at: int, value: real)
    | Fresh(query: string, kind: Kind, looked: int, at: int, value: real)
    | Failed(query: string, kind: Kind)

  /** A value that the backend gave. */
  datatype Given = Given(query: string, kind: Kind, value: real, at: int)

  /** A write to the cache, by the call that made it. */
  datatype Stored = Stored(call: int, query: string, value: real, at: int)

  datatype State = State(now: int, cache: Entries, calls: map<int, Progress>, given: seq<Given>, stored: seq<Stored>)

  datatype Step =
    | Tick(to: int)
    | Look(call: int, query: string, kind: Kind)
    | Fetch(call: int, answer: Result<real>)
    | Store(call: int)

  predicate Enabled(s: State, step: Step) {
    match step
    case Tick(to) => to >= s.now
    case Look(c, _, _) => c !in s.calls
    case Fetch(c, _) => c in s.calls && s.calls[c].Missed?
    case Store(c) => c in s.calls && s.calls[c].Fetched?
  }

  function Next(s: State, step: Step, ttl: int): State
    requires Enabled(s, step)
  {
    match step
    case Tick(to) => s.(now := to)
    case Look(c, q, k) =>
      (match Lookup(s.cache, q, s.now, ttl)
       case Some(v) => s.(calls := s.calls[c := Hit(q, k, s.now, v)])
       case None => s.(calls := s.calls[c := Missed(q, k, s.now)]))
    case Fetch(c, answer) =>
      var p := s.calls[c];
      (match answer
       case Err(_) => s.(calls := s.calls[c := Failed(p.query, p.kind)])
       case Ok(v) => s.(calls := s.calls[c := Fetched(p.query, p.kind, p.looked, v)],
                        given := s.given + [Given(p.query, p.kind, v, s.now)]))
    case Store(c) =>
      var p := s.calls[c];
      s.(calls := s.calls[c := Fresh(p.query, p.kind, p.looked, s.now, p.value)],
         cache := s.cache[p.query := Entry(p.value, s.now)],
         stored := s.stored + [Stored(c, p.query, p.value, s.now)])
  }

  /** The steps of one call, with nothing but the clock between them. */
  function CallAlone(s: State, call: int, query: string, kind: Kind, answer: Result<real>, stored: int, ttl: int): State
    requires call !in s.calls && stored >= s.now
  {
    var looked := Next(s, Look(call, query, kind), ttl);
    if looked.calls[call].Hit? then looked else
      var fetched := Next(looked, Fetch(call, answer), ttl);
      if answer.Err? then fetched else Next(Next(fetched, Tick(stored), ttl), Store(call), ttl)
  }

  const INITIAL: State := State(0, map[], map[], [], [])

  ghost predicate Behaviour(trace: seq<State>, steps: seq<Step>, ttl: int) {
    && |trace| == |steps| + 1 && trace[0] == INITIAL
    && forall i | 0 <= i < |steps| :: Enabled(trace[i], steps[i]) && trace[i + 1] == Next(trace[i], steps[i], ttl)
  }

  // ----- what every step keeps -----

  /** The backend gave this value for this query, no later than `at`. */
  ghost predicate WasGiven(s: State, query: string, value: real, at: int) {
    exists g :: g in s.given && g.query == query && g.value == value && g.at <= at
  }

  /** The backend gave this value for this query of this kind between `from` and `to`. */
  ghost predicate GivenTo(s: State, query: string, kind: Kind, value: real, from: int, to: int) {
    exists g :: g in s.given && g.query == query && g.kind == kind && g.value == value && from <= g.at <= to
  }

  /** The value was stored for this query between `from` and `to`. */
  ghost predicate WasStored(s: State, query: string, value: real, from: int, to: int) {
    exists w :: w in s.stored && w.query == query && w.value == value && from <= w.at <= to
  }

  ghost predicate ProgressOk(s: State, p: Progress, ttl: int) {
    match p
    case Missed(_, _, looked) => looked <= s.now
    case Fetched(q, k, looked, v) => looked <= s.now && GivenTo(s, q, k, v, looked, s.now)
    case Hit(q, _, at, v) => at <= s.now && WasGiven(s, q, v, at) && WasStored(s, q, v, at - ttl, at)
    case Fresh(q, k, looked, at, v) => at <= s.now && GivenTo(s, q, k, v, looked, at)
    case Failed(_, _) => true
  }

  ghost predicate EntryOk(s: State, query: string) {
    query in s.cache ==>
      var e := s.cache[query];
      e.fetchTime <= s.now && WasGiven(s, query, e.value, e.fetchTime)
      && WasStored(s, query, e.value, e.fetchTime, e.fetchTime)
  }

  ghost predicate Inv(s: State, ttl: int) {
    && (forall c | c in s.calls :: ProgressOk(s, s.calls[c], ttl))
    && (forall q | q in s.cache :: EntryOk(s, q))
    && (forall w | w in s.stored :: WasGiven(s, w.query, w.value, w.at))
  }

  /** The histories only grow, and the clock only advances. */
  ghost predicate Grows(s: State, t: State) {
    s.now <= t.now && s.given <= t.given && s.stored <= t.stored
  }

  lemma GivenKept(s: State, t: State, query: string, value: real, at: int, later: int)
    requires Grows(s, t) && at <= later && WasGiven(s, query, value, at)
    ensures WasGiven(t, query, value, later)
  {
    var g :| g in s.given && g.query == query && g.value == value && g.at <= at;
    assert g in t.given;
  }

  lemma GivenToKept(s: State, t: State, query: string, kind: Kind, value: real, from: int, to: int, later: int)
    requires Grows(s, t) && to <= later && GivenTo(s, query, kind, value, from, to)
    ensures GivenTo(t, query, kind, value, from, later) && WasGiven(t, query, value, later)
  {
    var g :| g in s.given && g.query == query && g.kind == kind && g.value == value && from <= g.at <= to;
    assert g in t.given;
  }

  lemma StoredKept(s: State, t: State, query: string, value: real, from: int, to: int)
    requires Grows(s, t) && WasStored(s, query, value, from, to)
    ensures WasStored(t, query, value, from, to)
  {
    var w :| w in s.stored && w.query == query && w.value == value && from <= w.at <= to;
    assert w in t.stored;
  }

  lemma ProgressKept(s: State, t: State, p: Progress, ttl: int)
    requires Grows(s, t) && ProgressOk(s, p, ttl)
    ensures ProgressOk(t, p, ttl)
  {
    match p
    case Fetched(q, k, looked, v) => GivenToKept(s, t, q, k, v, looked, s.now, t.now);
    case Hit(q, _, at, v) => GivenKept(s, t, q, v, at, at); StoredKept(s, t, q, v, at - ttl, at);
    case Fresh(q, k, looked, at, v) => GivenToKept(s, t, q, k, v, looked, at, at);
    case _ =>
  }

  lemma EntryKept(s: State, t: State, query: string)
    requires Grows(s, t) && query in s.cache && EntryOk(s, query)
    requires query in t.cache && t.cache[query] == s.cache[query]
    ensures EntryOk(t, query)
  {
    var e := s.cache[query];
    GivenKept(s, t, query, e.value, e.fetchTime, e.fetchTime);
    StoredKept(s, t, query, e.value, e.fetchTime, e.fetchTime);
  }

  /** The part of the invariant that a step did not touch. */
  lemma OldPartsKept(s: State, t: State, ttl: int)
    requires Inv(s, ttl) && Grows(s, t)
    ensures forall c | c in s.calls && c in t.calls && t.calls[c] == s.calls[c] :: ProgressOk(t, t.calls[c], ttl)
    ensures forall q | q in s.cache && q in t.cache && t.cache[q] == s.cache[q] :: EntryOk(t, q)
    ensures forall w | w in s.stored :: WasGiven(t, w.query, w.value, w.at)
  {
    forall c | c in s.calls && c in t.calls && t.calls[c] == s.calls[c] ensures ProgressOk(t, t.calls[c], ttl) {
      ProgressKept(s, t, s.calls[c], ttl);
    }
    forall q | q in s.cache && q in t.cache && t.cache[q] == s.cache[q] ensures EntryOk(t, q) {
      EntryKept(s, t, q);
    }
    forall w | w in s.stored ensures WasGiven(t, w.query, w.value, w.at) {
      GivenKept(s, t, w.query, w.value, w.at, w.at);
    }
  }

  lemma LookKeeps(s: State, c: int, q: string, k: Kind, ttl: int)
    requires Inv(s, ttl) && Enabled(s, Look(c, q, k))
    ensures Inv(Next(s, Look(c, q, k), ttl), ttl)
  {
    var t := Next(s, Look(c, q, k), ttl);
    OldPartsKept(s, t, ttl);
    if Lookup(s.cache, q, s.now, ttl).Some? {
      var e := s.cache[q];
      assert EntryOk(s, q);
      GivenKept(s, t, q, e.value, e.fetchTime, s.now);
      var w :| w in s.stored && w.query == q && w.value == e.value && e.fetchTime <= w.at <= e.fetchTime;
      assert w in t.stored;
    }
    assert ProgressOk(t, t.calls[c], ttl);
  }

  lemma FetchKeeps(s: State, c: int, answer: Result<real>, ttl: int)
    requires Inv(s, ttl) && Enabled(s, Fetch(c, answer))
    ensures Inv(Next(s, Fetch(c, answer), ttl), ttl)
  {
    var t := Next(s, Fetch(c, answer), ttl);
    OldPartsKept(s, t, ttl);
    assert ProgressOk(s, s.calls[c], ttl);
    if answer.Ok? {
      assert t.given[|t.given| - 1] in t.given;
    }
    assert ProgressOk(t, t.calls[c], ttl);
  }

  lemma StoreKeeps(s: State, c: int, ttl: int)
    requires Inv(s, ttl) && Enabled(s, Store(c))
    ensures Inv(Next(s, Store(c), ttl), ttl)
  {
    var t := Next(s, Store(c), ttl);
    var p := s.calls[c];
    OldPartsKept(s, t, ttl);
    assert ProgressOk(s, p, ttl);
    GivenToKept(s, t, p.query, p.kind, p.value, p.looked, s.now, s.now);
    assert t.stored[|t.stored| - 1] in t.stored;
    assert ProgressOk(t, t.calls[c], ttl) && EntryOk(t, p.query);
    forall w | w in t.stored ensures WasGiven(t, w.query, w.value, w.at) {
      assert w in s.stored || w == Stored(c, p.query, p.value, s.now);
    }
  }

  lemma StepKeeps(s: State, step: Step, ttl: int)
    requires Inv(s, ttl) && Enabled(s, step)
    ensures Inv(Next(s, step, ttl), ttl)
  {
    match step
    case Tick(to) => OldPartsKept(s, Next(s, step, ttl), ttl);
    case Look(c, q, k) => LookKeeps(s, c, q, k, ttl);
    case Fetch(c, answer) => FetchKeeps(s, c, answer, ttl);
    case Store(c) => StoreKeeps(s, c, ttl);
  }

  lemma {:induction false} Reachable(trace: seq<State>, steps: seq<Step>, ttl: int, i: nat)
    requires Behaviour(trace, steps, ttl) && i < |trace|
    ensures Inv(trace[i], ttl)
  {
    if i == 0 {
    } else {
      Reachable(trace, steps, ttl, i - 1);
      StepKeeps(trace[i - 1], steps[i - 1], ttl);
    }
  }

  /** The value a call returned successfully, and when it knew it. */
  function Answered(p: Progress): Option<(real, int)> {
    match p
    case Hit(_, _, at, v) => Some((v, at))
    case Fresh(_, _, _, at, v) => Some((v, at))
    case _ => None
  }

  /**
   Under every interleaving: a successful answer was given by the backend for that same query.
   Either the backend gave it between the call's own look-up and its return, to the same kind
   of query, or it was stored at most the time to live before the look-up. Everything ever
   stored was given by the backend, so errors are never stored.
   */
  lemma AnswersGenuine(trace: seq<State>, steps: seq<Step>, ttl: int, i: nat, c: int)
    requires Behaviour(trace, steps, ttl) && i < |trace| && c in trace[i].calls && Answered(trace[i].calls[c]).Some?
    ensures var s := trace[i]; var p := s.calls[c]; var (v, at) := Answered(p).value;
            && WasGiven(s, p.query, v, at)
            && (p.Fresh? ==> GivenTo(s, p.query, p.kind, v, p.looked, at))
            && (p.Hit? ==> WasStored(s, p.query, v, at - ttl, at))
            && (forall w | w in s.stored :: WasGiven(s, w.query, w.value, w.at))
  {
    Reachable(trace, steps, ttl, i);
    var s := trace[i];
    assert ProgressOk(s, s.calls[c], ttl);
    if s.calls[c].Fresh? {
      var p := s.calls[c];
      GivenToKept(s, s, p.query, p.kind, p.value, p.looked, p.at, p.at);
    }
  }

  /** The state machine refines the client object: a call that runs alone has the method's effect. */
  lemma CallAloneIsQuery(s: State, call: int, query: string, kind: Kind, answer: Result<real>, stored: int, ttl: int)
    requires call !in s.calls && stored >= s.now
    ensures var t := CallAlone(s, call, query, kind, answer, stored, ttl);
            var (result, cache) := QueryEffect(s.cache, query, s.now, answer, stored, ttl);
            && t.cache == cache && call in t.calls
            && (result.Ok? <==> Answered(t.calls[call]).Some?)
            && (result.Ok? ==> Answered(t.calls[call]).value.0 == result.value)
            && forall c | c in s.calls :: c in t.calls && t.calls[c] == s.calls[c]
  {
    var looked := Next(s, Look(call, query, kind), ttl);
    if looked.calls[call].Missed? {
      var fetched := Next(looked, Fetch(call, answer), ttl);
      assert answer.Ok? ==> fetched.calls[call] == Fetched(query, kind, s.now, answer.value);
    }
  }

  // ----- one cache for two kinds of query -----

  /** Plain calls ask queries of one set, calls of the other kind queries of another. */
  ghost predicate Asks(steps: seq<Step>, plain: set<string>, other: set<string>) {
    forall i | 0 <= i < |steps| && steps[i].Look? ::
      if steps[i].kind == Plain then steps[i].query in plain else steps[i].query in other
  }

  /** What a call found in the cache, the backend gave to a call of the same kind. */
  ghost predicate HitsOwnKind(s: State) {
    forall c | c in s.calls && s.calls[c].Hit? ::
      var p := s.calls[c];
      exists g | g in s.given :: g.query == p.query && g.kind == p.kind && g.value == p.value && g.at <= p.at
  }

  /** Every hit of every behaviour with such queries is answered by its own kind. */
  ghost predicate KindsApart(plain: set<string>, other: set<string>, ttl: int) {
    forall trace: seq<State>, steps: seq<Step>, i: nat
      | Behaviour(trace, steps, ttl) && Asks(steps, plain, other) && i < |trace| :: HitsOwnKind(trace[i])
  }

  /** The query of every call and of every given value lies in the set of its kind. */
  ghost predicate KindInv(s: State, plain: set<string>, other: set<string>) {
    && (forall c | c in s.calls :: s.calls[c].query in if s.calls[c].kind == Plain then plain else other)
    && (forall g | g in s.given :: g.query in if g.kind == Plain then plain else other)
  }

  lemma {:induction false} KindsReachable(trace: seq<State>, steps: seq<Step>, ttl: int, i: nat,
                                          plain: set<string>, other: set<string>)
    requires Behaviour(trace, steps, ttl) && Asks(steps, plain, other) && i < |trace|
    ensures KindInv(trace[i], plain, other)
  {
    if i == 0 {
    } else {
      KindsReachable(trace, steps, ttl, i - 1, plain, other);
      var s, step := trace[i - 1], steps[i - 1];
      assert Enabled(s, step) && trace[i] == Next(s, step, ttl);
      forall g | g in trace[i].given ensures g.query in if g.kind == Plain then plain else other {
        assert g in s.given || (step.Fetch? && g.query == s.calls[step.call].query && g.kind == s.calls[step.call].kind);
      }
    }
  }

  lemma DisjointKindsApart(trace: seq<State>, steps: seq<Step>, ttl: int, i: nat, plain: set<string>, other: set<string>)
    requires Behaviour(trace, steps, ttl) && Asks(steps, plain, other) && i < |trace| && plain !! other
    ensures HitsOwnKind(trace[i])
  {
    Reachable(trace, steps, ttl, i);
    KindsReachable(trace, steps, ttl, i, plain, other);
    var s := trace[i];
    forall c | c in s.calls && s.calls[c].Hit?
      ensures var p := s.calls[c];
              exists g | g in s.given :: g.query == p.query && g.kind == p.kind && g.value == p.value && g.at <= p.at
    {
      var p := s.calls[c];
      assert ProgressOk(s, p, ttl);
      var g :| g in s.given && g.query == p.query && g.value == p.value && g.at <= p.at;
      assert g.kind == p.kind;
    }
  }

  /** With a negative time to live nothing is ever found. */
  lemma NoHits(trace: seq<State>, steps: seq<Step>, ttl: int, i: nat)
    requires Behaviour(trace, steps, ttl) && i < |trace| && ttl < 0
    ensures HitsOwnKind(trace[i])
  {
    Reachable(trace, steps, ttl, i);
    forall c | c in trace[i].calls ensures !trace[i].calls[c].Hit? {
      assert ProgressOk(trace[i], trace[i].calls[c], ttl);
    }
  }

  /** The trace of a plain call that is answered by what the backend told the other kind. */
  lemma SharedAnswer(q: string, v: real, ttl: nat, plain: set<string>, other: set<string>)
    returns (trace: seq<State>, steps: seq<Step>)
    requires q in plain && q in other
    ensures Behaviour(trace, steps, ttl) && Asks(steps, plain, other) && |trace| == 5
    ensures 2 in trace[4].calls && trace[4].calls[2] == Hit(q, Plain, 0, v)
    ensures forall g | g in trace[4].given :: g.kind == NotNormalized
  {
    steps := [Look(1, q, NotNormalized), Fetch(1, Ok(v)), Store(1), Look(2, q, Plain)];
    var s1 := Next(INITIAL, steps[0], ttl);
    assert s1.calls[1] == Missed(q, NotNormalized, 0);
    var s2 := Next(s1, steps[1], ttl);
    assert s2.calls[1] == Fetched(q, NotNormalized, 0, v);
    var s3 := Next(s2, steps[2], ttl);
    assert s3.cache[q] == Entry(v, 0);
    var s4 := Next(s3, steps[3], ttl);
    trace := [INITIAL, s1, s2, s3, s4];
    assert Behaviour(trace, steps, ttl);
  }

  /**
   The two query methods share the cache, keyed by the query text alone. Every hit is answered
   by its own kind, in every behaviour, exactly when no query text is used with both kinds (or
   the time to live is negative and nothing is ever found).
   */
  lemma KindsShareTheCache(plain: set<string>, other: set<string>, ttl: int)
    ensures KindsApart(plain, other, ttl) <==> plain !! other || ttl < 0
  {
    hide Behaviour, Asks, HitsOwnKind;
    if plain !! other || ttl < 0 {
      forall trace: seq<State>, steps: seq<Step>, i: nat
        | Behaviour(trace, steps, ttl) && Asks(steps, plain, other) && i < |trace|
        ensures HitsOwnKind(trace[i])
      {
        if ttl < 0 {
          NoHits(trace, steps, ttl, i);
        } else {
          DisjointKindsApart(trace, steps, ttl, i, plain, other);
        }
      }
    } else {
      var q :| q in plain && q in other;
      var trace, steps := SharedAnswer(q, 1.0, ttl, plain, other);
      ForeignHit(trace[4]);
    }
  }

  lemma ForeignHit(s: State)
    requires 2 in s.calls && s.calls[2].Hit? && s.calls[2].kind == Plain
    requires forall g | g in s.given :: g.kind == NotNormalized
    ensures !HitsOwnKind(s)
  {
  }

  // ----- calls for one query that do not overlap -----

  /** No two calls for the same query are between look-up and store; other queries may overlap. */
  ghost predicate Sequential(s: State) {
    forall c, d | c in s.calls && d in s.calls && Pending(s.calls[c]) && Pending(s.calls[d])
                  && s.calls[c].query == s.calls[d].query :: c == d
  }

  predicate Pending(p: Progress) {
    p.Missed? || p.Fetched?
  }

  /** Since its look-up, a pending call's query had no entry within the time to live. */
  ghost predicate StaleFor(s: State, p: Progress, ttl: int) {
    Pending(p) ==> p.looked <= s.now && (p.query in s.cache ==> p.looked - s.cache[p.query].fetchTime > ttl)
  }

  /** Two writes of one query are further apart than the time to live. */
  ghost predicate Spaced(stored: seq<Stored>, ttl: int) {
    forall i, j | 0 <= i < j < |stored| && stored[i].query == stored[j].query :: stored[j].at - stored[i].at > ttl
  }

  /** The entry of a query is its last write. */
  ghost predicate EntryIsLast(s: State) {
    forall i | 0 <= i < |s.stored| ::
      s.stored[i].query in s.cache && s.stored[i].at <= s.cache[s.stored[i].query].fetchTime
  }

  ghost predicate SequentialInv(s: State, ttl: int) {
    && (forall c | c in s.calls :: StaleFor(s, s.calls[c], ttl))
    && Spaced(s.stored, ttl) && EntryIsLast(s)
    && (forall q | q in s.cache :: s.cache[q].fetchTime <= s.now)
  }

  lemma SequentialStore(s: State, c: int, ttl: int)
    requires SequentialInv(s, ttl) && Enabled(s, Store(c)) && Sequential(s)
    ensures SequentialInv(Next(s, Store(c), ttl), ttl)
  {
    var t := Next(s, Store(c), ttl);
    var p := s.calls[c];
    assert StaleFor(s, p, ttl);
    forall i, j | 0 <= i < j < |t.stored| && t.stored[i].query == t.stored[j].query
      ensures t.stored[j].at - t.stored[i].at > ttl
    {
      if j == |s.stored| {
        assert s.stored[i].at <= s.cache[p.query].fetchTime;
      }
    }
    assert Pending(s.calls[c]);
    forall d | d in t.calls ensures StaleFor(t, t.calls[d], ttl) {
      assert d == c || !Pending(s.calls[d]) || s.calls[d].query != p.query;
    }
  }

  lemma SequentialStep(s: State, step: Step, ttl: int)
    requires SequentialInv(s, ttl) && Enabled(s, step) && Sequential(s)
    ensures SequentialInv(Next(s, step, ttl), ttl)
  {
    var t := Next(s, step, ttl);
    match step
    case Store(c) => SequentialStore(s, c, ttl);
    case Fetch(c, _) =>
      assert StaleFor(s, s.calls[c], ttl);
      forall d | d in t.calls ensures StaleFor(t, t.calls[d], ttl) {
        if d != c { assert StaleFor(s, s.calls[d], ttl); }
      }
    case Look(c, _, _) =>
      forall d | d in t.calls ensures StaleFor(t, t.calls[d], ttl) {
        if d != c { assert StaleFor(s, s.calls[d], ttl); }
      }
    case Tick(_) =>
      forall d | d in t.calls ensures StaleFor(t, t.calls[d], ttl) {
        assert StaleFor(s, s.calls[d], ttl);
      }
  }

  lemma {:induction false} SequentialReachable(trace: seq<State>, steps: seq<Step>, ttl: int, i: nat)
    requires Behaviour(trace, steps, ttl) && i < |trace| && forall j | 0 <= j < |trace| :: Sequential(trace[j])
    ensures SequentialInv(trace[i], ttl)
  {
    if i == 0 {
    } else {
      SequentialReachable(trace, steps, ttl, i - 1);
      SequentialStep(trace[i - 1], steps[i - 1], ttl);
    }
  }

  /** When calls for the same query do not overlap, its stores are more than the time to live apart. */
  lemma StoresSpaced(trace: seq<State>, steps: seq<Step>, ttl: int, i: nat, j: nat)
    requires Behaviour(trace, steps, ttl) && forall k | 0 <= k < |trace| :: Sequential(trace[k])
    requires var stored := trace[|trace| - 1].stored; i < j < |stored| && stored[i].query == stored[j].query
    ensures var stored := trace[|trace| - 1].stored; stored[j].at - stored[i].at > ttl
  {
    SequentialReachable(trace, steps, ttl, |trace| - 1);
  }

  // ----- calls for one query that do overlap -----

  /** Once `q` was stored at time `since`, a call that looks up later has waited for longer than the time to live. */
  ghost predicate LateLooks(s: State, started: map<int, Progress>, q: string, since: int, ttl: int) {
    && since <= s.now
    && q in s.cache && s.cache[q].fetchTime >= since
    && forall d | d in s.calls && d !in started && s.calls[d].query == q && Pending(s.calls[d]) ::
         s.calls[d].looked <= s.now && s.calls[d].looked - since > ttl
  }

  lemma LateLooksKept(s: State, step: Step, started: map<int, Progress>, q: string, since: int, ttl: int)
    requires Enabled(s, step) && LateLooks(s, started, q, since, ttl)
    ensures LateLooks(Next(s, step, ttl), started, q, since, ttl)
  {
  }

  lemma {:induction false} LateLooksFrom(trace: seq<State>, steps: seq<Step>, ttl: int, a: nat, c: int, b: nat)
    requires Behaviour(trace, steps, ttl) && a < b < |trace| && steps[a] == Store(c) && c in trace[a].calls
    ensures LateLooks(trace[b], trace[a].calls, trace[a].calls[c].query, trace[a].now, ttl)
  {
    assert Enabled(trace[a], steps[a]) && trace[a + 1] == Next(trace[a], steps[a], ttl);
    if b > a + 1 {
      LateLooksFrom(trace, steps, ttl, a, c, b - 1);
      assert Enabled(trace[b - 1], steps[b - 1]) && trace[b] == Next(trace[b - 1], steps[b - 1], ttl);
      LateLooksKept(trace[b - 1], steps[b - 1], trace[a].calls, trace[a].calls[c].query, trace[a].now, ttl);
    }
  }

  /**
   In every behaviour, whatever overlaps: a query is stored again within the time to live of an
   earlier store only by a call that had already looked up when that store happened.
   */
  lemma StoresApart(trace: seq<State>, steps: seq<Step>, ttl: int, a: nat, c: int, b: nat, d: int)
    requires Behaviour(trace, steps, ttl) && a < b < |steps| && steps[a] == Store(c) && steps[b] == Store(d)
    requires c in trace[a].calls && d in trace[b].calls && trace[a].calls[c].query == trace[b].calls[d].query
    ensures trace[b].now - trace[a].now <= ttl ==> d in trace[a].calls && d != c && Pending(trace[a].calls[d])
  {
    assert Enabled(trace[b], steps[b]);
    LateLooksFrom(trace, steps, ttl, a, c, b);
    if d in trace[a].calls {
      PendingBefore(trace, steps, ttl, a, c, b, d);
    }
  }

  /** A call that still has to store at `b` was on its way at `a`, and is not the one that stored there. */
  lemma {:induction false} PendingBefore(trace: seq<State>, steps: seq<Step>, ttl: int, a: nat, c: int, b: nat, d: int)
    requires Behaviour(trace, steps, ttl) && a < b < |trace| && steps[a] == Store(c)
    requires d in trace[a].calls && d in trace[b].calls && Pending(trace[b].calls[d])
    ensures d != c && Pending(trace[a].calls[d])
  {
    assert Enabled(trace[a], steps[a]) && trace[a + 1] == Next(trace[a], steps[a], ttl);
    if b > a + 1 {
      assert Enabled(trace[b - 1], steps[b - 1]) && trace[b] == Next(trace[b - 1], steps[b - 1], ttl);
      CallsStay(trace, steps, ttl, a, b - 1, d);
      PendingBefore(trace, steps, ttl, a, c, b - 1, d);
    }
  }

  lemma {:induction false} CallsStay(trace: seq<State>, steps: seq<Step>, ttl: int, a: nat, b: nat, d: int)
    requires Behaviour(trace, steps, ttl) && a <= b < |trace| && d in trace[a].calls
    ensures d in trace[b].calls
  {
    if b > a {
      CallsStay(trace, steps, ttl, a, b - 1, d);
      assert Enabled(trace[b - 1], steps[b - 1]) && trace[b] == Next(trace[b - 1], steps[b - 1], ttl);
    }
  }

  /** Overlapping calls may store the same query twice in the same instant. */
  lemma OverlapStoresTwice(q: string, v: real, w: real, ttl: nat)
    ensures exists trace: seq<State>, steps: seq<Step> :: Behaviour(trace, steps, ttl) && |trace| == 7
              && trace[6].stored == [Stored(1, q, v, 0), Stored(2, q, w, 0)]
  {
    var steps := [Look(1, q, Plain), Look(2, q, Plain), Fetch(1, Ok(v)), Fetch(2, Ok(w)), Store(1), Store(2)];
    var s1 := Next(INITIAL, steps[0], ttl);
    assert s1.calls[1] == Missed(q, Plain, 0) && 2 !in s1.calls;
    var s2 := Next(s1, steps[1], ttl);
    assert s2.calls[2] == Missed(q, Plain, 0) && s2.calls[1] == Missed(q, Plain, 0);
    var s3 := Next(s2, steps[2], ttl);
    assert s3.calls[1] == Fetched(q, Plain, 0, v) && s3.calls[2] == Missed(q, Plain, 0);
    var s4 := Next(s3, steps[3], ttl);
    assert s4.calls[1] == Fetched(q, Plain, 0, v) && s4.calls[2] == Fetched(q, Plain, 0, w);
    var s5 := Next(s4, steps[4], ttl);
    assert s5.calls[2] == Fetched(q, Plain, 0, w);
    var s6 := Next(s5, steps[5], ttl);
    var trace := [INITIAL, s1, s2, s3, s4, s5, s6];
    assert Behaviour(trace, steps, ttl);
  }
}
