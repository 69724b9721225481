/**
 The change collector: a circular buffer of change records that must agree with the unbounded
 log of everything ever added. Times are nanoseconds; the zero time precedes them all.
 */
module Collector {
  import opened Arithmetic

  datatype ChangeRecord = ChangeRecord(
    timestamp: int, kind: string, name: string, namespace: string,
    changeType: string, diff: string, actor: string, labels: map<string, string>)

  const ZERO_TIME: int := -62_135_596_800_000_000_000

  // ----- the readers, as functions on the retained records, newest insertion first -----

  /** The last `n` entries of the log, newest first. */
  function Latest(log: seq<ChangeRecord>, n: nat): (r: seq<ChangeRecord>)
    requires n <= |log|
    ensures |r| == n && forall i | 0 <= i < n :: r[i] == log[|log| - 1 - i]
  {
    if n == 0 then [] else [log[|log| - 1]] + Latest(log[..|log| - 1], n - 1)
  }

  /** Not older than the cutoff, and strictly between start and end. */
  predicate InWindow(r: ChangeRecord, cutoff: int, start: int, end: int) {
    r.timestamp >= cutoff && start < r.timestamp < end
  }

  function Within(s: seq<ChangeRecord>, cutoff: int, start: int, end: int): seq<ChangeRecord> {
    if |s| == 0 then [] else
      var n := |s| - 1;
      Within(s[..n], cutoff, start, end) + if InWindow(s[n], cutoff, start, end) then [s[n]] else []
  }

  function InNamespace(s: seq<ChangeRecord>, namespace: string): seq<ChangeRecord> {
    if |s| == 0 then [] else
      var n := |s| - 1;
      InNamespace(s[..n], namespace) + if s[n].namespace == namespace then [s[n]] else []
  }

  /** Every selector label has its value in the record, where an absent label counts as empty. */
  predicate LabelsMatch(labels: map<string, string>, selector: map<string, string>) {
    forall x | x in selector :: (if x in labels then labels[x] else "") == selector[x]
  }

  function WithLabels(s: seq<ChangeRecord>, selector: map<string, string>): seq<ChangeRecord> {
    if |s| == 0 then [] else
      var n := |s| - 1;
      WithLabels(s[..n], selector) + if LabelsMatch(s[n].labels, selector) then [s[n]] else []
  }

  method MatchLabels(labels: map<string, string>, selector: map<string, string>) returns (matches: bool)
    ensures matches <==> LabelsMatch(labels, selector)
    ensures matches <==> forall x | x in selector ::
              (x in labels && labels[x] == selector[x]) || (x !in labels && selector[x] == "")
  {
    if |selector| == 0 {
      return true;
    }
    var todo := selector.Keys;
    while todo != {}
      invariant todo <= selector.Keys
      invariant forall x | x in selector && x !in todo :: (if x in labels then labels[x] else "") == selector[x]
      decreases |todo|
    {
      var x :| x in todo;
      var value := if x in labels then labels[x] else "";
      if value != selector[x] {
        return false;
      }
      todo := todo - {x};
    }
    return true;
  }

  // ----- arithmetic of the ring -----

  /** The buffer index of the i-th newest entry. */
  function RingIndex(head: int, i: int, size: int): int
    requires size > 0
  {
    (head - 1 - i + size) % size
  }

  /** The remainder is the only one that leaves a multiple. */
  lemma ModIs(n: int, q: int, r: int, size: int)
    requires 0 <= r < size && n == q * size + r
    ensures n % size == r
  {
    var m, d := n % size, n / size;
    DivMod(n, size);
    Distance(q, d, size, m - r);
  }

  lemma ModAdvance(n: int, q: int, r: int, size: int)
    requires 0 <= r < size && n == q * size + r
    ensures (r + 1) % size == (n + 1) % size
  {
    if r + 1 == size {
      NextMultiple(q, size);
      ModIs(n + 1, q + 1, 0, size);
    } else {
      ModIs(n + 1, q, r + 1, size);
    }
  }

  lemma ModStep(n: nat, size: nat)
    requires size > 0
    ensures (n % size + 1) % size == (n + 1) % size
  {
    DivMod(n, size);
    ModAdvance(n, n / size, n % size, size);
  }

  /** Two multiples of the size that differ by less than the size are equal. */
  lemma Distance(q: int, d: int, size: int, gap: int)
    requires size > 0 && -size < gap < size && q * size == d * size + gap
    ensures gap == 0
  {
    assert (q - d) * size == gap;
    if q > d {
      Times(q - d, size);
      assert false;
    } else if q < d {
      assert (d - q) * size == -gap;
      Times(d - q, size);
      assert false;
    }
  }

  lemma Times(k: int, size: int)
    requires k >= 1 && size > 0
    ensures k * size >= size
  {
  }

  /** Inside the ring no division is needed to find an index. */
  lemma RingIndexCases(head: int, i: int, size: int)
    requires 0 <= head < size && 0 <= i < size
    ensures 0 <= head - 1 - i + size
    ensures RingIndex(head, i, size) == if i < head then head - 1 - i else head - 1 - i + size
  {
    if i < head {
      ModIs(head - 1 - i + size, 1, head - 1 - i, size);
    } else {
      ModIs(head - 1 - i + size, 0, head - 1 - i + size, size);
    }
  }

  /** After one more write the newest entry is where the head was, and the others are one step older. */
  lemma RingShift(h: int, size: int, i: int)
    requires 0 <= h < size && 0 <= i < size
    ensures var head := (h + 1) % size;
            && 0 <= RingIndex(head, i, size) < size
            && (i == 0 ==> RingIndex(head, i, size) == h)
            && (i > 0 ==> RingIndex(head, i, size) == RingIndex(h, i - 1, size) != h)
  {
    if h + 1 < size {
      ModIs(h + 1, 0, h + 1, size);
    } else {
      ModIs(h + 1, 1, 0, size);
    }
    RingIndexCases((h + 1) % size, i, size);
    if i > 0 {
      RingIndexCases(h, i - 1, size);
    }
  }

  lemma WithLabelsSnoc(s: seq<ChangeRecord>, i: nat, selector: map<string, string>)
    requires i < |s|
    ensures WithLabels(s[..i + 1], selector)
         == WithLabels(s[..i], selector) + if LabelsMatch(s[i].labels, selector) then [s[i]] else []
  {
    assert s[..i + 1][..i] == s[..i];
  }

  lemma WithinSnoc(s: seq<ChangeRecord>, i: nat, cutoff: int, start: int, end: int)
    requires i < |s|
    ensures Within(s[..i + 1], cutoff, start, end)
         == Within(s[..i], cutoff, start, end) + if InWindow(s[i], cutoff, start, end) then [s[i]] else []
  {
    assert s[..i + 1][..i] == s[..i];
  }

  // ----- the collector object -----

  class ChangeCollector {
    const buffer: array<ChangeRecord>
    const retention: int
    var head: nat
    var count: nat
    /** Everything ever added, oldest first. */
    ghost var log: seq<ChangeRecord>

    /** The ring holds the last `count` entries of the log, the newest just before `head`. */
    ghost predicate Valid()
      reads this, buffer
    {
      && count == (if |log| < buffer.Length then |log| else buffer.Length)
      && (buffer.Length == 0 ==> head == 0 && log == [])
      && (buffer.Length > 0 ==>
            && head == |log| % buffer.Length
            && forall i | 0 <= i < count :: buffer[RingIndex(head, i, buffer.Length)] == log[|log| - 1 - i])
    }

    constructor (bufferSize: nat, retention: int, blank: ChangeRecord)
      ensures Valid() && log == [] && buffer.Length == bufferSize && this.retention == retention && fresh(buffer)
    {
      buffer := new ChangeRecord[bufferSize](_ => blank);
      this.retention := retention;
      head, count, log := 0, 0, [];
    }

    /** Writing into an empty buffer panics in the source. */
    method AddRecord(record: ChangeRecord)
      requires Valid() && buffer.Length > 0
      modifies this, buffer
      ensures Valid() && log == old(log) + [record]
      ensures head == |log| % buffer.Length
      ensures count == if |log| < buffer.Length then |log| else buffer.Length
    {
      var size := buffer.Length;
      ghost var h, before := head, log;
      ghost var was := buffer[..];
      buffer[head] := record;
      ModStep(|log|, size);
      head := (head + 1) % size;
      if count < size {
        count := count + 1;
      }
      log := log + [record];
      forall i | 0 <= i < count ensures buffer[RingIndex(head, i, size)] == log[|log| - 1 - i] {
        RingShift(h, size, i);
        if i > 0 {
          assert was[RingIndex(h, i - 1, size)] == before[|before| - 1 - (i - 1)];
        }
      }
    }

    /** The readers' index computation finds the i-th newest record of the log. */
    lemma ReadsLatest(i: nat)
      requires Valid() && i < count
      ensures buffer.Length > 0 && 0 <= RingIndex(head, i, buffer.Length) < buffer.Length
      ensures buffer[RingIndex(head, i, buffer.Length)] == Latest(log, count)[i]
    {
      RingIndexCases(head, i, buffer.Length);
    }

    method GetChangesInWindow(start: int, end: int, now: int) returns (results: seq<ChangeRecord>)
      requires Valid()
      ensures results == Within(Latest(log, count), now - retention, start, end)
    {
      results := [];
      var cutoff := now - retention;
      ghost var latest := Latest(log, count);
      assert Within(latest[..0], cutoff, start, end) == [] && latest[..count] == latest;
      hide Latest, Within, RingIndex;
      for i := 0 to count
        invariant results == Within(latest[..i], cutoff, start, end)
      {
        ReadsLatest(i);
        WithinSnoc(latest, i, cutoff, start, end);
        var record := buffer[RingIndex(head, i, buffer.Length)];
        if record.timestamp < cutoff {
          continue;
        }
        if start < record.timestamp && record.timestamp < end {
          results := results + [record];
        }
      }
    }

    method GetChangesForNamespace(namespace: string, start: int, end: int, now: int) returns (filtered: seq<ChangeRecord>)
      requires Valid()
      ensures filtered == InNamespace(Within(Latest(log, count), now - retention, start, end), namespace)
    {
      var changes := GetChangesInWindow(start, end, now);
      filtered := [];
      for i := 0 to |changes|
        invariant filtered == InNamespace(changes[..i], namespace)
      {
        assert changes[..i + 1][..i] == changes[..i];
        if changes[i].namespace == namespace {
          filtered := filtered + [changes[i]];
        }
      }
      assert changes[..|changes|] == changes;
    }

    method GetChangesForLabels(labels: map<string, string>, start: int, end: int, now: int)
      returns (filtered: seq<ChangeRecord>)
      requires Valid()
      ensures filtered == WithLabels(Within(Latest(log, count), now - retention, start, end), labels)
    {
      var changes := GetChangesInWindow(start, end, now);
      filtered := [];
      for i := 0 to |changes|
        invariant filtered == WithLabels(changes[..i], labels)
      {
        WithLabelsSnoc(changes, i, labels);
        var matches := MatchLabels(changes[i].labels, labels);
        if matches {
          filtered := filtered + [changes[i]];
        }
      }
      assert changes[..|changes|] == changes;
    }

    /** The count and the extreme timestamps; they are those of retained records when none lies in the future. */
    method Stats(now: int) returns (n: nat, oldest: int, newest: int)
      requires Valid()
      ensures n == count
      ensures count == 0 ==> oldest == newest == -62_135_596_800_000_000_000
      ensures var latest := Latest(log, count);
              count > 0 ==>
                && oldest <= now && (forall i | 0 <= i < count :: oldest <= latest[i].timestamp)
                && (oldest == now || exists i :: 0 <= i < count && latest[i].timestamp == oldest)
                && newest >= ZERO_TIME && (forall i | 0 <= i < count :: latest[i].timestamp <= newest)
                && (newest == ZERO_TIME || exists i :: 0 <= i < count && latest[i].timestamp == newest)
      ensures var latest := Latest(log, count);
              count > 0 && (forall i | 0 <= i < count :: ZERO_TIME <= latest[i].timestamp <= now) ==>
                && (exists i :: 0 <= i < count && latest[i].timestamp == oldest)
                && (exists i :: 0 <= i < count && latest[i].timestamp == newest)
    {
      hide Latest, RingIndex, InWindow;
      if count == 0 {
        return 0, ZERO_TIME, ZERO_TIME;
      }
      oldest := now;
      newest := ZERO_TIME;
      ghost var latest := Latest(log, count);
      for i := 0 to count
        invariant oldest <= now && forall j | 0 <= j < i :: oldest <= latest[j].timestamp
        invariant oldest == now || exists j :: 0 <= j < i && latest[j].timestamp == oldest
        invariant newest >= ZERO_TIME && forall j | 0 <= j < i :: latest[j].timestamp <= newest
        invariant newest == ZERO_TIME || exists j :: 0 <= j < i && latest[j].timestamp == newest
      {
        ReadsLatest(i);
        var record := buffer[RingIndex(head, i, buffer.Length)];
        if record.timestamp < oldest {
          oldest := record.timestamp;
        }
        if record.timestamp > newest {
          newest := record.timestamp;
        }
      }
      assert oldest <= latest[0].timestamp <= newest;
      n := count;
    }
  }

  // ----- what the readers return -----

  /** A record is returned exactly when it is among the last entries and in the window. */
  lemma {:induction false} WithinMember(s: seq<ChangeRecord>, cutoff: int, start: int, end: int, r: ChangeRecord)
    ensures r in Within(s, cutoff, start, end) <==> r in s && InWindow(r, cutoff, start, end)
  {
    if |s| == 0 {
    } else {
      var n := |s| - 1;
      WithinMember(s[..n], cutoff, start, end, r);
      assert s == s[..n] + [s[n]];
    }
  }

  lemma OneMore<T>(s: seq<T>, x: T, r: T)
    ensures multiset(s + [x])[r] == multiset(s)[r] + if x == r then 1 else 0
  {
  }

  /** One record more, of those filtered and of those kept. */
  lemma KeptCount(s: seq<ChangeRecord>, kept: seq<ChangeRecord>, keep: bool, r: ChangeRecord)
    requires |s| > 0
    ensures var n := |s| - 1; var last := if s[n] == r then 1 else 0;
            && multiset(s)[r] == multiset(s[..n])[r] + last
            && multiset(kept + if keep then [s[n]] else [])[r] == multiset(kept)[r] + if keep then last else 0
  {
    var n := |s| - 1;
    assert s == s[..n] + [s[n]];
    OneMore(s[..n], s[n], r);
    OneMore(kept, s[n], r);
    assert kept + [] == kept;
  }

  /** Each record is returned as often as it was added among the last entries. */
  lemma {:induction false} WithinCount(s: seq<ChangeRecord>, cutoff: int, start: int, end: int, r: ChangeRecord)
    ensures multiset(Within(s, cutoff, start, end))[r] == if InWindow(r, cutoff, start, end) then multiset(s)[r] else 0
  {
    hide InWindow;
    if |s| == 0 {
    } else {
      var n := |s| - 1;
      WithinCount(s[..n], cutoff, start, end, r);
      KeptCount(s, Within(s[..n], cutoff, start, end), InWindow(s[n], cutoff, start, end), r);
    }
  }

  lemma {:induction false} NamespaceCount(s: seq<ChangeRecord>, namespace: string, r: ChangeRecord)
    ensures multiset(InNamespace(s, namespace))[r] == if r.namespace == namespace then multiset(s)[r] else 0
  {
    if |s| == 0 {
    } else {
      var n := |s| - 1;
      NamespaceCount(s[..n], namespace, r);
      KeptCount(s, InNamespace(s[..n], namespace), s[n].namespace == namespace, r);
    }
  }

  lemma {:induction false} LabelsCount(s: seq<ChangeRecord>, selector: map<string, string>, r: ChangeRecord)
    ensures multiset(WithLabels(s, selector))[r] == if LabelsMatch(r.labels, selector) then multiset(s)[r] else 0
  {
    hide LabelsMatch;
    if |s| == 0 {
    } else {
      var n := |s| - 1;
      LabelsCount(s[..n], selector, r);
      KeptCount(s, WithLabels(s[..n], selector), LabelsMatch(s[n].labels, selector), r);
    }
  }

  /** The places in `b` at which the elements of `a` stand, in their order. */
  ghost predicate Places<T(!new)>(at: seq<int>, a: seq<T>, b: seq<T>) {
    && |at| == |a|
    && (forall i, j | 0 <= i < j < |at| :: at[i] < at[j])
    && forall i | 0 <= i < |at| :: 0 <= at[i] < |b| && a[i] == b[at[i]]
  }

  /** `a` is what remains of `b` after leaving elements out. */
  ghost predicate InOrder<T(!new)>(a: seq<T>, b: seq<T>) {
    exists at :: Places(at, a, b)
  }

  lemma InOrderSnoc<T(!new)>(a: seq<T>, b: seq<T>)
    requires |b| > 0 && InOrder(a, b[..|b| - 1])
    ensures InOrder(a, b) && InOrder(a + [b[|b| - 1]], b)
  {
    var at :| Places(at, a, b[..|b| - 1]);
    assert Places(at, a, b);
    assert Places(at + [|b| - 1], a + [b[|b| - 1]], b);
  }

  lemma NothingInOrder<T(!new)>()
    ensures InOrder<T>([], [])
  {
    assert Places<T>([], [], []);
  }

  lemma {:induction false} ReadersInOrder(s: seq<ChangeRecord>, cutoff: int, start: int, end: int, namespace: string,
                                          selector: map<string, string>)
    ensures InOrder(Within(s, cutoff, start, end), s)
    ensures InOrder(InNamespace(s, namespace), s) && InOrder(WithLabels(s, selector), s)
  {
    hide InWindow, LabelsMatch, InOrder;
    NothingInOrder<ChangeRecord>();
    if |s| == 0 {
    } else {
      var n := |s| - 1;
      ReadersInOrder(s[..n], cutoff, start, end, namespace, selector);
      InOrderSnoc(Within(s[..n], cutoff, start, end), s);
      InOrderSnoc(InNamespace(s[..n], namespace), s);
      InOrderSnoc(WithLabels(s[..n], selector), s);
      assert Within(s[..n], cutoff, start, end) + [] == Within(s[..n], cutoff, start, end);
      assert InNamespace(s[..n], namespace) + [] == InNamespace(s[..n], namespace);
      assert WithLabels(s[..n], selector) + [] == WithLabels(s[..n], selector);
    }
  }

  /**
   The three readers in one law. A record is returned as often as it is among the latest entries
   if it is not older than the cutoff and strictly inside the interval, and for the narrower
   readers if it is in the namespace, or if every label asked for has its value there, where an
   empty value also stands for no such label. What is returned stays in the order of the log,
   the newest first.
   */
  lemma ReadersExactly(latest: seq<ChangeRecord>, cutoff: int, start: int, end: int, namespace: string,
                       selector: map<string, string>, r: ChangeRecord)
    ensures var window := Within(latest, cutoff, start, end);
            var kept := if cutoff <= r.timestamp && start < r.timestamp < end then multiset(latest)[r] else 0;
            var named := forall x | x in selector ::
              (x in r.labels && r.labels[x] == selector[x]) || (x !in r.labels && selector[x] == "");
            && multiset(window)[r] == kept
            && multiset(InNamespace(window, namespace))[r] == (if r.namespace == namespace then kept else 0)
            && multiset(WithLabels(window, selector))[r] == (if named then kept else 0)
            && InOrder(window, latest)
            && InOrder(InNamespace(window, namespace), window) && InOrder(WithLabels(window, selector), window)
  {
    hide Within, InNamespace, WithLabels, InOrder;
    var window := Within(latest, cutoff, start, end);
    WithinCount(latest, cutoff, start, end, r);
    NamespaceCount(window, namespace, r);
    LabelsCount(window, selector, r);
    ReadersInOrder(latest, cutoff, start, end, namespace, selector);
    ReadersInOrder(window, cutoff, start, end, namespace, selector);
  }

  lemma {:induction false} RetentionHarmless(s: seq<ChangeRecord>, cutoff: int, start: int, end: int)
    requires cutoff <= start + 1 || end <= start + 1
    ensures Within(s, cutoff, start, end) == Within(s, start, start, end)
  {
    if |s| == 0 {
    } else {
      RetentionHarmless(s[..|s| - 1], cutoff, start, end);
    }
  }

  /** The cutoff removes nothing from the window, whatever was logged. */
  ghost predicate CutoffHarmless(cutoff: int, start: int, end: int) {
    forall s :: Within(s, cutoff, start, end) == Within(s, start, start, end)
  }

  /**
   The retention check removes no record from the window, whatever was logged, exactly when the
   cutoff is not after the first instant of the window or the window is empty.
   */
  lemma RetentionExactly(cutoff: int, start: int, end: int)
    ensures CutoffHarmless(cutoff, start, end) <==> cutoff <= start + 1 || end <= start + 1
  {
    if cutoff <= start + 1 || end <= start + 1 {
      forall s ensures Within(s, cutoff, start, end) == Within(s, start, start, end) {
        RetentionHarmless(s, cutoff, start, end);
      }
    } else {
      var r := ChangeRecord(start + 1, "", "", "", "", "", "", map[]);
      WithinMember([r], cutoff, start, end, r);
      WithinMember([r], start, start, end, r);
      assert r in [r] && Within([r], cutoff, start, end) != Within([r], start, start, end);
    }
  }
}
