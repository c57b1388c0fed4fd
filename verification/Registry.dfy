/** The metrics registry (services/observability.py:59-134): four dictionaries kept by label
    tuple, proved to hold the counts of the events recorded. */
module Registry {
  import opened Wrappers
  import opened Basics
  import opened Text
  import opened Sorting
  import opened Metrics

  datatype Bound = AtMost(ms: int) | Infinite

  /** DURATION_BUCKETS_MS and +Inf. */
  function Buckets(): seq<Bound> {
    [AtMost(50), AtMost(100), AtMost(250), AtMost(500), AtMost(1000), AtMost(2500),
     AtMost(5000), AtMost(10000), AtMost(30000), AtMost(60000), Infinite]
  }

  predicate Within(value: real, b: Bound) {
    b == Infinite || value <= b.ms as real
  }

  predicate BoundLe(a: Bound, b: Bound) {
    b == Infinite || (a.AtMost? && a.ms <= b.ms)
  }

  /** `_format_bucket` */
  function BoundText(b: Bound): string
    requires b.AtMost? ==> b.ms >= 0
  {
    match b
    case Infinite => "+Inf"
    case AtMost(ms) => Decimal(ms)
  }

  /** The labels of a bucket line. */
  function BucketPairs(labels: seq<Tagged>, b: Bound): Labels
    requires b.AtMost? ==> b.ms >= 0
  {
    Pairs(labels) + [Pair("le", BoundText(b))]
  }

  lemma {:induction false} BoundTextInjective(a: Bound, b: Bound)
    requires (a.AtMost? ==> a.ms >= 0) && (b.AtMost? ==> b.ms >= 0) && BoundText(a) == BoundText(b)
    ensures a == b
  {
    if a.AtMost? { ValueOfDecimal(a.ms); }
    if b.AtMost? { ValueOfDecimal(b.ms); }
    assert BoundText(Infinite)[0] == '+';
  }

  /** Two bucket lines print the same labels only when they agree on the event, on every field
      and on the bound. */
  lemma {:induction false} BucketsPrintDistinctly(event: string, f: Fields, b: Bound, event': string, f': Fields, b': Bound)
    requires b in Buckets() && b' in Buckets()
    requires Format(BucketPairs(MetricLabels(event, f), b)) == Format(BucketPairs(MetricLabels(event', f'), b'))
    ensures event == event' && f == f' && b == b'
  {
    var l, l' := MetricLabels(event, f), MetricLabels(event', f');
    PairsPlain(l);
    PairsPlain(l');
    LePlain(Pairs(l), b);
    LePlain(Pairs(l'), b');
    FormatInjective(BucketPairs(l, b), BucketPairs(l', b'));
    LastApart(Pairs(l), Pairs(l'), Pair("le", BoundText(b)), Pair("le", BoundText(b')));
    BoundTextInjective(b, b');
    EventsPrintDistinctly(event, f, event', f');
  }

  lemma {:induction false} LePlain(labels: Labels, b: Bound)
    requires Plain(labels) && (b.AtMost? ==> b.ms >= 0)
    ensures Plain(labels + [Pair("le", BoundText(b))])
  {
    assert '=' !in "le";
  }

  lemma {:induction false} LastApart(a: Labels, b: Labels, x: Pair, y: Pair)
    requires a + [x] == b + [y]
    ensures a == b && x == y
  {
    assert (a + [x])[|a|] == x && (b + [y])[|b|] == y;
    assert a == (a + [x])[..|a|] && b == (b + [y])[..|b|];
  }

  // ----- what was recorded -----

  /** One recorded event: its labels, and its duration clamped at zero if it had one. */
  datatype Recorded = Recorded(labels: seq<Tagged>, duration: Option<real>)

  function Clamp(d: real): real { if d > 0.0 then d else 0.0 }

  function One(c: bool): nat { if c then 1 else 0 }

  /** Whether the event counts for the bucket of the label tuple. */
  function Hit(e: Recorded, l: seq<Tagged>, b: Bound): nat {
    One(e.labels == l && e.duration.Some? && Within(e.duration.value, b))
  }

  function Amount(e: Recorded, l: seq<Tagged>): real {
    if e.labels == l && e.duration.Some? then e.duration.value else 0.0
  }

  function CountOf(history: seq<Recorded>, l: seq<Tagged>): nat {
    if history == [] then 0
    else CountOf(history[..|history| - 1], l) + One(history[|history| - 1].labels == l)
  }

  /** Recorded durations of the label tuple that are not above the bound. */
  function CountWithin(history: seq<Recorded>, l: seq<Tagged>, b: Bound): nat {
    if history == [] then 0
    else CountWithin(history[..|history| - 1], l, b) + Hit(history[|history| - 1], l, b)
  }

  function SumOf(history: seq<Recorded>, l: seq<Tagged>): real {
    if history == [] then 0.0
    else SumOf(history[..|history| - 1], l) + Amount(history[|history| - 1], l)
  }

  /** Buckets grow with their bound, and none exceeds +Inf or the number of events. */
  lemma {:induction false} BucketsAreMonotone(history: seq<Recorded>, l: seq<Tagged>, a: Bound, b: Bound)
    requires BoundLe(a, b)
    ensures CountWithin(history, l, a) <= CountWithin(history, l, b) <= CountWithin(history, l, Infinite) <= CountOf(history, l)
  {
    if history != [] { BucketsAreMonotone(history[..|history| - 1], l, a, b); }
  }

  lemma {:induction false} BucketsRise(i: nat, j: nat)
    requires i < j < |Buckets()|
    ensures BoundLe(Buckets()[i], Buckets()[j])
    ensures Buckets()[|Buckets()| - 1] == Infinite
  {}

  lemma {:induction false} Append(history: seq<Recorded>, e: Recorded)
    ensures forall l :: CountOf(history + [e], l) == CountOf(history, l) + One(e.labels == l)
    ensures forall l, b :: CountWithin(history + [e], l, b) == CountWithin(history, l, b) + Hit(e, l, b)
    ensures forall l :: SumOf(history + [e], l) == SumOf(history, l) + Amount(e, l)
  {
    assert (history + [e])[..|history|] == history;
  }

  function RecordOf(event: string, fields: Fields, durationMs: Option<real>): Recorded {
    Recorded(MetricLabels(event, fields), if durationMs.Some? then Some(Clamp(durationMs.value)) else None)
  }

  // ----- the order of label tuples -----

  predicate TagLe(a: Tagged, b: Tagged) {
    if Name(a.field) == Name(b.field) then StrLe(a.value, b.value) else StrLe(Name(a.field), Name(b.field))
  }

  /** Tuples of pairs, compared from the left. */
  predicate LabelsLe(a: seq<Tagged>, b: seq<Tagged>) {
    a == [] || (b != [] && (if a[0] == b[0] then LabelsLe(a[1..], b[1..]) else TagLe(a[0], b[0])))
  }

  lemma {:induction false} TagLeTotal(a: Tagged, b: Tagged)
    ensures TagLe(a, b) || TagLe(b, a)
    ensures TagLe(a, b) && TagLe(b, a) ==> a == b
  {
    StrLeTotal(a.value, b.value);
    StrLeTotal(Name(a.field), Name(b.field));
    NamesTell(a.field, b.field);
  }

  lemma {:induction false} TagLeTransitive(a: Tagged, b: Tagged, c: Tagged)
    requires TagLe(a, b) && TagLe(b, c)
    ensures TagLe(a, c)
  {
    var x, y, z := Name(a.field), Name(b.field), Name(c.field);
    if x == y == z {
      StrLeTransitive(a.value, b.value, c.value);
    } else {
      if x != y && y != z { StrLeTransitive(x, y, z); }
      StrLeTotal(x, y);
    }
  }

  lemma {:induction false} LabelsLeTotal(a: seq<Tagged>, b: seq<Tagged>)
    ensures LabelsLe(a, b) || LabelsLe(b, a)
    ensures LabelsLe(a, b) && LabelsLe(b, a) ==> a == b
  {
    if a != [] && b != [] {
      TagLeTotal(a[0], b[0]);
      if a[0] == b[0] {
        LabelsLeTotal(a[1..], b[1..]);
        assert a == [a[0]] + a[1..] && b == [b[0]] + b[1..];
      }
    }
  }

  lemma {:induction false} LabelsLeTransitive(a: seq<Tagged>, b: seq<Tagged>, c: seq<Tagged>)
    requires LabelsLe(a, b) && LabelsLe(b, c)
    ensures LabelsLe(a, c)
  {
    if a != [] {
      if a[0] == b[0] == c[0] {
        LabelsLeTransitive(a[1..], b[1..], c[1..]);
      } else if a[0] != b[0] && b[0] != c[0] {
        TagLeTransitive(a[0], b[0], c[0]);
        TagLeTotal(a[0], b[0]);
      }
    }
  }

  lemma {:induction false} LabelsLeIsTotalOrder()
    ensures TotalPreorder(LabelsLe)
    ensures forall x, y :: LabelsLe(x, y) && LabelsLe(y, x) ==> x == y
  {
    forall x, y ensures (LabelsLe(x, y) || LabelsLe(y, x)) && (LabelsLe(x, y) && LabelsLe(y, x) ==> x == y) {
      LabelsLeTotal(x, y);
    }
    forall x, y, z | LabelsLe(x, y) && LabelsLe(y, z) ensures LabelsLe(x, z) { LabelsLeTransitive(x, y, z); }
  }

  // ----- the exposition -----

  const EVENTS_NAME := "paperintel_events_total"
  const EVENTS_HELP := "# HELP paperintel_events_total Total safe observability events emitted."
  const EVENTS_TYPE := "# TYPE paperintel_events_total counter"
  const DURATIONS_HELP := "# HELP paperintel_event_duration_ms Safe event durations in milliseconds."
  const DURATIONS_TYPE := "# TYPE paperintel_event_duration_ms histogram"
  const BUCKET_NAME := "paperintel_event_duration_ms_bucket"
  const COUNT_NAME := "paperintel_event_duration_ms_count"
  const SUM_NAME := "paperintel_event_duration_ms_sum"

  /** The label tuples recorded, and those recorded with a duration, as they came. */
  function LabelsOf(history: seq<Recorded>): seq<seq<Tagged>> {
    if history == [] then [] else LabelsOf(history[..|history| - 1]) + [history[|history| - 1].labels]
  }

  function TimedOf(history: seq<Recorded>): seq<seq<Tagged>> {
    if history == [] then []
    else
      var last := history[|history| - 1];
      TimedOf(history[..|history| - 1]) + if last.duration.Some? then [last.labels] else []
  }

  function RecordedLabels(history: seq<Recorded>): seq<seq<Tagged>> { Sort(Dedup(LabelsOf(history)), LabelsLe) }

  function TimedLabels(history: seq<Recorded>): seq<seq<Tagged>> { Sort(Dedup(TimedOf(history)), LabelsLe) }

  function EventLine(history: seq<Recorded>, l: seq<Tagged>): string {
    EVENTS_NAME + Format(Pairs(l)) + " " + Decimal(CountOf(history, l))
  }

  function EventLines(history: seq<Recorded>, keys: seq<seq<Tagged>>): seq<string> {
    if keys == [] then []
    else EventLines(history, keys[..|keys| - 1]) + [EventLine(history, keys[|keys| - 1])]
  }

  function BucketLine(history: seq<Recorded>, l: seq<Tagged>, b: Bound): string
    requires b.AtMost? ==> b.ms >= 0
  {
    BUCKET_NAME + Format(BucketPairs(l, b)) + " " + Decimal(CountWithin(history, l, b))
  }

  /** The lines of the first n buckets. */
  function BucketLines(history: seq<Recorded>, l: seq<Tagged>, n: nat): seq<string>
    requires n <= |Buckets()|
  {
    if n == 0 then []
    else
      BoundsPrint(n - 1);
      BucketLines(history, l, n - 1) + [BucketLine(history, l, Buckets()[n - 1])]
  }

  lemma {:induction false} BoundsPrint(n: nat)
    requires n < |Buckets()|
    ensures Buckets()[n] in Buckets() && (Buckets()[n].AtMost? ==> Buckets()[n].ms >= 0)
  {}

  function HistogramLines(history: seq<Recorded>, l: seq<Tagged>, show: real -> string): seq<string> {
    BucketLines(history, l, |Buckets()|)
      + [COUNT_NAME + Format(Pairs(l)) + " " + Decimal(CountWithin(history, l, Infinite)),
         SUM_NAME + Format(Pairs(l)) + " " + show(SumOf(history, l))]
  }

  function Histograms(history: seq<Recorded>, keys: seq<seq<Tagged>>, show: real -> string): seq<string> {
    if keys == [] then []
    else Histograms(history, keys[..|keys| - 1], show) + HistogramLines(history, keys[|keys| - 1], show)
  }

  /** What a registry prints after some events: the counts of every tuple recorded, and the
      histograms of those recorded with a duration, each sorted by tuple. */
  function Exposition(history: seq<Recorded>, show: real -> string): seq<string> {
    [EVENTS_HELP, EVENTS_TYPE] + EventLines(history, RecordedLabels(history))
      + [DURATIONS_HELP, DURATIONS_TYPE] + Histograms(history, TimedLabels(history), show)
  }

  lemma {:induction false} EventLinesSnoc(history: seq<Recorded>, keys: seq<seq<Tagged>>, n: nat)
    requires n < |keys|
    ensures EventLines(history, keys[..n + 1]) == EventLines(history, keys[..n]) + [EventLine(history, keys[n])]
  {
    assert keys[..n + 1][..n] == keys[..n];
  }

  lemma {:induction false} HistogramsSnoc(history: seq<Recorded>, keys: seq<seq<Tagged>>, n: nat, show: real -> string)
    requires n < |keys|
    ensures Histograms(history, keys[..n + 1], show)
      == Histograms(history, keys[..n], show) + HistogramLines(history, keys[n], show)
  {
    assert keys[..n + 1][..n] == keys[..n];
  }

  lemma {:induction false} LabelsOfIff(history: seq<Recorded>, l: seq<Tagged>)
    ensures l in LabelsOf(history) <==> CountOf(history, l) > 0
    ensures l in TimedOf(history) <==> CountWithin(history, l, Infinite) > 0
  {
    if history != [] { LabelsOfIff(history[..|history| - 1], l); }
  }

  /** The sorted list of a set of label tuples. */
  ghost predicate Listed(keys: seq<seq<Tagged>>, labels: set<seq<Tagged>>) {
    exists xs :: NoDup(xs) && (forall l :: l in xs <==> l in labels) && keys == Sort(xs, LabelsLe)
  }

  lemma {:induction false} ListedIsSorted(keys: seq<seq<Tagged>>, labels: set<seq<Tagged>>, ys: seq<seq<Tagged>>)
    requires Listed(keys, labels) && forall l :: l in ys <==> l in labels
    ensures keys == Sort(Dedup(ys), LabelsLe)
    ensures forall l :: l in keys <==> l in labels
  {
    var xs :| NoDup(xs) && (forall l :: l in xs <==> l in labels) && keys == Sort(xs, LabelsLe);
    DedupFacts(ys);
    SameElementsSameMultiset(xs, Dedup(ys));
    LabelsLeIsTotalOrder();
    SortForgetsOrder(xs, Dedup(ys), LabelsLe);
    forall l ensures l in keys <==> l in labels { SortMembers(xs, LabelsLe, l); }
  }

  lemma {:induction false} CountedLabels(counts: map<seq<Tagged>, nat>, history: seq<Recorded>, keys: seq<seq<Tagged>>)
    requires EventsHold(counts, history) && Listed(keys, counts.Keys)
    ensures keys == RecordedLabels(history) && forall l :: l in keys ==> l in counts && counts[l] == CountOf(history, l)
  {
    forall l ensures l in LabelsOf(history) <==> l in counts.Keys { LabelsOfIff(history, l); }
    ListedIsSorted(keys, counts.Keys, LabelsOf(history));
  }

  lemma {:induction false} BucketedLabels(
      buckets: map<seq<Tagged>, map<Bound, nat>>, history: seq<Recorded>, keys: seq<seq<Tagged>>)
    requires BucketsHold(buckets, history) && Listed(keys, buckets.Keys)
    ensures keys == TimedLabels(history)
  {
    forall l ensures l in TimedOf(history) <==> l in buckets.Keys { LabelsOfIff(history, l); }
    ListedIsSorted(keys, buckets.Keys, TimedOf(history));
  }

  /** sorted(d), by label tuple */
  method SortedKeys(labels: set<seq<Tagged>>) returns (keys: seq<seq<Tagged>>)
    ensures Listed(keys, labels)
  {
    var xs: seq<seq<Tagged>> := [];
    var rest := labels;
    while rest != {}
      invariant rest <= labels && NoDup(xs) && forall l :: l in xs <==> l in labels - rest
      decreases rest
    {
      var l := Member(rest);
      assert l !in xs;
      NoDupSnoc(xs, l);
      xs := xs + [l];
      rest := rest - {l};
    }
    keys := Sort(xs, LabelsLe);
  }

  lemma {:induction false} NoDupSnoc<T>(xs: seq<T>, x: T)
    requires NoDup(xs) && x !in xs
    ensures NoDup(xs + [x])
  {}

  method Member<T>(s: set<T>) returns (x: T)
    requires s != {}
    ensures x in s
  {
    x :| x in s;
  }

  // ----- what the lines tell -----

  /** Every tuple recorded has one event line, every tuple recorded with a duration one
      histogram, and both come in the order of the tuples. */
  lemma {:induction false} EachTupleOnce(history: seq<Recorded>)
    ensures NoDup(RecordedLabels(history)) && NoDup(TimedLabels(history))
    ensures Sorted(LabelsLe, RecordedLabels(history)) && Sorted(LabelsLe, TimedLabels(history))
    ensures forall l :: l in RecordedLabels(history) <==> CountOf(history, l) > 0
    ensures forall l :: l in TimedLabels(history) <==> CountWithin(history, l, Infinite) > 0
  {
    SortedOnce(LabelsOf(history));
    SortedOnce(TimedOf(history));
    forall l ensures l in RecordedLabels(history) <==> CountOf(history, l) > 0 { LabelsOfIff(history, l); }
    forall l ensures l in TimedLabels(history) <==> CountWithin(history, l, Infinite) > 0 { LabelsOfIff(history, l); }
  }

  lemma {:induction false} SortedOnce(xs: seq<seq<Tagged>>)
    ensures var keys := Sort(Dedup(xs), LabelsLe);
      NoDup(keys) && Sorted(LabelsLe, keys) && forall l :: l in keys <==> l in xs
  {
    var keys := Sort(Dedup(xs), LabelsLe);
    DedupFacts(xs);
    LabelsLeIsTotalOrder();
    SortSorts(Dedup(xs), LabelsLe);
    forall l ensures l in keys <==> l in xs { SortMembers(Dedup(xs), LabelsLe, l); }
    forall i, j | 0 <= i < j < |keys| ensures keys[i] != keys[j] {
      if keys[i] == keys[j] {
        CountTwo(keys, i, j);
        NoDupCount(Dedup(xs), keys[i]);
      }
    }
  }

  lemma {:induction false} LastSpace(a: string, x: string, b: string, y: string)
    requires a + " " + x == b + " " + y && AllDigits(x)
    ensures |b| <= |a|
  {
    var s := a + " " + x;
    assert s[|b|] == ' ' by { assert s == b + " " + y; }
    assert forall i :: |a| < i < |s| ==> s[i] == x[i - |a| - 1];
  }

  lemma {:induction false} NumberApart(a: string, m: nat, b: string, n: nat)
    requires a + " " + Decimal(m) == b + " " + Decimal(n)
    ensures a == b && m == n
  {
    LastSpace(a, Decimal(m), b, Decimal(n));
    LastSpace(b, Decimal(n), a, Decimal(m));
    var s := a + " " + Decimal(m);
    assert a == s[..|a|] && Decimal(m) == s[|a| + 1..];
    assert b == s[..|b|] && Decimal(n) == s[|b| + 1..] by { assert s == b + " " + Decimal(n); }
    ValueOfDecimal(m);
    ValueOfDecimal(n);
  }

  lemma {:induction false} NameApart(name: string, a: string, b: string)
    requires name + a == name + b
    ensures a == b
  {
    assert a == (name + a)[|name|..] && b == (name + b)[|name|..];
  }

  /** An event line gives back its tuple and its count. */
  lemma {:induction false} EventLineTells(history: seq<Recorded>, l: seq<Tagged>, history': seq<Recorded>, l': seq<Tagged>)
    requires EventLine(history, l) == EventLine(history', l')
    ensures l == l' && CountOf(history, l) == CountOf(history', l')
  {
    NumberApart(EVENTS_NAME + Format(Pairs(l)), CountOf(history, l), EVENTS_NAME + Format(Pairs(l')), CountOf(history', l'));
    NameApart(EVENTS_NAME, Format(Pairs(l)), Format(Pairs(l')));
    PairsPlain(l);
    PairsPlain(l');
    FormatInjective(Pairs(l), Pairs(l'));
    PairsInjective(l, l');
  }

  // ----- the registry -----

  /** d.get(k, 0) */
  function Get<K>(d: map<K, nat>, k: K): nat { if k in d then d[k] else 0 }

  function GetReal<K>(d: map<K, real>, k: K): real { if k in d then d[k] else 0.0 }

  function GetRow<K>(d: map<K, map<Bound, nat>>, k: K): map<Bound, nat> { if k in d then d[k] else map[] }

  /** Every bucket holds the number of recorded durations not above its bound, and there are
      buckets exactly where there are durations. */
  ghost predicate BucketsHold(buckets: map<seq<Tagged>, map<Bound, nat>>, history: seq<Recorded>) {
    && (forall l :: l in buckets <==> CountWithin(history, l, Infinite) > 0)
    && forall l, b :: b in Buckets() ==> Get(GetRow(buckets, l), b) == CountWithin(history, l, b)
  }

  ghost predicate EventsHold(counts: map<seq<Tagged>, nat>, history: seq<Recorded>) {
    forall l :: Get(counts, l) == CountOf(history, l) && (l in counts <==> CountOf(history, l) > 0)
  }

  ghost predicate DurationsHold(counts: map<seq<Tagged>, nat>, history: seq<Recorded>) {
    forall l :: Get(counts, l) == CountWithin(history, l, Infinite)
  }

  ghost predicate SumsHold(sums: map<seq<Tagged>, real>, history: seq<Recorded>) {
    forall l :: GetReal(sums, l) == SumOf(history, l)
  }

  /** The value is counted into every bucket not below it. */
  ghost predicate Counted(row': map<Bound, nat>, row: map<Bound, nat>, value: real) {
    forall b :: b in Buckets() ==> Get(row', b) == Get(row, b) + One(Within(value, b))
  }

  lemma {:induction false} EventsStep(counts: map<seq<Tagged>, nat>, history: seq<Recorded>, e: Recorded)
    requires EventsHold(counts, history)
    ensures EventsHold(counts[e.labels := Get(counts, e.labels) + 1], history + [e])
  {
    Append(history, e);
  }

  lemma {:induction false} DurationsStep(
      counts: map<seq<Tagged>, nat>, sums: map<seq<Tagged>, real>, history: seq<Recorded>, e: Recorded)
    requires DurationsHold(counts, history) && SumsHold(sums, history)
    ensures e.duration == None ==> DurationsHold(counts, history + [e]) && SumsHold(sums, history + [e])
    ensures e.duration.Some? ==>
      && DurationsHold(counts[e.labels := Get(counts, e.labels) + 1], history + [e])
      && SumsHold(sums[e.labels := GetReal(sums, e.labels) + e.duration.value], history + [e])
  {
    Append(history, e);
  }

  lemma {:induction false} BucketsIdle(buckets: map<seq<Tagged>, map<Bound, nat>>, history: seq<Recorded>, e: Recorded)
    requires BucketsHold(buckets, history) && e.duration == None
    ensures BucketsHold(buckets, history + [e])
  {
    Append(history, e);
  }

  lemma {:induction false} BucketsStep(
      buckets: map<seq<Tagged>, map<Bound, nat>>, history: seq<Recorded>, e: Recorded, row: map<Bound, nat>)
    requires BucketsHold(buckets, history) && e.duration.Some?
    requires Counted(row, GetRow(buckets, e.labels), e.duration.value)
    ensures BucketsHold(buckets[e.labels := row], history + [e])
  {
    Append(history, e);
    forall l, b | b in Buckets()
      ensures Get(GetRow(buckets[e.labels := row], l), b) == CountWithin(history + [e], l, b)
    {
      assert Get(GetRow(buckets, l), b) == CountWithin(history, l, b);
    }
  }

  class ObservabilityMetricsRegistry {
    var eventCounts: map<seq<Tagged>, nat>
    var durationCounts: map<seq<Tagged>, nat>
    var durationSums: map<seq<Tagged>, real>
    var durationBuckets: map<seq<Tagged>, map<Bound, nat>>
    ghost var history: seq<Recorded>

    ghost predicate Valid()
      reads this
    {
      && EventsHold(eventCounts, history) && DurationsHold(durationCounts, history)
      && SumsHold(durationSums, history) && BucketsHold(durationBuckets, history)
    }

    constructor ()
      ensures Valid() && history == []
    {
      eventCounts, durationCounts, durationSums, durationBuckets := map[], map[], map[], map[];
      history := [];
    }

    method Reset()
      modifies this
      ensures Valid() && history == []
    {
      eventCounts, durationCounts, durationSums, durationBuckets := map[], map[], map[], map[];
      history := [];
    }

    method RecordEvent(event: string, fields: Fields, durationMs: Option<real>)
      requires Valid()
      modifies this
      ensures Valid() && history == old(history) + [RecordOf(event, fields, durationMs)]
      ensures history[|history| - 1].labels == MetricLabels(event, fields)
      ensures history[|history| - 1].duration
        == if durationMs.Some? then Some(if durationMs.value < 0.0 then 0.0 else durationMs.value) else None
    {
      Record(MetricLabels(event, fields), if durationMs.Some? then Some(Clamp(durationMs.value)) else None);
    }

    /** The update under the lock. */
    method Record(labels: seq<Tagged>, duration: Option<real>)
      requires Valid()
      modifies this
      ensures Valid() && history == old(history) + [Recorded(labels, duration)]
    {
      ghost var e := Recorded(labels, duration);
      EventsStep(eventCounts, history, e);
      DurationsStep(durationCounts, durationSums, history, e);
      eventCounts := eventCounts[labels := Get(eventCounts, labels) + 1];
      if duration.Some? {
        durationCounts := durationCounts[labels := Get(durationCounts, labels) + 1];
        durationSums := durationSums[labels := GetReal(durationSums, labels) + duration.value];
        var row := CountInto(GetRow(durationBuckets, labels), duration.value);
        BucketsStep(durationBuckets, history, e, row);
        durationBuckets := durationBuckets[labels := row];
      } else {
        BucketsIdle(durationBuckets, history, e);
      }
      history := history + [e];
    }

    /** `render_prometheus`, up to the line breaks; the print of a float is a parameter. */
    method RenderPrometheus(show: real -> string) returns (lines: seq<string>)
      requires Valid()
      ensures lines == Exposition(history, show)
    {
      var events := RenderEvents();
      var histograms := RenderHistograms(show);
      lines := [EVENTS_HELP, EVENTS_TYPE] + events + [DURATIONS_HELP, DURATIONS_TYPE] + histograms;
    }

    /** The count lines of all label tuples, in order. */
    method RenderEvents() returns (lines: seq<string>)
      requires Valid()
      ensures lines == EventLines(history, RecordedLabels(history))
    {
      lines := [];
      var keys := SortedKeys(eventCounts.Keys);
      CountedLabels(eventCounts, history, keys);
      var n := 0;
      while n < |keys|
        invariant 0 <= n <= |keys|
        invariant lines == EventLines(history, keys[..n])
      {
        EventLinesSnoc(history, keys, n);
        assert keys[n] in keys;
        lines := lines + [EVENTS_NAME + Format(Pairs(keys[n])) + " " + Decimal(eventCounts[keys[n]])];
        n := n + 1;
      }
      assert keys[..n] == keys;
    }

    /** The histogram lines of all label tuples with durations, in order. */
    method RenderHistograms(show: real -> string) returns (lines: seq<string>)
      requires Valid()
      ensures lines == Histograms(history, TimedLabels(history), show)
    {
      lines := [];
      var keys := SortedKeys(durationBuckets.Keys);
      BucketedLabels(durationBuckets, history, keys);
      var n := 0;
      while n < |keys|
        invariant 0 <= n <= |keys|
        invariant lines == Histograms(history, keys[..n], show)
      {
        HistogramsSnoc(history, keys, n, show);
        assert keys[n] in keys;
        var buckets := RenderBuckets(keys[n]);
        lines := lines + (buckets + [COUNT_NAME + Format(Pairs(keys[n])) + " " + Decimal(Get(durationCounts, keys[n])),
                                     SUM_NAME + Format(Pairs(keys[n])) + " " + show(GetReal(durationSums, keys[n]))]);
        n := n + 1;
      }
      assert keys[..n] == keys;
    }

    /** The bucket lines of one label tuple. */
    method RenderBuckets(labels: seq<Tagged>) returns (lines: seq<string>)
      requires Valid()
      ensures lines == BucketLines(history, labels, |Buckets()|)
    {
      lines := [];
      var row := GetRow(durationBuckets, labels);
      var n := 0;
      while n < |Buckets()|
        invariant 0 <= n <= |Buckets()|
        invariant lines == BucketLines(history, labels, n)
      {
        BoundsPrint(n);
        var b := Buckets()[n];
        lines := lines + [BUCKET_NAME + Format(BucketPairs(labels, b)) + " " + Decimal(Get(row, b))];
        n := n + 1;
      }
    }

    /** The bucket loop. */
    static method CountInto(row: map<Bound, nat>, value: real) returns (row': map<Bound, nat>)
      ensures Counted(row', row, value)
    {
      row' := row;
      var n := 0;
      while n < |Buckets()|
        invariant 0 <= n <= |Buckets()|
        invariant forall i :: 0 <= i < n ==>
          Get(row', Buckets()[i]) == Get(row, Buckets()[i]) + One(Within(value, Buckets()[i]))
        invariant forall i :: n <= i < |Buckets()| ==> Get(row', Buckets()[i]) == Get(row, Buckets()[i])
      {
        var b := Buckets()[n];
        if Within(value, b) {
          row' := row'[b := Get(row', b) + 1];
        }
        n := n + 1;
      }
    }
  }
}
