/** Which values win the rows of the comparison matrix (agents/comparator.py:45-68, 193-273): the
    least for the metrics listed here, the greatest for all others. */
module Directions {
  import opened Wrappers
  import opened Text
  import opened Schemas
  import opened Rows
  import opened Matrix
  import opened MatrixTheorems
  import opened Comparison
  import Names

  const LOWER_METRICS: seq<string> :=
    ["latency", "latency_ms", "runtime", "time", "cost", "cost_per_token", "perplexity", "ppl", "error_rate", "wer", "cer", "loss"]

  const LOWER_HINTS: seq<string> := ["latency", "runtime", "perplexity", "error_rate", "wer", "cer", "loss"]

  /** Less is better: the normalised name is a listed one, or one of the hints occurs in it. */
  ghost predicate LowerWins(metric: string) {
    var m := Names.NormalizeMetric(metric);
    m in LOWER_METRICS || exists i :: 0 <= i < |LOWER_HINTS| && Within(LOWER_HINTS[i], m)
  }

  ghost predicate Within(hint: string, m: string) {
    exists a, b :: m == a + hint + b
  }

  lemma {:induction false} WithinIff(hint: string, m: string)
    ensures Within(hint, m) <==> Contains(m, hint)
  {
    if Contains(m, hint) {
      var i :| 0 <= i <= |m| && MatchesAt(m, hint, i);
      assert m == m[..i] + hint + m[i + |hint|..];
    }
    if Within(hint, m) {
      var a, b :| m == a + hint + b;
      assert m[|a|..|a| + |hint|] == hint;
      assert MatchesAt(m, hint, |a|);
    }
  }

  /** The program takes exactly these metrics to be better when lower. */
  lemma {:induction false} LowerIff(metric: string)
    ensures !Names.IsHigherBetter(metric) <==> LowerWins(metric)
  {
    var m := Names.NormalizeMetric(metric);
    ListedIff(m);
    HintedIff(m);
  }

  lemma {:induction false} ListedIff(m: string)
    ensures m in LOWER_METRICS <==> Names.LowerIsBetterExact(m)
  {
    if m in LOWER_METRICS {
      var i :| 0 <= i < |LOWER_METRICS| && LOWER_METRICS[i] == m;
    }
    assert forall i :: 0 <= i < |LOWER_METRICS| ==> LOWER_METRICS[i] in LOWER_METRICS;
    assert |LOWER_METRICS| == 12;
  }

  lemma {:induction false} HintedIff(m: string)
    ensures (exists i :: 0 <= i < |LOWER_HINTS| && Within(LOWER_HINTS[i], m)) <==> Names.HasLowerHint(m)
  {
    forall i | 0 <= i < |LOWER_HINTS| ensures Within(LOWER_HINTS[i], m) <==> Contains(m, LOWER_HINTS[i]) {
      WithinIff(LOWER_HINTS[i], m);
    }
    assert Within(LOWER_HINTS[0], m) <==> Contains(m, "latency");
    assert Within(LOWER_HINTS[1], m) <==> Contains(m, "runtime");
    assert Within(LOWER_HINTS[2], m) <==> Contains(m, "perplexity");
    assert Within(LOWER_HINTS[3], m) <==> Contains(m, "error_rate");
    assert Within(LOWER_HINTS[4], m) <==> Contains(m, "wer");
    assert Within(LOWER_HINTS[5], m) <==> Contains(m, "cer");
    assert Within(LOWER_HINTS[6], m) <==> Contains(m, "loss");
  }

  // ----- the rows of the matrix -----

  /** x is the better value for the metric. */
  ghost predicate Better(metric: string, x: real, y: real) {
    if LowerWins(metric) then x < y else x > y
  }

  predicate Shows(row: Row, i: int) { i in row.cells && row.cells[i].value.Some? }

  /** Paper w reports the row, and its value is strictly better than that of every other that does. */
  ghost predicate HasBestValue(row: Row, w: int) {
    && Shows(row, w)
    && forall i :: Shows(row, i) && i != w ==> Better(row.key.metric, row.cells[w].value.value, row.cells[i].value.value)
  }

  /** A paper wins a row of the matrix exactly when the row is comparable, another paper reports it,
      and its value is the strictly least one for a lower-is-better metric, or else the strictly
      greatest; the margin is its distance to the nearest other value. */
  lemma {:induction false} WinnerHasBestValue(papers: seq<PaperSlot>, n: nat, w: int)
    requires n < |MatrixOf(PaperNaming(), papers)|
    ensures var row := MatrixOf(PaperNaming(), papers)[n];
      && (row.winner == Some(w) <==>
            row.comparable && HasBestValue(row, w) && exists i :: Shows(row, i) && i != w)
      && (row.winner == Some(w) ==> row.margin.Some? && NearestAt(row, w, row.margin.value))
  {
    var row := MatrixOf(PaperNaming(), papers)[n];
    MatrixRowWinner(PaperNaming(), papers, n, w);
    CellsShowTheReports(PaperNaming(), papers, n);
    BestValueIff(row, w);
    if row.winner == Some(w) { SeparationIsNearest(row, w, row.margin.value); }
  }

  /** d is the distance of paper w's value to the nearest other one. */
  ghost predicate NearestAt(row: Row, w: int, d: real) {
    && Shows(row, w)
    && (exists i :: Shows(row, i) && i != w && Distance(row.cells[w].value.value, row.cells[i].value.value) == d)
    && (forall i :: Shows(row, i) && i != w ==> Distance(row.cells[w].value.value, row.cells[i].value.value) >= d)
  }

  function Distance(x: real, y: real): real { if x >= y then x - y else y - x }

  lemma {:induction false} BestValueIff(row: Row, w: int)
    requires row.higherIsBetter == Names.IsHigherBetter(row.key.metric)
    ensures TwoReport(row) && Outdoes(row, w) <==> HasBestValue(row, w) && exists i :: Shows(row, i) && i != w
  {
    LowerIff(row.key.metric);
    if TwoReport(row) && Outdoes(row, w) {
      var i, j :| i in row.cells && j in row.cells && i != j && row.cells[i].value.Some? && row.cells[j].value.Some?;
      assert Shows(row, if i == w then j else i);
    }
  }

  lemma {:induction false} SeparationIsNearest(row: Row, w: int, m: real)
    requires row.higherIsBetter == Names.IsHigherBetter(row.key.metric) && Outdoes(row, w) && Separates(row, w, m)
    ensures NearestAt(row, w, m)
  {
    forall i | Shows(row, i) && i != w
      ensures Distance(row.cells[w].value.value, row.cells[i].value.value)
        == Gap(row.higherIsBetter, row.cells[w].value.value, row.cells[i].value.value) {}
    var i :| i in row.cells && i != w && row.cells[i].value.Some?
      && Gap(row.higherIsBetter, row.cells[w].value.value, row.cells[i].value.value) == m;
    assert Shows(row, i);
  }

  /** Every result in a row has the direction of the row, whatever spelling of the metric it uses. */
  lemma {:induction false} RowDirectionIsRawDirection(papers: seq<PaperSlot>, n: nat, b: BenchmarkResult)
    requires n < |MatrixOf(PaperNaming(), papers)|
    requires KeyOf(PaperNaming(), b) == MatrixOf(PaperNaming(), papers)[n].key
    ensures MatrixOf(PaperNaming(), papers)[n].higherIsBetter <==> !LowerWins(b.metric)
    ensures LowerWins(Names.NormalizeMetric(b.metric)) <==> LowerWins(b.metric)
  {
    CellsShowTheReports(PaperNaming(), papers, n);
    Names.MetricIdempotent(b.metric);
    LowerIff(b.metric);
    Names.DirectionSurvivesNormalisation(b.metric);
  }

  // ----- examples -----

  lemma {:induction false} LatencyAndAccuracy()
    ensures LowerWins("latency") && !LowerWins("accuracy")
  {
    PlainWords();
    PlainMetric("latency");
    PlainMetric("accuracy");
    assert LOWER_METRICS[0] == "latency";
    AccuracyHasNoHint();
    ListedIff("accuracy");
    HintedIff("accuracy");
  }

  lemma {:induction false} PlainMetric(m: string)
    requires Names.AllPlain(m) && Names.MetricAlias(m) in {None, Some(m)}
    ensures Names.NormalizeMetric(m) == m
  {
    Names.NormalizePlain(m);
    assert Names.Replace(m, ' ', '_') == m;
  }

  lemma {:induction false} PlainWords()
    ensures Names.AllPlain("latency") && Names.MetricAlias("latency") == None
    ensures Names.AllPlain("accuracy") && Names.MetricAlias("accuracy") == Some("accuracy")
  {}

  lemma {:induction false} ContainedChar(m: string, hint: string, k: nat)
    requires k < |hint|
    ensures Contains(m, hint) ==> exists i :: 0 <= i < |m| && m[i] == hint[k]
  {
    if Contains(m, hint) {
      var i :| 0 <= i <= |m| && MatchesAt(m, hint, i);
      assert m[i..i + |hint|][k] == m[i + k];
    }
  }

  lemma {:induction false} Missing(m: string, hint: string, k: nat)
    requires k < |hint| && forall i :: 0 <= i < |m| ==> m[i] != hint[k]
    ensures !Contains(m, hint)
  {
    ContainedChar(m, hint, k);
  }

  lemma {:induction false} AccuracyHasNoHint()
    ensures !Names.HasLowerHint("accuracy")
  {
    var m := "accuracy";
    Missing(m, "latency", 0);
    Missing(m, "runtime", 4);
    Missing(m, "perplexity", 0);
    Missing(m, "error_rate", 3);
    Missing(m, "wer", 0);
    Missing(m, "cer", 1);
    Missing(m, "loss", 0);
  }

  /** One result, without conditions or unit. */
  function Plainly(task: string, metric: string, value: real): BenchmarkResult {
    BenchmarkResult(task, metric, value, None, None)
  }

  lemma {:induction false} TwoReports(papers: seq<PaperSlot>, a: BenchmarkResult, b: BenchmarkResult)
    requires |papers| == 2 && papers[0].benchmarks == [a] && papers[1].benchmarks == [b]
    ensures Reports(papers) == [Report(papers[0].paperIndex, a), Report(papers[1].paperIndex, b)]
  {
    ReportsSnoc(papers, 0);
    ReportsSnoc(papers, 1);
    assert papers[..0] == [] && papers[..2] == papers;
    assert Tag(papers[0].paperIndex, [a]) == [Report(papers[0].paperIndex, a)];
    assert Tag(papers[1].paperIndex, [b]) == [Report(papers[1].paperIndex, b)];
  }

  lemma {:induction false} PickOfTwo(nm: Naming, x: Report, y: Report, k: Key)
    requires KeyOf(nm, x.benchmark) == KeyOf(nm, y.benchmark) == k && x.index != y.index
    ensures Pick(nm, [x, y], k, x.index) == [x.benchmark] && Pick(nm, [x, y], k, y.index) == [y.benchmark]
  {
    PickSnoc(nm, [x], y, k, x.index);
    PickSnoc(nm, [x], y, k, y.index);
    PickSnoc(nm, [], x, k, x.index);
    PickSnoc(nm, [], x, k, y.index);
    assert [x] + [y] == [x, y] && [] + [x] == [x];
  }

  lemma {:induction false} OneRow(nm: Naming, papers: seq<PaperSlot>, a: BenchmarkResult, b: BenchmarkResult)
    requires |papers| == 2 && papers[0].benchmarks == [a] && papers[1].benchmarks == [b] && KeyOf(nm, a) == KeyOf(nm, b)
    ensures |MatrixOf(nm, papers)| == 1 && MatrixOf(nm, papers)[0].key == KeyOf(nm, a)
  {
    var reports, k := Reports(papers), KeyOf(nm, a);
    var keys := MatrixKeys(nm, reports);
    TwoReports(papers, a, b);
    RowsAreSorted(nm, papers);
    assert KeysOf(nm, reports)[0] == k && KeysOf(nm, reports)[1] == k;
    assert forall i :: 0 <= i < |keys| ==> keys[i] in keys && keys[i] in KeysOf(nm, reports);
    OneKey(keys, k);
  }

  lemma {:induction false} OneKey(keys: seq<Key>, k: Key)
    requires k in keys && forall i :: 0 <= i < |keys| ==> keys[i] == k
    requires forall m, n :: 0 <= m < n < |keys| ==> KeyBefore(keys[m], keys[n])
    ensures keys == [k]
  {
    assert |keys| >= 2 ==> KeyBefore(keys[0], keys[1]);
  }

  lemma {:induction false} TwoCells(nm: Naming, papers: seq<PaperSlot>, a: BenchmarkResult, b: BenchmarkResult)
    requires |papers| == 2 && papers[0].benchmarks == [a] && papers[1].benchmarks == [b]
    requires papers[0].paperIndex != papers[1].paperIndex && KeyOf(nm, a) == KeyOf(nm, b)
    requires |MatrixOf(nm, papers)| == 1 && MatrixOf(nm, papers)[0].key == KeyOf(nm, a)
    ensures var cells := MatrixOf(nm, papers)[0].cells;
      && (forall i :: i in cells <==> i == papers[0].paperIndex || i == papers[1].paperIndex)
      && cells[papers[0].paperIndex] == Cell(Some(a.value), a.unit, a.conditions, 1)
      && cells[papers[1].paperIndex] == Cell(Some(b.value), b.unit, b.conditions, 1)
  {
    CellOfOne(nm, papers, a, b, MatrixOf(nm, papers)[0].higherIsBetter);
    CellAt(nm, papers, 0, 0);
    CellAt(nm, papers, 0, 1);
    CellKeys(nm, papers, 0);
  }

  lemma {:induction false} CellAt(nm: Naming, papers: seq<PaperSlot>, n: nat, k: nat)
    requires n < |MatrixOf(nm, papers)| && k < |papers|
    ensures var row := MatrixOf(nm, papers)[n]; var i := papers[k].paperIndex;
      i in row.cells && row.cells[i] == CellOf(nm, Pick(nm, Reports(papers), row.key, i), row.higherIsBetter)
  {
    CellsShowTheReports(nm, papers, n);
    assert IndexesOf(papers)[k] in IndexesOf(papers);
  }

  lemma {:induction false} CellKeys(nm: Naming, papers: seq<PaperSlot>, n: nat)
    requires n < |MatrixOf(nm, papers)| && |papers| == 2
    ensures forall i :: i in MatrixOf(nm, papers)[n].cells <==> i == papers[0].paperIndex || i == papers[1].paperIndex
  {
    CellsShowTheReports(nm, papers, n);
    IndexesOfTwo(papers);
  }

  lemma {:induction false} IndexesOfTwo(papers: seq<PaperSlot>)
    requires |papers| == 2
    ensures IndexesOf(papers) == [papers[0].paperIndex, papers[1].paperIndex]
  {}

  lemma {:induction false} CellOfOne(nm: Naming, papers: seq<PaperSlot>, a: BenchmarkResult, b: BenchmarkResult, higher: bool)
    requires |papers| == 2 && papers[0].benchmarks == [a] && papers[1].benchmarks == [b]
    requires papers[0].paperIndex != papers[1].paperIndex && KeyOf(nm, a) == KeyOf(nm, b)
    ensures CellOf(nm, Pick(nm, Reports(papers), KeyOf(nm, a), papers[0].paperIndex), higher)
      == Cell(Some(a.value), a.unit, a.conditions, 1)
    ensures CellOf(nm, Pick(nm, Reports(papers), KeyOf(nm, a), papers[1].paperIndex), higher)
      == Cell(Some(b.value), b.unit, b.conditions, 1)
  {
    TwoReports(papers, a, b);
    PickOfTwo(nm, Report(papers[0].paperIndex, a), Report(papers[1].paperIndex, b), KeyOf(nm, a));
    CellIff(nm, [a], higher);
    CellIff(nm, [b], higher);
  }

  /** A row with two plain cells is comparable, and won by the better value. */
  lemma {:induction false} PlainRow(papers: seq<PaperSlot>, n: nat, i: int, j: int, x: real, y: real)
    requires n < |MatrixOf(PaperNaming(), papers)| && i != j && x != y
    requires var cells := MatrixOf(PaperNaming(), papers)[n].cells;
      && (forall k :: k in cells <==> k == i || k == j)
      && cells[i] == Cell(Some(x), None, None, 1) && cells[j] == Cell(Some(y), None, None, 1)
    ensures var row := MatrixOf(PaperNaming(), papers)[n];
      row.comparable && row.winner == Some(if Better(row.key.metric, x, y) then i else j)
  {
    var row := MatrixOf(PaperNaming(), papers)[n];
    assert Shows(row, i) && Shows(row, j);
    MatrixRowWinner(PaperNaming(), papers, n, i);
    WinnerHasBestValue(papers, n, i);
    WinnerHasBestValue(papers, n, j);
  }

  /** Two papers that report different values for one metric: one row, won by the better value. */
  lemma {:induction false} TwoPapersCompared(papers: seq<PaperSlot>, task: string, metric: string, x: real, y: real)
    requires |papers| == 2 && papers[0].paperIndex != papers[1].paperIndex && x != y
    requires papers[0].benchmarks == [Plainly(task, metric, x)] && papers[1].benchmarks == [Plainly(task, metric, y)]
    ensures var rows := MatrixOf(PaperNaming(), papers);
      && |rows| == 1 && rows[0].comparable && rows[0].key.metric == Names.NormalizeMetric(metric)
      && rows[0].winner == Some(if Better(rows[0].key.metric, x, y) then papers[0].paperIndex else papers[1].paperIndex)
  {
    var nm, a, b := PaperNaming(), Plainly(task, metric, x), Plainly(task, metric, y);
    OneRow(nm, papers, a, b);
    TwoCells(nm, papers, a, b);
    PlainRow(papers, 0, papers[0].paperIndex, papers[1].paperIndex, x, y);
  }

  /** The lower latency wins, and the higher accuracy. */
  lemma {:induction false} LatencyAndAccuracyRows(papers: seq<PaperSlot>, task: string, metric: string, x: real, y: real)
    requires |papers| == 2 && papers[0].paperIndex != papers[1].paperIndex && x < y
    requires papers[0].benchmarks == [Plainly(task, metric, x)] && papers[1].benchmarks == [Plainly(task, metric, y)]
    ensures metric == "latency" ==> MatrixOf(PaperNaming(), papers)[0].winner == Some(papers[0].paperIndex)
    ensures metric == "accuracy" ==> MatrixOf(PaperNaming(), papers)[0].winner == Some(papers[1].paperIndex)
  {
    TwoPapersCompared(papers, task, metric, x, y);
    LatencyAndAccuracy();
    PlainWords();
    PlainMetric("latency");
    PlainMetric("accuracy");
  }
}
