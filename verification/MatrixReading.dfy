/** What a built matrix says (agents/comparator.py:203-470), in terms of the papers' own results and
    of the names that the program files them under. */
module MatrixReading {
  import opened Wrappers
  import opened Basics
  import opened Schemas
  import opened Sorting
  import opened Rows
  import opened Matrix
  import opened MatrixTheorems
  import opened Comparison
  import opened Directions
  import Names

  // ----- the results behind a cell -----

  /** The result is filed under the key. */
  predicate Files(b: BenchmarkResult, key: Key) {
    Names.NormalizeTask(b.task) == key.task && Names.NormalizeMetric(b.metric) == key.metric
  }

  function Under(key: Key): BenchmarkResult -> bool { (b: BenchmarkResult) => Files(b, key) }

  function Filed(bs: seq<BenchmarkResult>, under: BenchmarkResult -> bool): seq<BenchmarkResult> {
    if bs == [] then []
    else Filed(bs[..|bs| - 1], under) + if under(bs[|bs| - 1]) then [bs[|bs| - 1]] else []
  }

  /** All results that papers with index i report under a key, in their order. */
  function Own(papers: seq<PaperSlot>, i: int, under: BenchmarkResult -> bool): seq<BenchmarkResult> {
    if papers == [] then []
    else
      var last := papers[|papers| - 1];
      Own(papers[..|papers| - 1], i, under) + if last.paperIndex == i then Filed(last.benchmarks, under) else []
  }

  ghost predicate Sorts(nm: Naming, key: Key, under: BenchmarkResult -> bool) {
    forall b :: under(b) <==> KeyOf(nm, b) == key
  }

  lemma {:induction false} FiledIsOfKey(nm: Naming, bs: seq<BenchmarkResult>, key: Key, under: BenchmarkResult -> bool)
    requires Sorts(nm, key, under)
    ensures OfKey(nm, bs, key) == Filed(bs, under)
  {
    if bs != [] { FiledIsOfKey(nm, bs[..|bs| - 1], key, under); }
  }

  lemma {:induction false} PickIsOwn(nm: Naming, papers: seq<PaperSlot>, i: int, key: Key, under: BenchmarkResult -> bool)
    requires Sorts(nm, key, under)
    ensures Pick(nm, Reports(papers), key, i) == Own(papers, i, under)
  {
    if papers != [] {
      var n := |papers| - 1;
      PickIsOwn(nm, papers[..n], i, key, under);
      PickTagged(nm, Reports(papers[..n]), papers[n].paperIndex, papers[n].benchmarks, key, i);
      FiledIsOfKey(nm, papers[n].benchmarks, key, under);
    }
  }

  lemma {:induction false} UnderSorts(key: Key)
    ensures Sorts(PaperNaming(), key, Under(key))
  {}

  // ----- cells -----

  predicate OneCondition(own: seq<BenchmarkResult>) {
    forall x, y :: 0 <= x < |own| && 0 <= y < |own| ==>
      Names.NormalizeCondition(own[x].conditions) == Names.NormalizeCondition(own[y].conditions)
  }

  ghost predicate FirstOfBest(own: seq<BenchmarkResult>, metric: string, j: int) {
    && 0 <= j < |own|
    && (forall l :: 0 <= l < |own| ==> !Better(metric, own[l].value, own[j].value))
    && (forall l :: 0 <= l < j ==> Better(metric, own[j].value, own[l].value))
  }

  predicate CellFrom(cell: Cell, own: seq<BenchmarkResult>, j: int)
    requires 0 <= j < |own|
  {
    cell == Cell(Some(own[j].value), own[j].unit, own[j].conditions, |own|)
  }

  /** A cell counts the results, and shows the first of the best ones under one condition, and the
      first one otherwise. */
  ghost predicate ShowsOwn(cell: Cell, own: seq<BenchmarkResult>, metric: string) {
    if own == [] then cell == Cell(None, None, None, 0)
    else exists j :: 0 <= j < |own| && CellFrom(cell, own, j) && if OneCondition(own) then FirstOfBest(own, metric, j) else j == 0
  }

  lemma {:induction false} SameConditionsIff(own: seq<BenchmarkResult>)
    ensures SameConditions(PaperNaming(), own) <==> OneCondition(own)
  {
    if OneCondition(own) {
      forall x, y | x in own && y in own
        ensures Names.NormalizeCondition(x.conditions) == Names.NormalizeCondition(y.conditions)
      {
        var i, j :| 0 <= i < |own| && own[i] == x && 0 <= j < |own| && own[j] == y;
      }
    }
  }

  lemma {:induction false} CellShowsOwn(nm: Naming, own: seq<BenchmarkResult>, metric: string)
    requires nm == PaperNaming()
    ensures ShowsOwn(CellOf(nm, own, Names.IsHigherBetter(metric)), own, metric)
  {
    var higher := Names.IsHigherBetter(metric);
    var cell := CellOf(nm, own, higher);
    RepresentativeIsFirstBest(nm, own, higher);
    SameConditionsIff(own);
    if own != [] {
      if OneCondition(own) {
        var i: nat :| i < |own| && Select(nm, own, higher).0 == Some(own[i]) && FirstBest(own, i, higher);
        BestIsBest(own, metric, i);
        assert CellFrom(cell, own, i);
      } else {
        assert CellFrom(cell, own, 0);
      }
    }
  }

  lemma {:induction false} BestIsBest(own: seq<BenchmarkResult>, metric: string, i: nat)
    requires i < |own| && FirstBest(own, i, Names.IsHigherBetter(metric))
    ensures FirstOfBest(own, metric, i)
  {
    LowerIff(metric);
  }

  // ----- rows -----

  /** One paper is shown under a condition, the other under another. */
  predicate Clash(row: Row, i: int, j: int) {
    && i in row.cells && j in row.cells
    && (|| (Truthy(row.cells[i].conditions) && Truthy(row.cells[j].conditions)
            && Names.NormalizeCondition(row.cells[i].conditions) != Names.NormalizeCondition(row.cells[j].conditions))
        || (Truthy(row.cells[i].unit) && Truthy(row.cells[j].unit)
            && Names.NormalizeUnit(row.cells[i].unit) != Names.NormalizeUnit(row.cells[j].unit)))
  }

  ghost predicate HasCells(papers: seq<PaperSlot>, row: Row) {
    forall i :: i in row.cells <==> exists p :: 0 <= p < |papers| && papers[p].paperIndex == i
  }

  ghost predicate ShowsAll(papers: seq<PaperSlot>, row: Row) {
    forall i :: i in row.cells ==> ShowsOwn(row.cells[i], Own(papers, i, Under(row.key)), row.key.metric)
  }

  ghost predicate ComparesEvenly(row: Row) {
    row.comparable <==> (forall i :: i in row.cells ==> row.cells[i].count <= 1) && forall i, j :: !Clash(row, i, j)
  }

  /** A row has a cell for every paper, with that paper's results under its key; it is comparable
      exactly if no paper reports it twice and no two state different conditions or units. */
  lemma {:induction false} RowReads(papers: seq<PaperSlot>, n: nat)
    requires n < |MatrixOf(PaperNaming(), papers)|
    ensures var row := MatrixOf(PaperNaming(), papers)[n];
      && HasCells(papers, row) && ShowsAll(papers, row) && ComparesEvenly(row)
      && (row.higherIsBetter <==> !LowerWins(row.key.metric))
  {
    var row := MatrixOf(PaperNaming(), papers)[n];
    CellsShowTheReports(PaperNaming(), papers, n);
    MatrixRowWinner(PaperNaming(), papers, n, 0);
    IndexMembers(papers);
    LowerIff(row.key.metric);
    ClashIff(row);
    forall i | i in row.cells ensures ShowsOwn(row.cells[i], Own(papers, i, Under(row.key)), row.key.metric) {
      PickShown(PaperNaming(), papers, row, i);
    }
  }

  lemma {:induction false} PickShown(nm: Naming, papers: seq<PaperSlot>, row: Row, i: int)
    requires nm == PaperNaming() && i in row.cells && row.higherIsBetter == Names.IsHigherBetter(row.key.metric)
    requires row.cells[i] == CellOf(nm, Pick(nm, Reports(papers), row.key, i), row.higherIsBetter)
    ensures ShowsOwn(row.cells[i], Own(papers, i, Under(row.key)), row.key.metric)
  {
    var own := Own(papers, i, Under(row.key));
    assert Pick(nm, Reports(papers), row.key, i) == own by {
      UnderSorts(row.key);
      PickIsOwn(nm, papers, i, row.key, Under(row.key));
    }
    CellShowsOwn(nm, own, row.key.metric);
  }

  lemma {:induction false} IndexMembers(papers: seq<PaperSlot>)
    ensures forall i :: i in IndexesOf(papers) <==> exists p :: 0 <= p < |papers| && papers[p].paperIndex == i
  {
    forall i ensures i in IndexesOf(papers) <==> exists p :: 0 <= p < |papers| && papers[p].paperIndex == i {
      if p :| 0 <= p < |papers| && papers[p].paperIndex == i { assert IndexesOf(papers)[p] == i; }
    }
  }

  lemma {:induction false} ClashIff(row: Row)
    ensures ConditionsAgree(PaperNaming(), row.cells) && UnitsAgree(PaperNaming(), row.cells)
      <==> forall i, j :: !Clash(row, i, j)
  {
    if forall i, j :: !Clash(row, i, j) {
      forall i, j | i in row.cells && j in row.cells
        ensures Truthy(row.cells[i].conditions) && Truthy(row.cells[j].conditions) ==>
          Names.NormalizeCondition(row.cells[i].conditions) == Names.NormalizeCondition(row.cells[j].conditions)
        ensures Truthy(row.cells[i].unit) && Truthy(row.cells[j].unit) ==>
          Names.NormalizeUnit(row.cells[i].unit) == Names.NormalizeUnit(row.cells[j].unit)
      {
        assert !Clash(row, i, j);
      }
    }
  }

  // ----- the order of the rows -----

  /** a comes before b in a dictionary. */
  ghost predicate Earlier(a: string, b: string) { exists k :: PartAt(a, b, k) }

  ghost predicate KeyEarlier(a: Key, b: Key) {
    Earlier(a.task, b.task) || (a.task == b.task && Earlier(a.metric, b.metric))
  }

  predicate PartAt(a: string, b: string, k: int) {
    0 <= k <= |a| && k < |b| && a[..k] == b[..k] && (k == |a| || a[k] < b[k])
  }

  lemma {:induction false} PartLater(c: char, a: string, b: string, k: nat)
    ensures PartAt(a, b, k) <==> PartAt([c] + a, [c] + b, k + 1)
  {
    var x, y := [c] + a, [c] + b;
    if k <= |a| && k <= |b| {
      assert x[..k + 1] == [c] + a[..k] && y[..k + 1] == [c] + b[..k];
      assert a[..k] == x[..k + 1][1..] && b[..k] == y[..k + 1][1..];
    }
  }

  lemma {:induction false} EarlierCons(c: char, a: string, b: string)
    ensures Earlier([c] + a, [c] + b) <==> Earlier(a, b)
  {
    if k :| PartAt(a, b, k) { PartLater(c, a, b, k); }
    if k :| PartAt([c] + a, [c] + b, k) { PartLater(c, a, b, k - 1); }
  }

  lemma {:induction false} StrLeIff(a: string, b: string)
    ensures StrLe(a, b) <==> a == b || Earlier(a, b)
  {
    if a == "" || b == "" {
      if b != "" { assert a[..0] == b[..0] && PartAt(a, b, 0); }
    } else if a[0] == b[0] {
      StrLeIff(a[1..], b[1..]);
      EarlierCons(a[0], a[1..], b[1..]);
      assert a == [a[0]] + a[1..] && b == [b[0]] + b[1..];
    } else {
      assert a[..0] == b[..0];
      assert PartAt(a, b, 0) <==> a[0] < b[0];
      assert forall k :: 0 < k <= |a| && k < |b| ==> a[..k][0] != b[..k][0];
    }
  }

  predicate ReportedAt(papers: seq<PaperSlot>, p: int, j: int, key: Key) {
    0 <= p < |papers| && 0 <= j < |papers[p].benchmarks| && Files(papers[p].benchmarks[j], key)
  }

  predicate HasRow(rows: seq<Row>, key: Key) { exists n :: 0 <= n < |rows| && rows[n].key == key }

  function ReportOf(papers: seq<PaperSlot>, p: int, j: int): Report
    requires 0 <= p < |papers| && 0 <= j < |papers[p].benchmarks|
  {
    Report(papers[p].paperIndex, papers[p].benchmarks[j])
  }

  lemma {:induction false} ReportIn(papers: seq<PaperSlot>, p: int, j: int)
    requires 0 <= p < |papers| && 0 <= j < |papers[p].benchmarks|
    ensures ReportOf(papers, p, j) in Reports(papers)
  {
    var n := |papers| - 1;
    if p < n {
      ReportIn(papers[..n], p, j);
    } else {
      assert Tag(papers[n].paperIndex, papers[n].benchmarks)[j] == ReportOf(papers, p, j);
    }
  }

  lemma {:induction false} ReportFrom(papers: seq<PaperSlot>, r: Report) returns (p: int, j: int)
    requires r in Reports(papers)
    ensures 0 <= p < |papers| && 0 <= j < |papers[p].benchmarks| && ReportOf(papers, p, j) == r
  {
    var n := |papers| - 1;
    var tagged := Tag(papers[n].paperIndex, papers[n].benchmarks);
    if r in tagged {
      p := n;
      j :| 0 <= j < |tagged| && tagged[j] == r;
    } else {
      p, j := ReportFrom(papers[..n], r);
    }
  }

  lemma {:induction false} ReportsMember(nm: Naming, papers: seq<PaperSlot>, key: Key)
    requires nm == PaperNaming()
    ensures (exists r :: r in Reports(papers) && KeyOf(nm, r.benchmark) == key) <==> exists p, j :: ReportedAt(papers, p, j, key)
  {
    if r :| r in Reports(papers) && KeyOf(nm, r.benchmark) == key {
      var p, j := ReportFrom(papers, r);
      assert ReportedAt(papers, p, j, key);
    }
    if p, j :| ReportedAt(papers, p, j, key) {
      ReportIn(papers, p, j);
    }
  }

  /** There is one row for each task and metric that some paper reports, by task and then metric. */
  lemma {:induction false} RowsReported(papers: seq<PaperSlot>)
    ensures var rows := MatrixOf(PaperNaming(), papers);
      && (forall key :: HasRow(rows, key) <==> exists p, j :: ReportedAt(papers, p, j, key))
      && (forall m, n :: 0 <= m < n < |rows| ==> KeyEarlier(rows[m].key, rows[n].key))
  {
    RowsAreSorted(PaperNaming(), papers);
    KeysReported(PaperNaming(), papers, MatrixOf(PaperNaming(), papers));
  }

  lemma {:induction false} KeysReported(nm: Naming, papers: seq<PaperSlot>, rows: seq<Row>)
    requires nm == PaperNaming() && |rows| == |MatrixKeys(nm, Reports(papers))|
    requires forall n :: 0 <= n < |rows| ==> rows[n].key == MatrixKeys(nm, Reports(papers))[n]
    requires forall m, n :: 0 <= m < n < |rows| ==> KeyBefore(MatrixKeys(nm, Reports(papers))[m], MatrixKeys(nm, Reports(papers))[n])
    requires forall k :: k in MatrixKeys(nm, Reports(papers)) <==> k in KeysOf(nm, Reports(papers))
    ensures forall key :: HasRow(rows, key) <==> exists p, j :: ReportedAt(papers, p, j, key)
    ensures forall m, n :: 0 <= m < n < |rows| ==> KeyEarlier(rows[m].key, rows[n].key)
  {
    var keys := MatrixKeys(nm, Reports(papers));
    forall key ensures HasRow(rows, key) <==> exists p, j :: ReportedAt(papers, p, j, key) {
      KeysMember(nm, Reports(papers), key);
      ReportsMember(nm, papers, key);
      assert key in keys <==> HasRow(rows, key);
    }
    forall m, n | 0 <= m < n < |rows| ensures KeyEarlier(rows[m].key, rows[n].key) {
      assert KeyBefore(keys[m], keys[n]);
      KeyBeforeIsEarlier(rows[m].key, rows[n].key);
    }
  }

  lemma {:induction false} KeyBeforeIsEarlier(a: Key, b: Key)
    requires KeyBefore(a, b)
    ensures KeyEarlier(a, b)
  {
    StrLeIff(a.task, b.task);
    StrLeIff(a.metric, b.metric);
  }
}
