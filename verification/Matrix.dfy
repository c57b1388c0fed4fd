/** The comparison matrix (agents/comparator.py:276-364): grouping by task and metric, the sorted
    rows, and what holds across rows. */
module Matrix {
  import opened Basics
  import opened Schemas
  import opened Sorting
  import opened Rows

  /** One reported benchmark and the paper it belongs to. */
  datatype Report = Report(index: int, benchmark: BenchmarkResult)

  function Tag(index: int, benchmarks: seq<BenchmarkResult>): (r: seq<Report>)
    ensures |r| == |benchmarks|
  {
    seq(|benchmarks|, i requires 0 <= i < |benchmarks| => Report(index, benchmarks[i]))
  }

  /** All reports, in the order the nested loops visit them. */
  function Reports(papers: seq<PaperSlot>): seq<Report> {
    if papers == [] then []
    else
      var p := papers[|papers| - 1];
      Reports(papers[..|papers| - 1]) + Tag(p.paperIndex, p.benchmarks)
  }

  function KeyOf(nm: Naming, b: BenchmarkResult): Key { Key(nm.task(b.task), nm.metric(b.metric)) }

  type Grouped = map<Key, Variants>

  /** grouped[key][index].append(benchmark) on the nested default dictionaries. */
  function AddReport(nm: Naming, grouped: Grouped, r: Report): Grouped {
    var k := KeyOf(nm, r.benchmark);
    var byPaper := if k in grouped then grouped[k] else map[];
    grouped[k := byPaper[r.index := Lookup(byPaper, r.index) + [r.benchmark]]]
  }

  function Group(nm: Naming, reports: seq<Report>): Grouped {
    if reports == [] then map[]
    else AddReport(nm, Group(nm, reports[..|reports| - 1]), reports[|reports| - 1])
  }

  function KeysOf(nm: Naming, reports: seq<Report>): (r: seq<Key>)
    ensures |r| == |reports|
  {
    seq(|reports|, i requires 0 <= i < |reports| => KeyOf(nm, reports[i].benchmark))
  }

  predicate KeyLe(a: Key, b: Key) {
    if a.task == b.task then StrLe(a.metric, b.metric) else StrLe(a.task, b.task)
  }

  function IndexesOf(papers: seq<PaperSlot>): (r: seq<int>)
    ensures |r| == |papers|
    ensures forall i :: 0 <= i < |papers| ==> r[i] == papers[i].paperIndex
  {
    seq(|papers|, i requires 0 <= i < |papers| => papers[i].paperIndex)
  }

  function RowsFor(nm: Naming, order: seq<int>, grouped: Grouped, keys: seq<Key>): (rows: seq<Row>)
    requires forall k :: k in keys ==> k in grouped
    ensures |rows| == |keys|
  {
    if keys == [] then []
    else
      var k := keys[|keys| - 1];
      RowsFor(nm, order, grouped, keys[..|keys| - 1]) + [RowOf(nm, order, grouped[k], k)]
  }

  /** The keys of the matrix, sorted. */
  function MatrixKeys(nm: Naming, reports: seq<Report>): seq<Key> {
    Sort(Dedup(KeysOf(nm, reports)), KeyLe)
  }

  function MatrixOf(nm: Naming, papers: seq<PaperSlot>): seq<Row> {
    var reports := Reports(papers);
    GroupKeys(nm, reports);
    RowsFor(nm, Dedup(IndexesOf(papers)), Group(nm, reports), MatrixKeys(nm, reports))
  }

  lemma {:induction false} KeyLeIsTotalOrder()
    ensures TotalPreorder(KeyLe)
    ensures forall x, y :: KeyLe(x, y) && KeyLe(y, x) ==> x == y
  {
    forall x: Key, y: Key ensures (KeyLe(x, y) || KeyLe(y, x)) && (KeyLe(x, y) && KeyLe(y, x) ==> x == y) {
      StrLeTotal(x.task, y.task);
      StrLeTotal(x.metric, y.metric);
    }
    forall x, y, z | KeyLe(x, y) && KeyLe(y, z) ensures KeyLe(x, z) {
      KeyLeTransitive(x, y, z);
    }
  }

  lemma {:induction false} KeyLeTransitive(x: Key, y: Key, z: Key)
    requires KeyLe(x, y) && KeyLe(y, z)
    ensures KeyLe(x, z)
  {
    if x.task == y.task == z.task {
      StrLeTransitive(x.metric, y.metric, z.metric);
    } else {
      if x.task != y.task && y.task != z.task {
        StrLeTransitive(x.task, y.task, z.task);
      }
      StrLeTotal(x.task, y.task);
    }
  }

  lemma {:induction false} GroupDomain(nm: Naming, reports: seq<Report>)
    ensures forall k :: k in Group(nm, reports) <==> k in KeysOf(nm, reports)
  {
    if reports != [] {
      var n := |reports| - 1;
      GroupDomain(nm, reports[..n]);
      assert KeysOf(nm, reports) == KeysOf(nm, reports[..n]) + [KeyOf(nm, reports[n].benchmark)];
    }
  }

  lemma {:induction false} GroupKeys(nm: Naming, reports: seq<Report>)
    ensures forall k :: k in MatrixKeys(nm, reports) <==> k in Group(nm, reports)
  {
    GroupDomain(nm, reports);
    DedupFacts(KeysOf(nm, reports));
    KeyLeIsTotalOrder();
    forall k ensures k in MatrixKeys(nm, reports) <==> k in Group(nm, reports) {
      SortMembers(Dedup(KeysOf(nm, reports)), KeyLe, k);
    }
  }

  // ----- the loops -----

  lemma {:induction false} ReportsSnoc(papers: seq<PaperSlot>, n: nat)
    requires n < |papers|
    ensures Reports(papers[..n + 1]) == Reports(papers[..n]) + Tag(papers[n].paperIndex, papers[n].benchmarks)
  {
    assert papers[..n + 1][..n] == papers[..n];
  }

  lemma {:induction false} GroupSnoc(nm: Naming, reports: seq<Report>, r: Report)
    ensures Group(nm, reports + [r]) == AddReport(nm, Group(nm, reports), r)
    ensures KeysOf(nm, reports + [r]) == KeysOf(nm, reports) + [KeyOf(nm, r.benchmark)]
    ensures Dedup(KeysOf(nm, reports + [r])) ==
      var keys := Dedup(KeysOf(nm, reports)); var k := KeyOf(nm, r.benchmark);
      if k in keys then keys else keys + [k]
  {
    assert (reports + [r])[..|reports|] == reports;
    assert KeysOf(nm, reports + [r]) == KeysOf(nm, reports) + [KeyOf(nm, r.benchmark)];
    var keys := KeysOf(nm, reports + [r]);
    assert keys[..|reports|] == KeysOf(nm, reports);
  }

  /** The dictionary and its key order, after some reports. */
  ghost predicate Collected(nm: Naming, done: seq<Report>, grouped: Grouped, order: seq<Key>) {
    && grouped == Group(nm, done) && order == Dedup(KeysOf(nm, done))
    && forall k :: k in order <==> k in grouped
  }

  lemma {:induction false} CollectOne(nm: Naming, done: seq<Report>, grouped: Grouped, order: seq<Key>, r: Report)
    requires Collected(nm, done, grouped, order)
    ensures var k := KeyOf(nm, r.benchmark);
      Collected(nm, done + [r], AddReport(nm, grouped, r), if k in order then order else order + [k])
  {
    GroupSnoc(nm, done, r);
    GroupDomain(nm, done + [r]);
    DedupFacts(KeysOf(nm, done + [r]));
  }

  /** One turn of the inner loop on the dictionary and its insertion order. */
  method Append(nm: Naming, grouped: Grouped, order: seq<Key>, r: Report) returns (grouped': Grouped, order': seq<Key>)
    requires forall k :: k in order <==> k in grouped
    ensures grouped' == AddReport(nm, grouped, r)
    ensures var k := KeyOf(nm, r.benchmark); order' == if k in order then order else order + [k]
  {
    var k := KeyOf(nm, r.benchmark);
    grouped', order' := grouped, order;
    if k !in grouped' {
      grouped' := grouped'[k := map[]];
      order' := order' + [k];
    }
    var byPaper := grouped'[k];
    byPaper := byPaper[r.index := Lookup(byPaper, r.index) + [r.benchmark]];
    grouped' := grouped'[k := byPaper];
  }

  /** The dictionary and its key order, after some reports and the first n benchmarks of a paper. */
  ghost predicate CollectedUpTo(nm: Naming, done: seq<Report>, p: PaperSlot, n: nat, grouped: Grouped, order: seq<Key>) {
    n <= |p.benchmarks| && Collected(nm, done + Tag(p.paperIndex, p.benchmarks[..n]), grouped, order)
  }

  lemma {:induction false} CollectNone(nm: Naming, done: seq<Report>, p: PaperSlot, grouped: Grouped, order: seq<Key>)
    requires Collected(nm, done, grouped, order)
    ensures CollectedUpTo(nm, done, p, 0, grouped, order)
  {
    assert done + Tag(p.paperIndex, p.benchmarks[..0]) == done;
  }

  lemma {:induction false} CollectNext(nm: Naming, done: seq<Report>, p: PaperSlot, n: nat, grouped: Grouped, order: seq<Key>)
    requires CollectedUpTo(nm, done, p, n, grouped, order) && n < |p.benchmarks|
    ensures var r := Report(p.paperIndex, p.benchmarks[n]); var k := KeyOf(nm, r.benchmark);
      CollectedUpTo(nm, done, p, n + 1, AddReport(nm, grouped, r), if k in order then order else order + [k])
  {
    TagSnoc(done, p.paperIndex, p.benchmarks, n);
    CollectOne(nm, done + Tag(p.paperIndex, p.benchmarks[..n]), grouped, order, Report(p.paperIndex, p.benchmarks[n]));
  }

  lemma {:induction false} TagSnoc(done: seq<Report>, index: int, bs: seq<BenchmarkResult>, n: nat)
    requires n < |bs|
    ensures done + Tag(index, bs[..n + 1]) == done + Tag(index, bs[..n]) + [Report(index, bs[n])]
  {}

  /** The inner loop: the benchmarks of one paper. */
  method GroupPaper(nm: Naming, grouped: Grouped, order: seq<Key>, p: PaperSlot, ghost done: seq<Report>)
    returns (grouped': Grouped, order': seq<Key>)
    requires Collected(nm, done, grouped, order)
    ensures CollectedUpTo(nm, done, p, |p.benchmarks|, grouped', order')
  {
    grouped', order' := grouped, order;
    CollectNone(nm, done, p, grouped, order);
    var b := 0;
    while b < |p.benchmarks|
      invariant 0 <= b <= |p.benchmarks|
      invariant CollectedUpTo(nm, done, p, b, grouped', order')
    {
      CollectNext(nm, done, p, b, grouped', order');
      grouped', order' := Append(nm, grouped', order', Report(p.paperIndex, p.benchmarks[b]));
      b := b + 1;
    }
  }

  /** The grouping loops. The key order is the insertion order of the dictionary. */
  method GroupBenchmarks(nm: Naming, papers: seq<PaperSlot>) returns (grouped: Grouped, order: seq<Key>)
    ensures Collected(nm, Reports(papers), grouped, order)
  {
    grouped, order := map[], [];
    var n := 0;
    while n < |papers|
      invariant 0 <= n <= |papers|
      invariant Collected(nm, Reports(papers[..n]), grouped, order)
    {
      ReportsSnoc(papers, n);
      grouped, order := GroupPaper(nm, grouped, order, papers[n], Reports(papers[..n]));
      assert papers[n].benchmarks[..|papers[n].benchmarks|] == papers[n].benchmarks;
      n := n + 1;
    }
    assert papers[..n] == papers;
  }

  lemma {:induction false} RowsForSnoc(nm: Naming, order: seq<int>, grouped: Grouped, keys: seq<Key>, n: nat)
    requires n < |keys| && forall k :: k in keys ==> k in grouped
    ensures RowsFor(nm, order, grouped, keys[..n + 1])
      == RowsFor(nm, order, grouped, keys[..n]) + [RowOf(nm, order, grouped[keys[n]], keys[n])]
  {
    assert keys[..n + 1][..n] == keys[..n];
  }

  /** The row loop, over the sorted keys. */
  method BuildRows(nm: Naming, paperIndexes: seq<int>, grouped: Grouped, keys: seq<Key>) returns (rows: seq<Row>)
    requires forall k :: k in keys ==> k in grouped
    ensures rows == RowsFor(nm, Dedup(paperIndexes), grouped, keys)
  {
    rows := [];
    var n := 0;
    while n < |keys|
      invariant 0 <= n <= |keys|
      invariant rows == RowsFor(nm, Dedup(paperIndexes), grouped, keys[..n])
    {
      RowsForSnoc(nm, Dedup(paperIndexes), grouped, keys, n);
      var row := BuildRow(nm, paperIndexes, grouped[keys[n]], keys[n]);
      rows := rows + [row];
      n := n + 1;
    }
    assert keys[..n] == keys;
  }

  /** `_build_comparison_matrix` */
  method BuildComparisonMatrix(nm: Naming, papers: seq<PaperSlot>) returns (rows: seq<Row>)
    ensures rows == MatrixOf(nm, papers)
  {
    var grouped, order := GroupBenchmarks(nm, papers);
    GroupKeys(nm, Reports(papers));
    rows := BuildRows(nm, IndexesOf(papers), grouped, Sort(order, KeyLe));
  }
}
