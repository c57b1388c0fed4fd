/** What holds of the whole comparison matrix: its rows and cells, conservation of the reports,
    and independence of the order of the papers. */
module MatrixTheorems {
  import opened Wrappers
  import opened Basics
  import opened Schemas
  import opened Sorting
  import opened Rows
  import opened Matrix

  /** A paper's results for a key, in order. */
  function Pick(nm: Naming, reports: seq<Report>, k: Key, i: int): seq<BenchmarkResult> {
    if reports == [] then []
    else
      var r := reports[|reports| - 1];
      Pick(nm, reports[..|reports| - 1], k, i)
        + if r.index == i && KeyOf(nm, r.benchmark) == k then [r.benchmark] else []
  }

  /** Grouping loses nothing, duplicates nothing and keeps the order of each paper's results. */
  lemma {:induction false} GroupIsPick(nm: Naming, reports: seq<Report>, k: Key, i: int)
    ensures Pick(nm, reports, k, i) == if k in Group(nm, reports) then Lookup(Group(nm, reports)[k], i) else []
  {
    if reports != [] {
      GroupIsPick(nm, reports[..|reports| - 1], k, i);
    }
  }

  lemma {:induction false} RowsForAt(nm: Naming, order: seq<int>, grouped: Grouped, keys: seq<Key>, n: nat)
    requires n < |keys| && forall k :: k in keys ==> k in grouped
    ensures RowsFor(nm, order, grouped, keys)[n] == RowOf(nm, order, grouped[keys[n]], keys[n])
  {
    if n < |keys| - 1 {
      RowsForAt(nm, order, grouped, keys[..|keys| - 1], n);
    }
  }

  // ----- rows and cells -----

  lemma {:induction false} NoDupSort<T(!new)>(xs: seq<T>, le: (T, T) -> bool)
    requires TotalPreorder(le) && NoDup(xs)
    ensures NoDup(Sort(xs, le))
  {
    var ys := Sort(xs, le);
    SortSorts(xs, le);
    forall i, j | 0 <= i < j < |ys| ensures ys[i] != ys[j] {
      if ys[i] == ys[j] {
        NoDupCount(xs, ys[i]);
        CountTwo(ys, i, j);
      }
    }
  }

  lemma {:induction false} MatrixKeysFacts(nm: Naming, reports: seq<Report>)
    ensures NoDup(MatrixKeys(nm, reports)) && Sorted(KeyLe, MatrixKeys(nm, reports))
    ensures forall k :: k in MatrixKeys(nm, reports) <==> k in KeysOf(nm, reports)
  {
    KeyLeIsTotalOrder();
    DedupFacts(KeysOf(nm, reports));
    NoDupSort(Dedup(KeysOf(nm, reports)), KeyLe);
    SortSorts(Dedup(KeysOf(nm, reports)), KeyLe);
    GroupKeys(nm, reports);
    GroupDomain(nm, reports);
  }

  predicate KeyBefore(a: Key, b: Key) { KeyLe(a, b) && a != b }

  /** The keys of the matrix are strictly sorted, and are exactly the keys that were reported. */
  lemma {:induction false} RowsAreSorted(nm: Naming, papers: seq<PaperSlot>)
    ensures var rows := MatrixOf(nm, papers); var keys := MatrixKeys(nm, Reports(papers));
      && |rows| == |keys|
      && (forall n :: 0 <= n < |rows| ==> rows[n].key == keys[n])
      && (forall m, n :: 0 <= m < n < |keys| ==> KeyBefore(keys[m], keys[n]))
      && (forall k :: k in keys <==> k in KeysOf(nm, Reports(papers)))
  {
    var reports := Reports(papers);
    MatrixKeysFacts(nm, reports);
    GroupKeys(nm, reports);
    forall n | 0 <= n < |MatrixOf(nm, papers)|
      ensures MatrixOf(nm, papers)[n].key == MatrixKeys(nm, reports)[n]
    {
      RowsForAt(nm, Dedup(IndexesOf(papers)), Group(nm, reports), MatrixKeys(nm, reports), n);
    }
  }

  /** Row n: each paper has a cell, made of exactly that paper's results for the row's key. */
  lemma {:induction false} CellsShowTheReports(nm: Naming, papers: seq<PaperSlot>, n: nat)
    requires n < |MatrixOf(nm, papers)|
    ensures var row := MatrixOf(nm, papers)[n];
      && (forall i :: i in row.cells <==> i in IndexesOf(papers))
      && (forall i :: i in row.cells ==>
            row.cells[i] == CellOf(nm, Pick(nm, Reports(papers), row.key, i), row.higherIsBetter))
      && row.higherIsBetter == nm.higher(row.key.metric)
  {
    var reports := Reports(papers);
    var order := Dedup(IndexesOf(papers));
    var keys := MatrixKeys(nm, reports);
    GroupKeys(nm, reports);
    DedupFacts(IndexesOf(papers));
    RowsForAt(nm, order, Group(nm, reports), keys, n);
    assert keys[n] in keys;
    forall i | i in order ensures Lookup(Group(nm, reports)[keys[n]], i) == Pick(nm, reports, keys[n], i) {
      GroupIsPick(nm, reports, keys[n], i);
    }
  }

  /** Who wins row n, by how much, and when it is comparable. */
  lemma {:induction false} MatrixRowWinner(nm: Naming, papers: seq<PaperSlot>, n: nat, w: int)
    requires n < |MatrixOf(nm, papers)|
    ensures var row := MatrixOf(nm, papers)[n];
      && row.comparable == ((forall i :: i in row.cells ==> row.cells[i].count <= 1)
           && ConditionsAgree(nm, row.cells) && UnitsAgree(nm, row.cells))
      && (row.winner == Some(w) <==> row.comparable && TwoReport(row) && Outdoes(row, w))
      && (row.winner == Some(w) ==> row.margin.Some? && row.margin.value > 0.0 && Separates(row, w, row.margin.value))
  {
    var reports := Reports(papers);
    var order := Dedup(IndexesOf(papers));
    var keys := MatrixKeys(nm, reports);
    GroupKeys(nm, reports);
    DedupFacts(IndexesOf(papers));
    RowsForAt(nm, order, Group(nm, reports), keys, n);
    var byPaper := Group(nm, reports)[keys[n]];
    ComparableIff(nm, order, byPaper, keys[n]);
    RowLists(nm, order, byPaper, keys[n]);
    RowWinnerIff(MatrixOf(nm, papers)[n], Entries(order, MatrixOf(nm, papers)[n].cells), w);
  }

  // ----- conservation -----

  function RowTotal(nm: Naming, reports: seq<Report>, k: Key, order: seq<int>): nat {
    if order == [] then 0 else |Pick(nm, reports, k, order[0])| + RowTotal(nm, reports, k, order[1..])
  }

  function KeysTotal(nm: Naming, reports: seq<Report>, keys: seq<Key>, order: seq<int>): nat {
    if keys == [] then 0 else RowTotal(nm, reports, keys[0], order) + KeysTotal(nm, reports, keys[1..], order)
  }

  lemma {:induction false} RowTotalStep(nm: Naming, reports: seq<Report>, r: Report, k: Key, order: seq<int>)
    requires NoDup(order)
    ensures RowTotal(nm, reports + [r], k, order)
      == RowTotal(nm, reports, k, order) + if KeyOf(nm, r.benchmark) == k && r.index in order then 1 else 0
  {
    if order != [] {
      RowTotalStep(nm, reports, r, k, order[1..]);
      assert (reports + [r])[..|reports|] == reports;
      assert order[0] !in order[1..];
    }
  }

  lemma {:induction false} KeysTotalStep(nm: Naming, reports: seq<Report>, r: Report, keys: seq<Key>, order: seq<int>)
    requires NoDup(order) && NoDup(keys) && r.index in order
    ensures KeysTotal(nm, reports + [r], keys, order)
      == KeysTotal(nm, reports, keys, order) + if KeyOf(nm, r.benchmark) in keys then 1 else 0
  {
    if keys != [] {
      KeysTotalStep(nm, reports, r, keys[1..], order);
      RowTotalStep(nm, reports, r, keys[0], order);
      assert keys[0] !in keys[1..];
    }
  }

  lemma {:induction false} EmptyTotals(nm: Naming, keys: seq<Key>, order: seq<int>)
    ensures KeysTotal(nm, [], keys, order) == 0
  {
    if keys != [] {
      EmptyTotals(nm, keys[1..], order);
      EmptyRow(nm, keys[0], order);
    }
  }

  lemma {:induction false} EmptyRow(nm: Naming, k: Key, order: seq<int>)
    ensures RowTotal(nm, [], k, order) == 0
  {
    if order != [] { EmptyRow(nm, k, order[1..]); }
  }

  lemma {:induction false} ReportsCounted(nm: Naming, reports: seq<Report>, keys: seq<Key>, order: seq<int>)
    requires NoDup(order) && NoDup(keys)
    requires forall r :: r in reports ==> r.index in order && KeyOf(nm, r.benchmark) in keys
    ensures KeysTotal(nm, reports, keys, order) == |reports|
  {
    if reports == [] {
      EmptyTotals(nm, keys, order);
    } else {
      var n := |reports| - 1;
      ReportsCounted(nm, reports[..n], keys, order);
      KeysTotalStep(nm, reports[..n], reports[n], keys, order);
      assert reports == reports[..n] + [reports[n]];
    }
  }

  /** The duplicate counts of a row, over a list of papers. */
  function DuplicatesIn(row: Row, order: seq<int>): nat {
    if order == [] then 0
    else (if order[0] in row.cells then row.cells[order[0]].count else 0) + DuplicatesIn(row, order[1..])
  }

  function Duplicates(rows: seq<Row>, order: seq<int>): nat {
    if rows == [] then 0 else DuplicatesIn(rows[0], order) + Duplicates(rows[1..], order)
  }

  function BenchmarkCount(papers: seq<PaperSlot>): nat {
    if papers == [] then 0 else BenchmarkCount(papers[..|papers| - 1]) + |papers[|papers| - 1].benchmarks|
  }

  /** The row's counts are the sizes of the groups. */
  ghost predicate CountsPicks(nm: Naming, reports: seq<Report>, row: Row, k: Key, order: seq<int>) {
    forall i :: i in order ==> i in row.cells && row.cells[i].count == |Pick(nm, reports, k, i)|
  }

  lemma {:induction false} DuplicatesInRow(nm: Naming, reports: seq<Report>, row: Row, k: Key, order: seq<int>)
    requires CountsPicks(nm, reports, row, k, order)
    ensures DuplicatesIn(row, order) == RowTotal(nm, reports, k, order)
  {
    if order != [] { DuplicatesInRow(nm, reports, row, k, order[1..]); }
  }

  lemma {:induction false} DuplicatesInRows(nm: Naming, reports: seq<Report>, rows: seq<Row>, keys: seq<Key>, order: seq<int>)
    requires |rows| == |keys|
    requires forall n :: 0 <= n < |rows| ==> CountsPicks(nm, reports, rows[n], keys[n], order)
    ensures Duplicates(rows, order) == KeysTotal(nm, reports, keys, order)
  {
    if rows != [] {
      DuplicatesInRow(nm, reports, rows[0], keys[0], order);
      DuplicatesInRows(nm, reports, rows[1..], keys[1..], order);
    }
  }

  lemma {:induction false} ReportsFacts(nm: Naming, papers: seq<PaperSlot>)
    ensures |Reports(papers)| == BenchmarkCount(papers)
    ensures forall r :: r in Reports(papers) ==> r.index in IndexesOf(papers)
  {
    if papers != [] {
      ReportsFacts(nm, papers[..|papers| - 1]);
      assert IndexesOf(papers) == IndexesOf(papers[..|papers| - 1]) + [papers[|papers| - 1].paperIndex];
    }
  }

  /** Every reported benchmark is counted in exactly one cell of the matrix. */
  lemma {:induction false} DuplicateCountsAddUp(nm: Naming, papers: seq<PaperSlot>)
    ensures Duplicates(MatrixOf(nm, papers), Dedup(IndexesOf(papers))) == BenchmarkCount(papers)
  {
    var reports := Reports(papers);
    var order := Dedup(IndexesOf(papers));
    var keys := MatrixKeys(nm, reports);
    var rows := MatrixOf(nm, papers);
    DedupFacts(IndexesOf(papers));
    MatrixKeysFacts(nm, reports);
    ReportsFacts(nm, papers);
    RowsAreSorted(nm, papers);
    forall n | 0 <= n < |rows| ensures CountsPicks(nm, reports, rows[n], keys[n], order) {
      CellsShowTheReports(nm, papers, n);
      forall i | i in order ensures rows[n].cells[i].count == |Pick(nm, reports, keys[n], i)| {
        CellIff(nm, Pick(nm, reports, keys[n], i), rows[n].higherIsBetter);
      }
    }
    DuplicatesInRows(nm, reports, rows, keys, order);
    forall r | r in reports ensures r.index in order && KeyOf(nm, r.benchmark) in keys {
      var i :| 0 <= i < |reports| && reports[i] == r;
      assert KeysOf(nm, reports)[i] == KeyOf(nm, r.benchmark);
    }
    ReportsCounted(nm, reports, keys, order);
  }

  // ----- order of the papers -----

  ghost predicate SamePapers(order: seq<int>, other: seq<int>) {
    NoDup(order) && NoDup(other) && forall i :: i in order <==> i in other
  }

  lemma {:induction false} CellsForgetOrder(
      nm: Naming, order: seq<int>, other: seq<int>, byPaper: Variants, byPaper': Variants, higher: bool)
    requires SamePapers(order, other) && forall i :: i in order ==> Lookup(byPaper, i) == Lookup(byPaper', i)
    ensures CellsOf(nm, order, byPaper, higher) == CellsOf(nm, other, byPaper', higher)
    ensures EachAtMostOnce(order, byPaper) == EachAtMostOnce(other, byPaper')
  {}

  lemma {:induction false} EntriesForgetOrder(order: seq<int>, other: seq<int>, cells: map<int, Cell>, higher: bool, comparable: bool)
    requires SamePapers(order, other)
    ensures WinnerOf(Entries(order, cells), higher, comparable) == WinnerOf(Entries(other, cells), higher, comparable)
  {
    EntriesFacts(order, cells);
    EntriesFacts(other, cells);
    SameElementsSameMultiset(Entries(order, cells), Entries(other, cells));
    WinnerForgetsOrder(Entries(order, cells), Entries(other, cells), higher, comparable);
  }

  /** A row depends on the set of papers and on each paper's results, not on their order. */
  lemma {:induction false} RowForgetsOrder(nm: Naming, order: seq<int>, other: seq<int>, byPaper: Variants, byPaper': Variants, k: Key)
    requires SamePapers(order, other) && forall i :: i in order ==> Lookup(byPaper, i) == Lookup(byPaper', i)
    ensures RowOf(nm, order, byPaper, k) == RowOf(nm, other, byPaper', k)
  {
    var row := RowOf(nm, order, byPaper, k);
    CellsForgetOrder(nm, order, other, byPaper, byPaper', row.higherIsBetter);
    EntriesForgetOrder(order, other, row.cells, row.higherIsBetter, row.comparable);
  }

  function OfKey(nm: Naming, bs: seq<BenchmarkResult>, k: Key): seq<BenchmarkResult> {
    if bs == [] then []
    else OfKey(nm, bs[..|bs| - 1], k) + if KeyOf(nm, bs[|bs| - 1]) == k then [bs[|bs| - 1]] else []
  }

  lemma {:induction false} PickSnoc(nm: Naming, reports: seq<Report>, r: Report, k: Key, i: int)
    ensures Pick(nm, reports + [r], k, i)
      == Pick(nm, reports, k, i) + if KeyOf(nm, r.benchmark) == k && r.index == i then [r.benchmark] else []
  {
    assert (reports + [r])[..|reports|] == reports;
  }

  lemma {:induction false} OfKeySnoc(nm: Naming, bs: seq<BenchmarkResult>, k: Key)
    requires bs != []
    ensures var n := |bs| - 1;
      OfKey(nm, bs, k) == OfKey(nm, bs[..n], k) + if KeyOf(nm, bs[n]) == k then [bs[n]] else []
  {}

  lemma {:induction false} PickTagged(nm: Naming, reports: seq<Report>, index: int, bs: seq<BenchmarkResult>, k: Key, i: int)
    ensures Pick(nm, reports + Tag(index, bs), k, i)
      == Pick(nm, reports, k, i) + if index == i then OfKey(nm, bs, k) else []
  {
    if bs == [] {
      assert reports + Tag(index, bs) == reports;
    } else {
      var n := |bs| - 1;
      PickTagged(nm, reports, index, bs[..n], k, i);
      TagSnoc(reports, index, bs, n);
      assert bs[..n + 1] == bs;
      PickSnoc(nm, reports + Tag(index, bs[..n]), Report(index, bs[n]), k, i);
      OfKeySnoc(nm, bs, k);
    }
  }

  /** With distinct indexes a paper's results for a key are its own, in its own order. */
  lemma {:induction false} PickIsOfOnePaper(nm: Naming, papers: seq<PaperSlot>, k: Key, n: nat)
    requires n < |papers| && NoDup(IndexesOf(papers))
    ensures Pick(nm, Reports(papers), k, papers[n].paperIndex) == OfKey(nm, papers[n].benchmarks, k)
  {
    var last := |papers| - 1;
    var before := papers[..last];
    assert IndexesOf(papers)[..last] == IndexesOf(before);
    PickTagged(nm, Reports(before), papers[last].paperIndex, papers[last].benchmarks, k, papers[n].paperIndex);
    if n == last {
      assert forall j :: 0 <= j < last ==> before[j].paperIndex == IndexesOf(papers)[j] != IndexesOf(papers)[last];
      PickOfNoPaper(nm, before, k, papers[last].paperIndex);
    } else {
      PickIsOfOnePaper(nm, before, k, n);
      assert IndexesOf(papers)[n] != IndexesOf(papers)[last];
    }
  }

  lemma {:induction false} PickOfNoPaper(nm: Naming, papers: seq<PaperSlot>, k: Key, i: int)
    requires forall j :: 0 <= j < |papers| ==> papers[j].paperIndex != i
    ensures Pick(nm, Reports(papers), k, i) == []
  {
    if papers != [] {
      var last := |papers| - 1;
      PickOfNoPaper(nm, papers[..last], k, i);
      PickTagged(nm, Reports(papers[..last]), papers[last].paperIndex, papers[last].benchmarks, k, i);
    }
  }

  lemma {:induction false} ReportsMembers(nm: Naming, papers: seq<PaperSlot>, r: Report)
    ensures r in Reports(papers) <==> exists p :: p in papers && p.paperIndex == r.index && r.benchmark in p.benchmarks
  {
    if papers != [] {
      var last := papers[|papers| - 1];
      ReportsMembers(nm, papers[..|papers| - 1], r);
      assert papers == papers[..|papers| - 1] + [last];
      TagMembers(last.paperIndex, last.benchmarks, r);
    }
  }

  lemma {:induction false} TagMembers(index: int, bs: seq<BenchmarkResult>, r: Report)
    ensures r in Tag(index, bs) <==> r.index == index && r.benchmark in bs
  {
    var tagged := Tag(index, bs);
    if r.index == index && r.benchmark in bs {
      var i :| 0 <= i < |bs| && bs[i] == r.benchmark;
      assert tagged[i] == r;
    }
  }

  lemma {:induction false} KeysMember(nm: Naming, reports: seq<Report>, k: Key)
    ensures k in KeysOf(nm, reports) <==> exists r :: r in reports && KeyOf(nm, r.benchmark) == k
  {
    var keys := KeysOf(nm, reports);
    if k in keys {
      var i :| 0 <= i < |keys| && keys[i] == k;
      assert reports[i] in reports;
    }
    if r :| r in reports && KeyOf(nm, r.benchmark) == k {
      var i :| 0 <= i < |reports| && reports[i] == r;
      assert keys[i] == k;
    }
  }

  ghost predicate Permuted(papers: seq<PaperSlot>, others: seq<PaperSlot>) {
    multiset(papers) == multiset(others) && NoDup(IndexesOf(papers)) && NoDup(IndexesOf(others))
  }

  lemma {:induction false} PermutedMembers(papers: seq<PaperSlot>, others: seq<PaperSlot>, p: PaperSlot)
    requires Permuted(papers, others)
    ensures p in papers <==> p in others
  {
    assert p in multiset(papers) <==> p in multiset(others);
  }

  lemma {:induction false} PermutedReports(nm: Naming, papers: seq<PaperSlot>, others: seq<PaperSlot>, r: Report)
    requires Permuted(papers, others)
    ensures r in Reports(papers) <==> r in Reports(others)
  {
    forall p ensures p in papers <==> p in others { PermutedMembers(papers, others, p); }
    ReportsMembers(nm, papers, r);
    ReportsMembers(nm, others, r);
  }

  lemma {:induction false} PermutedKeys(nm: Naming, papers: seq<PaperSlot>, others: seq<PaperSlot>)
    requires Permuted(papers, others)
    ensures MatrixKeys(nm, Reports(papers)) == MatrixKeys(nm, Reports(others))
  {
    var keys, keys' := KeysOf(nm, Reports(papers)), KeysOf(nm, Reports(others));
    forall r ensures r in Reports(papers) <==> r in Reports(others) { PermutedReports(nm, papers, others, r); }
    forall k ensures k in keys <==> k in keys' {
      KeysMember(nm, Reports(papers), k);
      KeysMember(nm, Reports(others), k);
    }
    DedupFacts(keys);
    DedupFacts(keys');
    SameElementsSameMultiset(Dedup(keys), Dedup(keys'));
    KeyLeIsTotalOrder();
    SortForgetsOrder(Dedup(keys), Dedup(keys'), KeyLe);
  }

  lemma {:induction false} PermutedPick(nm: Naming, papers: seq<PaperSlot>, others: seq<PaperSlot>, k: Key, i: int)
    requires Permuted(papers, others) && i in IndexesOf(papers)
    ensures i in IndexesOf(others)
    ensures Pick(nm, Reports(papers), k, i) == Pick(nm, Reports(others), k, i)
  {
    var n :| 0 <= n < |papers| && IndexesOf(papers)[n] == i;
    PermutedMembers(papers, others, papers[n]);
    var m :| 0 <= m < |others| && others[m] == papers[n];
    assert IndexesOf(others)[m] == i;
    PickIsOfOnePaper(nm, papers, k, n);
    PickIsOfOnePaper(nm, others, k, m);
  }

  /** Permuting papers with distinct indexes changes no row: no value, count, winner or margin. */
  lemma {:induction false} MatrixForgetsPaperOrder(nm: Naming, papers: seq<PaperSlot>, others: seq<PaperSlot>)
    requires Permuted(papers, others)
    ensures MatrixOf(nm, papers) == MatrixOf(nm, others)
  {
    var reports, reports' := Reports(papers), Reports(others);
    var order, order' := Dedup(IndexesOf(papers)), Dedup(IndexesOf(others));
    var rows, rows' := MatrixOf(nm, papers), MatrixOf(nm, others);
    var keys := MatrixKeys(nm, reports);
    PermutedKeys(nm, papers, others);
    GroupKeys(nm, reports);
    GroupKeys(nm, reports');
    DedupFacts(IndexesOf(papers));
    DedupFacts(IndexesOf(others));
    forall n | 0 <= n < |keys| ensures rows[n] == rows'[n] {
      RowsForAt(nm, order, Group(nm, reports), keys, n);
      RowsForAt(nm, order', Group(nm, reports'), keys, n);
      assert keys[n] in keys;
      SameRow(nm, papers, others, keys[n]);
    }
    assert |rows| == |keys| == |rows'|;
  }

  lemma {:induction false} SameRow(nm: Naming, papers: seq<PaperSlot>, others: seq<PaperSlot>, k: Key)
    requires Permuted(papers, others) && k in Group(nm, Reports(papers)) && k in Group(nm, Reports(others))
    ensures RowOf(nm, Dedup(IndexesOf(papers)), Group(nm, Reports(papers))[k], k)
      == RowOf(nm, Dedup(IndexesOf(others)), Group(nm, Reports(others))[k], k)
  {
    var order, order' := Dedup(IndexesOf(papers)), Dedup(IndexesOf(others));
    var byPaper, byPaper' := Group(nm, Reports(papers))[k], Group(nm, Reports(others))[k];
    DedupFacts(IndexesOf(papers));
    DedupFacts(IndexesOf(others));
    forall i ensures (i in order <==> i in order') && (i in order ==> Lookup(byPaper, i) == Lookup(byPaper', i)) {
      GroupIsPick(nm, Reports(papers), k, i);
      GroupIsPick(nm, Reports(others), k, i);
      if i in order { PermutedPick(nm, papers, others, k, i); }
      if i in order' { PermutedPick(nm, others, papers, k, i); }
    }
    RowForgetsOrder(nm, order, order', byPaper, byPaper', k);
  }
}
