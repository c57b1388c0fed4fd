/** One row of the comparison matrix (agents/comparator.py:204-364): which of a paper's results
    stands for it, when a row is comparable, who wins it and by how much.
    The name normalisers enter as a parameter, so all of this holds for any of them. */
module Rows {
  import opened Wrappers
  import opened Basics
  import opened Schemas
  import opened Sorting

  datatype Key = Key(task: string, metric: string)

  datatype Naming = Naming(
    task: string -> string, metric: string -> string,
    condition: Option<string> -> string, unit: Option<string> -> Option<string>,
    higher: string -> bool)

  // ----- the representative result of a paper -----

  /** x is the better value. */
  predicate Beats(higher: bool, x: real, y: real) { if higher then x > y else x < y }

  predicate FallingValue(a: BenchmarkResult, b: BenchmarkResult) { a.value >= b.value }
  predicate RisingValue(a: BenchmarkResult, b: BenchmarkResult) { a.value <= b.value }

  function ByValue(higher: bool): (BenchmarkResult, BenchmarkResult) -> bool {
    if higher then FallingValue else RisingValue
  }

  function ConditionKeys(nm: Naming, variants: seq<BenchmarkResult>): set<string> {
    set b | b in variants :: nm.condition(b.conditions)
  }

  /** The representative, and whether the paper leaves the row comparable. */
  function Select(nm: Naming, variants: seq<BenchmarkResult>, higher: bool): (Option<BenchmarkResult>, bool) {
    if variants == [] then (None, true)
    else if |variants| == 1 then (Some(variants[0]), true)
    else if |ConditionKeys(nm, variants)| > 1 then (Some(variants[0]), false)
    else (Some(Sort(variants, ByValue(higher))[0]), false)
  }

  predicate SameConditions(nm: Naming, variants: seq<BenchmarkResult>) {
    forall x, y :: x in variants && y in variants ==> nm.condition(x.conditions) == nm.condition(y.conditions)
  }

  lemma {:induction false} SortHeadIsFirstBest(variants: seq<BenchmarkResult>, higher: bool) returns (i: nat)
    requires variants != []
    ensures i < |variants| && Sort(variants, ByValue(higher))[0] == variants[i]
    ensures forall j :: 0 <= j < |variants| ==> !Beats(higher, variants[j].value, variants[i].value)
    ensures forall j :: 0 <= j < i ==> Beats(higher, variants[i].value, variants[j].value)
  {
    if |variants| == 1 {
      i := 0;
    } else {
      var k := SortHeadIsFirstBest(variants[1..], higher);
      i := if Beats(higher, variants[k + 1].value, variants[0].value) then k + 1 else 0;
      assert forall j :: 1 <= j < |variants| ==> variants[j] == variants[1..][j - 1];
    }
  }

  /** The representative is the first result when their conditions differ, otherwise the first
      of the best ones; the paper keeps the row comparable exactly when it has at most one. */
  lemma {:induction false} RepresentativeIsFirstBest(nm: Naming, variants: seq<BenchmarkResult>, higher: bool)
    ensures var (chosen, ok) := Select(nm, variants, higher);
      && ok == (|variants| <= 1) && (chosen == None <==> variants == [])
      && (variants != [] && !SameConditions(nm, variants) ==> chosen == Some(variants[0]))
      && (variants != [] && SameConditions(nm, variants) ==>
            exists i: nat :: i < |variants| && chosen == Some(variants[i]) && FirstBest(variants, i, higher))
  {
    AtMostOne(ConditionKeys(nm, variants));
    if |variants| == 1 {
      assert FirstBest(variants, 0, higher);
    } else if variants != [] {
      var keys := ConditionKeys(nm, variants);
      assert forall b :: b in variants ==> nm.condition(b.conditions) in keys;
      assert |keys| <= 1 <==> SameConditions(nm, variants);
      if |keys| <= 1 {
        var i := SortHeadIsFirstBest(variants, higher);
        assert FirstBest(variants, i, higher);
      }
    }
  }

  predicate FirstBest(variants: seq<BenchmarkResult>, i: nat, higher: bool)
    requires i < |variants|
  {
    && (forall j :: 0 <= j < |variants| ==> !Beats(higher, variants[j].value, variants[i].value))
    && (forall j :: 0 <= j < i ==> Beats(higher, variants[i].value, variants[j].value))
  }

  // ----- the winner of a row -----

  /** A paper that reports the row, with its value. */
  datatype Entry = Entry(index: int, value: real)

  predicate FallingEntry(a: Entry, b: Entry) { a.value >= b.value }
  predicate RisingEntry(a: Entry, b: Entry) { a.value <= b.value }

  function EntryOrder(higher: bool): (Entry, Entry) -> bool {
    if higher then FallingEntry else RisingEntry
  }

  function Gap(higher: bool, x: real, y: real): real { if higher then x - y else y - x }

  /** `_winner_for_values` on the reported values, in the order of the papers. */
  function WinnerOf(entries: seq<Entry>, higher: bool, comparable: bool): (Option<int>, Option<real>) {
    if !comparable || |entries| < 2 then (None, None)
    else
      var ranked := Sort(entries, EntryOrder(higher));
      if ranked[0].value == ranked[1].value then (None, Some(0.0))
      else (Some(ranked[0].index), Some(Gap(higher, ranked[0].value, ranked[1].value)))
  }

  lemma {:induction false} FirstTwoDiffer<T>(ranked: seq<T>, entries: seq<T>)
    requires NoDup(entries) && multiset(ranked) == multiset(entries) && |ranked| >= 2
    ensures ranked[0] != ranked[1]
  {
    NoDupCount(entries, ranked[0]);
    assert ranked == [ranked[0], ranked[1]] + ranked[2..];
    assert multiset(ranked)[ranked[0]] <= 1;
  }

  lemma {:induction false} SecondBeatsRest<T(!new)>(ranked: seq<T>, le: (T, T) -> bool, e: T)
    requires TotalPreorder(le) && Sorted(le, ranked) && |ranked| >= 2 && e in ranked && e != ranked[0]
    ensures le(ranked[1], e)
  {
    var i :| 0 <= i < |ranked| && ranked[i] == e;
    if i > 1 { assert le(ranked[1], ranked[i]); } else { assert le(e, e); }
  }

  lemma {:induction false} RankedFacts(entries: seq<Entry>, higher: bool)
    requires NoDup(entries) && |entries| >= 2
    ensures var ranked := Sort(entries, EntryOrder(higher));
      && ranked[0] != ranked[1] && ranked[0] in entries && ranked[1] in entries
      && (forall e :: e in entries && e != ranked[0] ==> !Beats(higher, e.value, ranked[1].value))
      && !Beats(higher, ranked[1].value, ranked[0].value)
  {
    var le := EntryOrder(higher);
    var ranked := Sort(entries, le);
    assert TotalPreorder(le);
    SortSorts(entries, le);
    FirstTwoDiffer(ranked, entries);
    SortMembers(entries, le, ranked[0]);
    SortMembers(entries, le, ranked[1]);
    forall e | e in entries && e != ranked[0] ensures !Beats(higher, e.value, ranked[1].value) {
      SortMembers(entries, le, e);
      SecondBeatsRest(ranked, le, e);
    }
    assert le(ranked[0], ranked[1]);
  }

  /** e beats every other entry. */
  ghost predicate StrictlyBest(entries: seq<Entry>, e: Entry, higher: bool) {
    e in entries && forall f :: f in entries && f != e ==> Beats(higher, e.value, f.value)
  }

  /** m is the gap between e and the best of the others. */
  ghost predicate IsMargin(entries: seq<Entry>, e: Entry, higher: bool, m: real) {
    && (exists f :: f in entries && f != e && Gap(higher, e.value, f.value) == m)
    && (forall f :: f in entries && f != e ==> Gap(higher, e.value, f.value) >= m)
  }

  /** A row has a winner exactly when it is comparable, two papers report it and one entry beats
      all the others; that one wins, by the positive gap to the runner-up. Tied leaders give no
      winner and margin zero; otherwise there is no margin either. */
  lemma {:induction false} WinnerIff(entries: seq<Entry>, higher: bool, comparable: bool)
    requires NoDup(entries)
    ensures var (winner, margin) := WinnerOf(entries, higher, comparable);
      && (winner.Some? <==> comparable && |entries| >= 2 && exists e :: StrictlyBest(entries, e, higher))
      && (forall e :: winner.Some? && StrictlyBest(entries, e, higher) ==>
            winner == Some(e.index) && margin.Some? && margin.value > 0.0 && IsMargin(entries, e, higher, margin.value))
      && (winner == None ==> margin == if comparable && |entries| >= 2 then Some(0.0) else None)
  {
    if comparable && |entries| >= 2 {
      var ranked := Sort(entries, EntryOrder(higher));
      RankedFacts(entries, higher);
      if ranked[0].value == ranked[1].value {
        forall e ensures !StrictlyBest(entries, e, higher) {
          assert ranked[0] in entries && ranked[1] in entries;
        }
      } else {
        assert StrictlyBest(entries, ranked[0], higher);
        assert forall e :: StrictlyBest(entries, e, higher) ==> e == ranked[0];
        assert Gap(higher, ranked[0].value, ranked[1].value) > 0.0;
        assert IsMargin(entries, ranked[0], higher, Gap(higher, ranked[0].value, ranked[1].value));
      }
    }
  }

  lemma {:induction false} BestForgetsOrder(entries: seq<Entry>, others: seq<Entry>, e: Entry, higher: bool)
    requires forall e :: e in entries <==> e in others
    ensures StrictlyBest(entries, e, higher) <==> StrictlyBest(others, e, higher)
  {}

  lemma {:induction false} MarginIsUnique(entries: seq<Entry>, others: seq<Entry>, e: Entry, higher: bool, m: real, n: real)
    requires forall e :: e in entries <==> e in others
    requires IsMargin(entries, e, higher, m) && IsMargin(others, e, higher, n)
    ensures m == n
  {}

  /** Winner and margin do not depend on the order of the papers. */
  lemma {:induction false} WinnerForgetsOrder(entries: seq<Entry>, others: seq<Entry>, higher: bool, comparable: bool)
    requires NoDup(entries) && NoDup(others) && |entries| == |others|
    requires forall e :: e in entries <==> e in others
    ensures WinnerOf(entries, higher, comparable) == WinnerOf(others, higher, comparable)
  {
    WinnerIff(entries, higher, comparable);
    WinnerIff(others, higher, comparable);
    forall e ensures StrictlyBest(entries, e, higher) <==> StrictlyBest(others, e, higher) {
      BestForgetsOrder(entries, others, e, higher);
    }
    var (winner, margin) := WinnerOf(entries, higher, comparable);
    if winner.Some? {
      var e :| StrictlyBest(entries, e, higher);
      MarginIsUnique(entries, others, e, higher, margin.value, WinnerOf(others, higher, comparable).1.value);
    }
  }

  // ----- the row -----

  /** What one paper contributes: the entries of the row's four per-paper dictionaries. */
  datatype Cell = Cell(value: Option<real>, unit: Option<string>, conditions: Option<string>, count: nat)

  datatype Row = Row(
    key: Key, cells: map<int, Cell>, winner: Option<int>, margin: Option<real>,
    higherIsBetter: bool, comparable: bool)

  type Variants = map<int, seq<BenchmarkResult>>

  /** by_paper.get(i, []) */
  function Lookup(byPaper: Variants, i: int): seq<BenchmarkResult> {
    if i in byPaper then byPaper[i] else []
  }

  function CellOf(nm: Naming, variants: seq<BenchmarkResult>, higher: bool): Cell {
    match Select(nm, variants, higher).0
    case None => Cell(None, None, None, |variants|)
    case Some(b) => Cell(Some(b.value), b.unit, b.conditions, |variants|)
  }

  function CellsOf(nm: Naming, indexes: seq<int>, byPaper: Variants, higher: bool): map<int, Cell> {
    map i | i in indexes :: CellOf(nm, Lookup(byPaper, i), higher)
  }

  function PresentConditions(nm: Naming, cells: map<int, Cell>): set<string> {
    set i | i in cells && Truthy(cells[i].conditions) :: nm.condition(cells[i].conditions)
  }

  function PresentUnits(nm: Naming, cells: map<int, Cell>): set<Option<string>> {
    set i | i in cells && Truthy(cells[i].unit) :: nm.unit(cells[i].unit)
  }

  /** The reported values, in the order of the papers. */
  function Entries(order: seq<int>, cells: map<int, Cell>): seq<Entry> {
    if order == [] then []
    else
      var i := order[|order| - 1];
      Entries(order[..|order| - 1], cells)
        + if i in cells && cells[i].value.Some? then [Entry(i, cells[i].value.value)] else []
  }

  predicate EachAtMostOnce(indexes: seq<int>, byPaper: Variants) {
    forall i :: i in indexes ==> |Lookup(byPaper, i)| <= 1
  }

  function RowOf(nm: Naming, order: seq<int>, byPaper: Variants, key: Key): Row {
    var higher := nm.higher(key.metric);
    var cells := CellsOf(nm, order, byPaper, higher);
    var comparable := EachAtMostOnce(order, byPaper)
      && |PresentConditions(nm, cells)| <= 1 && |PresentUnits(nm, cells)| <= 1;
    var (winner, margin) := WinnerOf(Entries(order, cells), higher, comparable);
    Row(key, cells, winner, margin, higher, comparable)
  }

  lemma {:induction false} OneMorePaper(nm: Naming, order: seq<int>, byPaper: Variants, higher: bool, i: int)
    ensures var longer := if i in order then order else order + [i];
      && CellsOf(nm, longer, byPaper, higher)
         == CellsOf(nm, order, byPaper, higher)[i := CellOf(nm, Lookup(byPaper, i), higher)]
      && (EachAtMostOnce(longer, byPaper) <==> EachAtMostOnce(order, byPaper) && |Lookup(byPaper, i)| <= 1)
  {
    var longer := if i in order then order else order + [i];
    assert forall j :: j in longer <==> j in order || j == i;
  }

  lemma {:induction false} SelectOk(nm: Naming, variants: seq<BenchmarkResult>, higher: bool)
    ensures Select(nm, variants, higher).1 == (|variants| <= 1)
  {}

  /** The loop over the papers: the cells, their order, and whether each paper reports at most once. */
  method CollectCells(nm: Naming, paperIndexes: seq<int>, byPaper: Variants, higher: bool)
    returns (order: seq<int>, cells: map<int, Cell>, comparable: bool)
    ensures order == Dedup(paperIndexes)
    ensures cells == CellsOf(nm, order, byPaper, higher)
    ensures comparable == EachAtMostOnce(order, byPaper)
  {
    cells, order, comparable := map[], [], true;
    var n := 0;
    while n < |paperIndexes|
      invariant 0 <= n <= |paperIndexes|
      invariant order == Dedup(paperIndexes[..n])
      invariant cells == CellsOf(nm, order, byPaper, higher)
      invariant comparable == EachAtMostOnce(order, byPaper)
    {
      var i := paperIndexes[n];
      var variants := Lookup(byPaper, i);
      SelectOk(nm, variants, higher);
      DedupSnoc(paperIndexes, n);
      OneMorePaper(nm, order, byPaper, higher, i);
      if !Select(nm, variants, higher).1 {
        comparable := false;
      }
      if i !in cells {
        order := order + [i];
      }
      cells := cells[i := CellOf(nm, variants, higher)];
      n := n + 1;
    }
    assert paperIndexes[..n] == paperIndexes;
  }

  /** One row of the matrix. */
  method BuildRow(nm: Naming, paperIndexes: seq<int>, byPaper: Variants, key: Key) returns (row: Row)
    ensures row == RowOf(nm, Dedup(paperIndexes), byPaper, key)
  {
    var higher := nm.higher(key.metric);
    var order, cells, comparable := CollectCells(nm, paperIndexes, byPaper, higher);
    if |PresentConditions(nm, cells)| > 1 {
      comparable := false;
    }
    if |PresentUnits(nm, cells)| > 1 {
      comparable := false;
    }
    var (winner, margin) := WinnerOf(Entries(order, cells), higher, comparable);
    row := Row(key, cells, winner, margin, higher, comparable);
  }

  // ----- what a row says -----

  /** Papers that state a condition state the same one, and so for units. */
  predicate ConditionsAgree(nm: Naming, cells: map<int, Cell>) {
    forall i, j :: i in cells && j in cells && Truthy(cells[i].conditions) && Truthy(cells[j].conditions) ==>
      nm.condition(cells[i].conditions) == nm.condition(cells[j].conditions)
  }

  predicate UnitsAgree(nm: Naming, cells: map<int, Cell>) {
    forall i, j :: i in cells && j in cells && Truthy(cells[i].unit) && Truthy(cells[j].unit) ==>
      nm.unit(cells[i].unit) == nm.unit(cells[j].unit)
  }

  lemma {:induction false} ConditionsCounted(nm: Naming, cells: map<int, Cell>)
    ensures |PresentConditions(nm, cells)| <= 1 <==> ConditionsAgree(nm, cells)
  {
    var present := PresentConditions(nm, cells);
    AtMostOne(present);
    forall i | i in cells && Truthy(cells[i].conditions) ensures nm.condition(cells[i].conditions) in present {}
  }

  lemma {:induction false} UnitsCounted(nm: Naming, cells: map<int, Cell>)
    ensures |PresentUnits(nm, cells)| <= 1 <==> UnitsAgree(nm, cells)
  {
    var present := PresentUnits(nm, cells);
    AtMostOne(present);
    forall i | i in cells && Truthy(cells[i].unit) ensures nm.unit(cells[i].unit) in present {}
  }

  /** A cell counts the paper's results and shows a value exactly when there is one. */
  lemma {:induction false} CellIff(nm: Naming, variants: seq<BenchmarkResult>, higher: bool)
    ensures var c := CellOf(nm, variants, higher);
      && c.count == |variants| && (c.value.Some? <==> variants != [])
      && (|variants| == 1 ==> c == Cell(Some(variants[0].value), variants[0].unit, variants[0].conditions, 1))
      && (c.value.Some? ==> exists b :: b in variants && c.value == Some(b.value))
  {
    if variants != [] {
      RepresentativeIsFirstBest(nm, variants, higher);
      var chosen := Select(nm, variants, higher).0;
      assert chosen.Some? && chosen.value in variants;
    }
  }

  /** A row is comparable exactly when no paper reports it twice and the stated conditions and
      units agree after normalisation. */
  lemma {:induction false} ComparableIff(nm: Naming, order: seq<int>, byPaper: Variants, key: Key)
    ensures var row := RowOf(nm, order, byPaper, key);
      && row.comparable == ((forall i :: i in row.cells ==> row.cells[i].count <= 1)
           && ConditionsAgree(nm, row.cells) && UnitsAgree(nm, row.cells))
      && row.cells.Keys == (set i | i in order)
  {
    var higher := nm.higher(key.metric);
    var cells := CellsOf(nm, order, byPaper, higher);
    ConditionsCounted(nm, cells);
    UnitsCounted(nm, cells);
    forall i | i in order ensures cells[i].count == |Lookup(byPaper, i)| {
      CellIff(nm, Lookup(byPaper, i), higher);
    }
  }

  lemma {:induction false} EntriesFacts(order: seq<int>, cells: map<int, Cell>)
    requires NoDup(order)
    ensures NoDup(Entries(order, cells))
    ensures forall e :: e in Entries(order, cells) <==>
      e.index in order && e.index in cells && cells[e.index].value == Some(e.value)
  {
    if order != [] {
      EntriesFacts(order[..|order| - 1], cells);
      assert order == order[..|order| - 1] + [order[|order| - 1]];
    }
  }

  /** Paper w reports the row and every other paper that does has a worse value. */
  ghost predicate Outdoes(row: Row, w: int) {
    && w in row.cells && row.cells[w].value.Some?
    && forall i :: i in row.cells && i != w && row.cells[i].value.Some? ==>
         Beats(row.higherIsBetter, row.cells[w].value.value, row.cells[i].value.value)
  }

  ghost predicate TwoReport(row: Row) {
    exists i, j :: i in row.cells && j in row.cells && i != j && row.cells[i].value.Some? && row.cells[j].value.Some?
  }

  /** m is what separates paper w from the best of the others. */
  ghost predicate Separates(row: Row, w: int, m: real)
    requires w in row.cells && row.cells[w].value.Some?
  {
    var x := row.cells[w].value.value;
    && (exists i :: i in row.cells && i != w && row.cells[i].value.Some?
          && Gap(row.higherIsBetter, x, row.cells[i].value.value) == m)
    && (forall i :: i in row.cells && i != w && row.cells[i].value.Some? ==>
          Gap(row.higherIsBetter, x, row.cells[i].value.value) >= m)
  }

  /** The entries are the reported values of the row. */
  ghost predicate Lists(row: Row, entries: seq<Entry>) {
    && NoDup(entries)
    && forall e :: e in entries <==> e.index in row.cells && row.cells[e.index].value == Some(e.value)
  }

  lemma {:induction false} TwoEntries(row: Row, entries: seq<Entry>)
    requires Lists(row, entries)
    ensures |entries| >= 2 <==> TwoReport(row)
  {
    if |entries| >= 2 {
      var a, b := entries[0], entries[1];
      assert a in entries && b in entries && a != b;
    }
    if TwoReport(row) {
      var i, j :| i in row.cells && j in row.cells && i != j && row.cells[i].value.Some? && row.cells[j].value.Some?;
      assert Entry(i, row.cells[i].value.value) in entries && Entry(j, row.cells[j].value.value) in entries;
    }
  }

  lemma {:induction false} BestOutdoes(row: Row, entries: seq<Entry>, e: Entry)
    requires Lists(row, entries) && StrictlyBest(entries, e, row.higherIsBetter)
    ensures Outdoes(row, e.index) && row.cells[e.index].value == Some(e.value)
  {
    forall i | i in row.cells && i != e.index && row.cells[i].value.Some?
      ensures Beats(row.higherIsBetter, e.value, row.cells[i].value.value)
    {
      assert Entry(i, row.cells[i].value.value) in entries;
    }
  }

  lemma {:induction false} OutdoerIsBest(row: Row, entries: seq<Entry>, w: int)
    requires Lists(row, entries) && Outdoes(row, w)
    ensures StrictlyBest(entries, Entry(w, row.cells[w].value.value), row.higherIsBetter)
  {}

  lemma {:induction false} MarginSeparates(row: Row, entries: seq<Entry>, e: Entry, m: real)
    requires Lists(row, entries) && e in entries && IsMargin(entries, e, row.higherIsBetter, m)
    ensures Separates(row, e.index, m)
  {
    forall i | i in row.cells && i != e.index && row.cells[i].value.Some?
      ensures Gap(row.higherIsBetter, e.value, row.cells[i].value.value) >= m
    {
      assert Entry(i, row.cells[i].value.value) in entries;
    }
  }

  /** Paper w wins a row exactly when the row is comparable, two papers report it and w outdoes
      every other; the margin is the positive gap to the runner-up. */
  lemma {:induction false} RowWinnerIff(row: Row, entries: seq<Entry>, w: int)
    requires Lists(row, entries) && (row.winner, row.margin) == WinnerOf(entries, row.higherIsBetter, row.comparable)
    ensures row.winner == Some(w) <==> row.comparable && TwoReport(row) && Outdoes(row, w)
    ensures row.winner == Some(w) ==> row.margin.Some? && row.margin.value > 0.0 && Separates(row, w, row.margin.value)
  {
    WinnerIff(entries, row.higherIsBetter, row.comparable);
    TwoEntries(row, entries);
    if row.winner == Some(w) {
      var e :| StrictlyBest(entries, e, row.higherIsBetter);
      BestOutdoes(row, entries, e);
      MarginSeparates(row, entries, e, row.margin.value);
    }
    if Outdoes(row, w) {
      OutdoerIsBest(row, entries, w);
    }
  }

  lemma {:induction false} RowLists(nm: Naming, order: seq<int>, byPaper: Variants, key: Key)
    requires NoDup(order)
    ensures var row := RowOf(nm, order, byPaper, key); var entries := Entries(order, row.cells);
      && Lists(row, entries) && (row.winner, row.margin) == WinnerOf(entries, row.higherIsBetter, row.comparable)
  {
    EntriesFacts(order, RowOf(nm, order, byPaper, key).cells);
  }
}
