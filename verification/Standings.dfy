/** What the comparator derives from the matrix (agents/comparator.py:367-433): win counts,
    and the rows and tasks that only one paper reports. */
module Standings {
  import opened Wrappers
  import opened Basics
  import opened Sorting
  import opened Rows

  // ----- counting -----

  function CountRows(rows: seq<Row>, p: Row -> bool): nat {
    if rows == [] then 0 else CountRows(rows[..|rows| - 1], p) + if p(rows[|rows| - 1]) then 1 else 0
  }

  predicate Comparable(row: Row) { row.comparable }
  predicate HasWinner(row: Row) { row.winner.Some? }
  predicate Overlaps(row: Row) { |Present(row)| >= 2 }

  function WonBy(i: int): Row -> bool { (row: Row) => row.winner == Some(i) }

  /** The papers that report the row. */
  function Present(row: Row): set<int> {
    set i | i in row.cells && row.cells[i].value.Some?
  }

  datatype Stats = Stats(rows: nat, comparableRows: nat, rowsWithWinner: nat, rowsWithOverlap: nat, wins: map<int, nat>)

  /** `_build_matrix_stats`; the overlap ratio is rowsWithOverlap / rows. */
  method BuildMatrixStats(papers: set<int>, rows: seq<Row>) returns (stats: Stats)
    ensures stats.rows == |rows| && stats.comparableRows == CountRows(rows, Comparable)
    ensures stats.rowsWithWinner == CountRows(rows, HasWinner) && stats.rowsWithOverlap == CountRows(rows, Overlaps)
    ensures papers <= stats.wins.Keys
    ensures forall i :: i in stats.wins ==> i in papers || exists n :: 0 <= n < |rows| && rows[n].winner == Some(i)
    ensures forall i :: CountRows(rows, WonBy(i)) == if i in stats.wins then stats.wins[i] else 0
  {
    var wins := CountWins(papers, rows);
    stats := Stats(|rows|, CountRows(rows, Comparable), CountRows(rows, HasWinner), CountRows(rows, Overlaps), wins);
  }

  /** wins_by_paper: zero for each paper, then one more for each row it wins. */
  method CountWins(papers: set<int>, rows: seq<Row>) returns (wins: map<int, nat>)
    ensures papers <= wins.Keys
    ensures forall i :: i in wins ==> i in papers || exists n :: 0 <= n < |rows| && rows[n].winner == Some(i)
    ensures forall i :: CountRows(rows, WonBy(i)) == if i in wins then wins[i] else 0
  {
    wins := map i | i in papers :: 0;
    var n := 0;
    while n < |rows|
      invariant 0 <= n <= |rows|
      invariant papers <= wins.Keys
      invariant forall i :: i in wins ==> i in papers || exists m :: 0 <= m < n && rows[m].winner == Some(i)
      invariant forall i :: CountRows(rows[..n], WonBy(i)) == if i in wins then wins[i] else 0
    {
      assert rows[..n + 1][..n] == rows[..n];
      if rows[n].winner.Some? {
        var i := rows[n].winner.value;
        wins := wins[i := (if i in wins then wins[i] else 0) + 1];
      }
      n := n + 1;
    }
    assert rows[..n] == rows;
  }

  function WinsTotal(rows: seq<Row>, order: seq<int>): nat {
    if order == [] then 0 else CountRows(rows, WonBy(order[0])) + WinsTotal(rows, order[1..])
  }

  lemma {:induction false} WinsTotalSnoc(rows: seq<Row>, row: Row, order: seq<int>)
    requires NoDup(order)
    ensures WinsTotal(rows + [row], order)
      == WinsTotal(rows, order) + if row.winner.Some? && row.winner.value in order then 1 else 0
  {
    if order != [] {
      assert (rows + [row])[..|rows|] == rows;
      WinsTotalSnoc(rows, row, order[1..]);
      assert order[0] !in order[1..];
    }
  }

  lemma {:induction false} NoRowsNoWins(order: seq<int>)
    ensures WinsTotal([], order) == 0
  {
    if order != [] { NoRowsNoWins(order[1..]); }
  }

  /** Each row with a winner is one win of one paper. */
  lemma {:induction false} WinsAddUp(rows: seq<Row>, order: seq<int>)
    requires NoDup(order)
    requires forall n :: 0 <= n < |rows| && rows[n].winner.Some? ==> rows[n].winner.value in order
    ensures WinsTotal(rows, order) == CountRows(rows, HasWinner)
  {
    if rows == [] {
      NoRowsNoWins(order);
    } else {
      var n := |rows| - 1;
      WinsAddUp(rows[..n], order);
      WinsTotalSnoc(rows[..n], rows[n], order);
      assert rows == rows[..n] + [rows[n]];
    }
  }

  lemma {:induction false} CountMonotone(rows: seq<Row>, p: Row -> bool, q: Row -> bool)
    requires forall n :: 0 <= n < |rows| && p(rows[n]) ==> q(rows[n])
    ensures CountRows(rows, p) <= CountRows(rows, q) <= |rows|
  {
    if rows != [] { CountMonotone(rows[..|rows| - 1], p, q); }
  }

  // ----- rows and tasks of one paper -----

  /** f"{row.task}/{row.metric}" */
  function Label(row: Row): string { row.key.task + "/" + row.key.metric }

  function SortedSet(xs: seq<string>): seq<string> { Sort(Dedup(xs), StrLe) }

  lemma {:induction false} SortedSetFacts(xs: seq<string>)
    ensures Sorted(StrLe, SortedSet(xs))
    ensures forall x :: x in SortedSet(xs) <==> x in xs
  {
    StrLeIsTotalPreorder();
    DedupFacts(xs);
    SortSorts(Dedup(xs), StrLe);
    forall x ensures x in SortedSet(xs) <==> x in xs { SortMembers(Dedup(xs), StrLe, x); }
  }

  predicate Sole(row: Row, i: int) { Present(row) == {i} }

  /** next(iter(s)) of a set with one member */
  method OnlyMember<T(==)>(s: set<T>) returns (i: T)
    requires |s| == 1
    ensures s == {i}
  {
    i :| i in s;
    assert |s - {i}| == 0;
  }

  /** if len(present) == 1: unique[the one].append(label) */
  method Credit(lists: map<int, seq<string>>, present: set<int>, name: string) returns (lists': map<int, seq<string>>)
    requires present <= lists.Keys
    ensures lists' == map i | i in lists :: Credited(lists[i], present, name, i)
  {
    lists' := lists;
    assert forall i :: present == {i} ==> |present| == 1;
    assert forall list: seq<string> :: list + [] == list;
    if |present| == 1 {
      var i := OnlyMember(present);
      assert i in present;
      lists' := lists'[i := lists'[i] + [name]];
    }
  }

  function Credited(list: seq<string>, present: set<int>, name: string, i: int): seq<string> {
    list + if present == {i} then [name] else []
  }

  /** The labels of the rows that only paper i reports. */
  function SoleLabels(rows: seq<Row>, i: int): seq<string> {
    if rows == [] then []
    else SoleLabels(rows[..|rows| - 1], i) + if Sole(rows[|rows| - 1], i) then [Label(rows[|rows| - 1])] else []
  }

  ghost predicate PresentIn(rows: seq<Row>, papers: set<int>) {
    forall n :: 0 <= n < |rows| ==> Present(rows[n]) <= papers
  }

  lemma {:induction false} SoleLabelsSnoc(rows: seq<Row>, n: nat)
    requires n < |rows|
    ensures forall i :: SoleLabels(rows[..n + 1], i) == Credited(SoleLabels(rows[..n], i), Present(rows[n]), Label(rows[n]), i)
  {
    assert rows[..n + 1][..n] == rows[..n];
  }

  /** `_build_unique_rows_per_paper` */
  method BuildUniqueRows(papers: set<int>, rows: seq<Row>) returns (unique: map<int, seq<string>>)
    requires PresentIn(rows, papers)
    ensures unique == map i | i in papers :: SortedSet(SoleLabels(rows, i))
  {
    var lists: map<int, seq<string>> := map i | i in papers :: [];
    var n := 0;
    while n < |rows|
      invariant 0 <= n <= |rows|
      invariant lists == map i | i in papers :: SoleLabels(rows[..n], i)
    {
      var row := rows[n];
      SoleLabelsSnoc(rows, n);
      lists := Credit(lists, Present(row), Label(row));
      n := n + 1;
    }
    assert rows[..n] == rows;
    unique := map i | i in lists :: SortedSet(lists[i]);
  }

  /** The papers with a value in some row of the task. */
  function PapersOfTask(rows: seq<Row>, task: string): set<int> {
    if rows == [] then {}
    else
      PapersOfTask(rows[..|rows| - 1], task)
        + if rows[|rows| - 1].key.task == task then Present(rows[|rows| - 1]) else {}
  }

  function TasksOf(rows: seq<Row>): (r: seq<string>)
    ensures |r| == |rows|
  {
    seq(|rows|, i requires 0 <= i < |rows| => rows[i].key.task)
  }

  /** The tasks, in the order they first occur, that only paper i reports. */
  function SoleTasks(rows: seq<Row>, tasks: seq<string>, i: int): seq<string> {
    if tasks == [] then []
    else
      var t := tasks[|tasks| - 1];
      SoleTasks(rows, tasks[..|tasks| - 1], i) + if PapersOfTask(rows, t) == {i} then [t] else []
  }

  function UniqueTasksOf(rows: seq<Row>, i: int): seq<string> {
    SortedSet(SoleTasks(rows, Dedup(TasksOf(rows)), i))
  }

  /** The loop that collects the papers of each task, with the insertion order of its dictionary. */
  method CollectTasks(rows: seq<Row>) returns (taskToPapers: map<string, set<int>>, order: seq<string>)
    ensures order == Dedup(TasksOf(rows))
    ensures forall t :: t in taskToPapers <==> t in order
    ensures forall t :: t in taskToPapers ==> taskToPapers[t] == PapersOfTask(rows, t)
  {
    taskToPapers, order := map[], [];
    var n := 0;
    while n < |rows|
      invariant 0 <= n <= |rows|
      invariant order == Dedup(TasksOf(rows[..n]))
      invariant forall t :: t in taskToPapers <==> t in order
      invariant forall t :: t in taskToPapers ==> taskToPapers[t] == PapersOfTask(rows[..n], t)
      invariant forall t :: t !in taskToPapers ==> PapersOfTask(rows[..n], t) == {}
    {
      var t := rows[n].key.task;
      assert rows[..n + 1][..n] == rows[..n];
      assert TasksOf(rows[..n + 1])[..n] == TasksOf(rows[..n]);
      if t !in taskToPapers {
        order := order + [t];
        taskToPapers := taskToPapers[t := {}];
      }
      taskToPapers := taskToPapers[t := taskToPapers[t] + Present(rows[n])];
      n := n + 1;
    }
    assert rows[..n] == rows;
  }

  lemma {:induction false} SoleTasksSnoc(rows: seq<Row>, tasks: seq<string>, n: nat)
    requires n < |tasks|
    ensures forall i ::
      SoleTasks(rows, tasks[..n + 1], i) == Credited(SoleTasks(rows, tasks[..n], i), PapersOfTask(rows, tasks[n]), tasks[n], i)
  {
    assert tasks[..n + 1][..n] == tasks[..n];
  }

  /** The loop that hands each task with one paper to that paper. */
  method SoleTaskLists(papers: set<int>, rows: seq<Row>) returns (lists: map<int, seq<string>>)
    requires PresentIn(rows, papers)
    ensures lists == map i | i in papers :: SoleTasks(rows, Dedup(TasksOf(rows)), i)
  {
    var taskToPapers, order := CollectTasks(rows);
    lists := map i | i in papers :: [];
    var n := 0;
    while n < |order|
      invariant 0 <= n <= |order|
      invariant lists == map i | i in papers :: SoleTasks(rows, order[..n], i)
    {
      var t := order[n];
      SoleTasksSnoc(rows, order, n);
      TaskPapersAreKnown(rows, t, papers);
      lists := Credit(lists, taskToPapers[t], t);
      n := n + 1;
    }
    assert order[..n] == order;
  }

  /** `_build_unique_tasks_per_paper` */
  method BuildUniqueTasks(papers: set<int>, rows: seq<Row>) returns (unique: map<int, seq<string>>)
    requires PresentIn(rows, papers)
    ensures unique == map i | i in papers :: UniqueTasksOf(rows, i)
  {
    var lists := SoleTaskLists(papers, rows);
    unique := map i | i in lists :: SortedSet(lists[i]);
  }

  lemma {:induction false} TaskPapersAreKnown(rows: seq<Row>, task: string, papers: set<int>)
    requires PresentIn(rows, papers)
    ensures PapersOfTask(rows, task) <= papers
  {
    if rows != [] { TaskPapersAreKnown(rows[..|rows| - 1], task, papers); }
  }
}
