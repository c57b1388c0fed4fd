/** What the derived counts and lists say about the papers. */
module StandingsTheorems {
  import opened Basics
  import opened Schemas
  import opened Rows
  import opened Matrix
  import opened MatrixTheorems
  import opened Standings

  lemma {:induction false} MatrixRowsPresent(nm: Naming, papers: seq<PaperSlot>, n: nat)
    requires n < |MatrixOf(nm, papers)|
    ensures Present(MatrixOf(nm, papers)[n]) <= set i | i in IndexesOf(papers)
    ensures Present(MatrixOf(nm, papers)[n]) != {}
  {
    var rows := MatrixOf(nm, papers);
    var row := rows[n];
    var reports := Reports(papers);
    CellsShowTheReports(nm, papers, n);
    RowsAreSorted(nm, papers);
    assert row.key in MatrixKeys(nm, reports);
    KeysMember(nm, reports, row.key);
    var r :| r in reports && KeyOf(nm, r.benchmark) == row.key;
    ReportsFacts(nm, papers);
    PickFinds(nm, reports, r);
    CellIff(nm, Pick(nm, reports, row.key, r.index), row.higherIsBetter);
    assert r.index in Present(row);
  }

  lemma {:induction false} PickFinds(nm: Naming, reports: seq<Report>, r: Report)
    requires r in reports
    ensures Pick(nm, reports, KeyOf(nm, r.benchmark), r.index) != []
  {
    var n := |reports| - 1;
    if reports[n] != r {
      assert reports == reports[..n] + [reports[n]];
      PickFinds(nm, reports[..n], r);
    }
  }

  /** The win counts add up to the rows with a winner, and each of those is comparable and
      reported by two papers or more. */
  lemma {:induction false} WinsConserved(nm: Naming, papers: seq<PaperSlot>)
    ensures var rows := MatrixOf(nm, papers);
      && WinsTotal(rows, Dedup(IndexesOf(papers))) == CountRows(rows, HasWinner)
      && CountRows(rows, HasWinner) <= CountRows(rows, Comparable) <= |rows|
      && CountRows(rows, HasWinner) <= CountRows(rows, Overlaps)
  {
    var rows := MatrixOf(nm, papers);
    DedupFacts(IndexesOf(papers));
    forall n | 0 <= n < |rows| && HasWinner(rows[n])
      ensures rows[n].winner.value in Dedup(IndexesOf(papers)) && Comparable(rows[n]) && Overlaps(rows[n])
    {
      MatrixRowWinner(nm, papers, n, rows[n].winner.value);
      CellsShowTheReports(nm, papers, n);
      TwoPresent(rows[n]);
    }
    WinsAddUp(rows, Dedup(IndexesOf(papers)));
    CountMonotone(rows, HasWinner, Comparable);
    CountMonotone(rows, HasWinner, Overlaps);
  }

  lemma {:induction false} TwoPresent(row: Row)
    requires TwoReport(row)
    ensures Overlaps(row)
  {
    var i, j :| i in row.cells && j in row.cells && i != j && row.cells[i].value.Some? && row.cells[j].value.Some?;
    SizeTwo(Present(row), i, j);
  }

  // ----- unique tasks against unique rows -----

  predicate SlashFree(s: string) { forall i :: 0 <= i < |s| ==> s[i] != '/' }

  /** A label gives back its task and metric when the task holds no slash. */
  lemma {:induction false} LabelInjective(a: Row, b: Row)
    requires SlashFree(a.key.task) && SlashFree(b.key.task) && Label(a) == Label(b)
    ensures a.key == b.key
  {
    var s := Label(a);
    var x, y := a.key.task, b.key.task;
    assert s[..|x|] == x && s[..|y|] == y;
    assert s[|x|] == '/' && s[|y|] == '/';
    assert |x| == |y|;
    assert s[|x| + 1..] == a.key.metric && s[|y| + 1..] == b.key.metric;
  }

  lemma {:induction false} SoleLabelsMember(rows: seq<Row>, i: int, name: string)
    ensures name in SoleLabels(rows, i) <==> exists n :: 0 <= n < |rows| && Sole(rows[n], i) && Label(rows[n]) == name
  {
    if rows != [] {
      var last := |rows| - 1;
      SoleLabelsMember(rows[..last], i, name);
      if n :| 0 <= n < |rows| && Sole(rows[n], i) && Label(rows[n]) == name {
        if n < last { assert rows[..last][n] == rows[n]; }
      }
    }
  }

  lemma {:induction false} SoleTasksMember(rows: seq<Row>, tasks: seq<string>, i: int, t: string)
    ensures t in SoleTasks(rows, tasks, i) <==> t in tasks && PapersOfTask(rows, t) == {i}
  {
    if tasks != [] {
      SoleTasksMember(rows, tasks[..|tasks| - 1], i, t);
      assert tasks == tasks[..|tasks| - 1] + [tasks[|tasks| - 1]];
    }
  }

  lemma {:induction false} PapersOfTaskMember(rows: seq<Row>, t: string, i: int)
    ensures i in PapersOfTask(rows, t) <==> exists n :: 0 <= n < |rows| && rows[n].key.task == t && i in Present(rows[n])
  {
    if rows != [] {
      var last := |rows| - 1;
      PapersOfTaskMember(rows[..last], t, i);
      if n :| 0 <= n < |rows| && rows[n].key.task == t && i in Present(rows[n]) {
        if n < last { assert rows[..last][n] == rows[n]; }
      }
    }
  }

  /** Only paper i reports the task. */
  ghost predicate TaskOnlyOf(rows: seq<Row>, t: string, i: int) {
    && (exists n :: 0 <= n < |rows| && rows[n].key.task == t)
    && (forall n :: 0 <= n < |rows| && rows[n].key.task == t ==> Sole(rows[n], i))
  }

  lemma {:induction false} TaskPapersIff(rows: seq<Row>, t: string, i: int)
    requires forall n :: 0 <= n < |rows| ==> Present(rows[n]) != {}
    ensures TaskOnlyOf(rows, t, i) <==> PapersOfTask(rows, t) == {i}
  {
    forall j ensures j in PapersOfTask(rows, t) <==>
      exists n :: 0 <= n < |rows| && rows[n].key.task == t && j in Present(rows[n])
    {
      PapersOfTaskMember(rows, t, j);
    }
    if PapersOfTask(rows, t) == {i} {
      assert i in PapersOfTask(rows, t);
      forall n | 0 <= n < |rows| && rows[n].key.task == t ensures Sole(rows[n], i) {
        forall j | j in Present(rows[n]) ensures j == i { assert j in PapersOfTask(rows, t); }
        assert Present(rows[n]) <= {i};
      }
    }
    if TaskOnlyOf(rows, t, i) {
      assert forall j :: j in PapersOfTask(rows, t) ==> j == i;
      assert i in PapersOfTask(rows, t);
    }
  }

  /** A task is unique to a paper exactly when all its rows are among that paper's unique rows. */
  lemma {:induction false} UniqueTaskIff(rows: seq<Row>, i: int, t: string)
    requires forall n :: 0 <= n < |rows| ==> Present(rows[n]) != {} && SlashFree(rows[n].key.task)
    requires forall m, n :: 0 <= m < n < |rows| ==> rows[m].key != rows[n].key
    ensures t in UniqueTasksOf(rows, i) <==>
      && (exists n :: 0 <= n < |rows| && rows[n].key.task == t)
      && (forall n :: 0 <= n < |rows| && rows[n].key.task == t ==> Label(rows[n]) in SortedSet(SoleLabels(rows, i)))
  {
    SortedSetFacts(SoleLabels(rows, i));
    SortedSetFacts(SoleTasks(rows, Dedup(TasksOf(rows)), i));
    SoleTasksMember(rows, Dedup(TasksOf(rows)), i, t);
    TaskPapersIff(rows, t, i);
    DedupFacts(TasksOf(rows));
    assert t in TasksOf(rows) <==> exists n :: 0 <= n < |rows| && rows[n].key.task == t by {
      if n :| 0 <= n < |rows| && rows[n].key.task == t { assert TasksOf(rows)[n] == t; }
    }
    forall n | 0 <= n < |rows| ensures Label(rows[n]) in SoleLabels(rows, i) <==> Sole(rows[n], i) {
      SoleLabelsMember(rows, i, Label(rows[n]));
      forall m | 0 <= m < |rows| && Label(rows[m]) == Label(rows[n]) ensures m == n {
        LabelInjective(rows[m], rows[n]);
      }
    }
  }
}
