/** The request-driven comparison (agents/comparison_analyst.py:143-213,
    services/paperintel_service.py:1149-1228) and the structural check of what it produces
    (evaluation/ca_structural_checks.py:18-85). */
module Analyst {
  import opened Wrappers
  import opened Basics
  import opened Schemas
  import opened Rows
  import opened Matrix
  import opened MatrixTheorems
  import opened Comparison

  // ----- the analyst -----

  datatype WorkspaceStage = FailedStage | PaperFailureStage | OtherStage(name: string)

  /** The stored payloads are already validated: None where validation fails. */
  datatype Workspace = Workspace(
    paperId: string, title: Option<string>, sourceUrl: string, stage: WorkspaceStage,
    extraction: Option<MethodExtraction>, benchmarks: seq<Option<BenchmarkResult>>,
    readiness: Option<ProductionReadiness>, report: Option<EngineerReport>, markdown: Option<string>)

  function Valid(benchmarks: seq<Option<BenchmarkResult>>): seq<BenchmarkResult> {
    if benchmarks == [] then []
    else (if benchmarks[0].Some? then [benchmarks[0].value] else []) + Valid(benchmarks[1..])
  }

  function SlotOf(w: Workspace, index: int): PaperSlot {
    var title := if w.title.Some? && w.title.value != "" then w.title.value else w.paperId;
    PaperSlot(index, w.sourceUrl, Some(PaperMetadata(title, "", Some(w.paperId))), w.extraction,
              Valid(w.benchmarks), [], None, w.readiness, w.report, w.markdown, [], w.stage.OtherStage?)
  }

  function SlotsOf(workspaces: seq<Workspace>): (r: seq<PaperSlot>)
    ensures |r| == |workspaces|
    ensures forall i :: 0 <= i < |r| ==> r[i] == SlotOf(workspaces[i], i)
  {
    seq(|workspaces|, i requires 0 <= i < |workspaces| => SlotOf(workspaces[i], i))
  }

  datatype Refusal = NotEnoughPapers | WorkspaceNotFound(paperId: string) | WorkspaceNotReady(paperId: string)

  datatype Loaded = Workspaces(list: seq<Workspace>) | Refused(why: Refusal)

  datatype Artifact = Artifact(paperIds: seq<string>, report: Option<ComparisonReport>)

  datatype Compared = Comparison(artifact: Artifact) | NoComparison(why: Refusal)

  /** The last stored workspace with the id, as in the dictionary by id. */
  function FindWorkspace(stored: seq<Workspace>, id: string): Option<Workspace> {
    if stored == [] then None
    else if stored[|stored| - 1].paperId == id then Some(stored[|stored| - 1])
    else FindWorkspace(stored[..|stored| - 1], id)
  }

  /** The workspaces of the ids, in their order, or the first that is missing. */
  function LoadAll(stored: seq<Workspace>, ids: seq<string>): Loaded {
    if ids == [] then Workspaces([])
    else
      match LoadAll(stored, ids[..|ids| - 1])
      case Refused(why) => Refused(why)
      case Workspaces(list) =>
        match FindWorkspace(stored, ids[|ids| - 1])
        case None => Refused(WorkspaceNotFound(ids[|ids| - 1]))
        case Some(w) => Workspaces(list + [w])
  }

  function FirstFailed(workspaces: seq<Workspace>): Option<string> {
    if workspaces == [] then None
    else if workspaces[0].stage.OtherStage? then FirstFailed(workspaces[1..])
    else Some(workspaces[0].paperId)
  }

  function LoadRequested(stored: seq<Workspace>, requested: seq<string>): Loaded {
    var ids := Dedup(requested);
    if |ids| < 2 then Refused(NotEnoughPapers)
    else
      match LoadAll(stored, ids)
      case Refused(why) => Refused(why)
      case Workspaces(list) =>
        match FirstFailed(list)
        case Some(id) => Refused(WorkspaceNotReady(id))
        case None => Workspaces(list)
  }

  function IdsOf(workspaces: seq<Workspace>): (r: seq<string>)
    ensures |r| == |workspaces|
    ensures forall i :: 0 <= i < |r| ==> r[i] == workspaces[i].paperId
  {
    seq(|workspaces|, i requires 0 <= i < |workspaces| => workspaces[i].paperId)
  }

  /** `compare_papers`: no network, the model's reply enters as its claims. */
  method ComparePapers(stored: seq<Workspace>, requested: seq<string>, claims: Claims) returns (r: Compared)
    ensures r.NoComparison? <==> LoadRequested(stored, requested).Refused?
    ensures r.NoComparison? ==> r.why == LoadRequested(stored, requested).why
    ensures r.Comparison? ==>
      var workspaces := LoadRequested(stored, requested).list;
      && r.artifact.paperIds == IdsOf(workspaces) && r.artifact.report.Some?
      && ReportsOn(r.artifact.report.value, workspaces, claims)
      && r.artifact.report.value.summaries == Numbered(IdsOf(workspaces))
  {
    match LoadRequested(stored, requested)
    case Refused(why) => r := NoComparison(why);
    case Workspaces(workspaces) =>
      var report := BuildReport(PaperNaming(), SlotsOf(workspaces), claims, ComparisonAnalyst);
      r := Comparison(Artifact(IdsOf(workspaces), Some(report)));
  }

  /** A summary for each id, numbered from 0. */
  function Numbered(ids: seq<string>): (r: seq<Summary>)
    ensures |r| == |ids|
    ensures forall i :: 0 <= i < |r| ==> r[i] == Summary(i, Some(ids[i]))
  {
    seq(|ids|, i requires 0 <= i < |ids| => Summary(i, Some(ids[i])))
  }

  /** What a report on some workspaces holds. */
  ghost predicate ReportsOn(report: ComparisonReport, workspaces: seq<Workspace>, claims: Claims) {
    && report.rows == MatrixOf(PaperNaming(), SlotsOf(workspaces))
    && report.summaries == Summaries(SlotsOf(workspaces))
    && report.producer == ComparisonAnalyst
    && report.winner == OverallWinner(claims, SlotsOf(workspaces))
    && report.basis == WinnerBasis(claims, SlotsOf(workspaces), report.winner, report.stats)
  }

  lemma {:induction false} FoundIsStored(stored: seq<Workspace>, id: string)
    ensures var w := FindWorkspace(stored, id);
      && (w.Some? ==> w.value in stored && w.value.paperId == id)
      && (w == None <==> forall v :: v in stored ==> v.paperId != id)
  {
    if stored != [] {
      FoundIsStored(stored[..|stored| - 1], id);
      assert stored == stored[..|stored| - 1] + [stored[|stored| - 1]];
    }
  }

  lemma {:induction false} LoadedAreNamed(stored: seq<Workspace>, ids: seq<string>)
    ensures LoadAll(stored, ids).Workspaces? ==>
      IdsOf(LoadAll(stored, ids).list) == ids && forall w :: w in LoadAll(stored, ids).list ==> w in stored
  {
    if ids != [] {
      var n := |ids| - 1;
      LoadedAreNamed(stored, ids[..n]);
      FoundIsStored(stored, ids[n]);
      assert ids == ids[..n] + [ids[n]];
    }
  }

  ghost predicate AllStored(stored: seq<Workspace>, ids: seq<string>) {
    forall i :: 0 <= i < |ids| ==> FindWorkspace(stored, ids[i]).Some?
  }

  lemma {:induction false} LoadAllIff(stored: seq<Workspace>, ids: seq<string>)
    ensures var r := LoadAll(stored, ids);
      && (r.Workspaces? <==> AllStored(stored, ids))
      && (r.Workspaces? ==> |r.list| == |ids| && forall i :: 0 <= i < |ids| ==> FindWorkspace(stored, ids[i]) == Some(r.list[i]))
  {
    if ids != [] {
      var n := |ids| - 1;
      LoadAllIff(stored, ids[..n]);
      assert AllStored(stored, ids) <==> AllStored(stored, ids[..n]) && FindWorkspace(stored, ids[n]).Some? by {
        assert forall i :: 0 <= i < n ==> ids[..n][i] == ids[i];
      }
    }
  }

  lemma {:induction false} FirstFailedIff(workspaces: seq<Workspace>)
    ensures FirstFailed(workspaces) == None <==> forall w :: w in workspaces ==> w.stage.OtherStage?
  {
    if workspaces != [] {
      FirstFailedIff(workspaces[1..]);
      assert workspaces == [workspaces[0]] + workspaces[1..];
    }
  }

  predicate Ready(stored: seq<Workspace>, id: string) {
    FindWorkspace(stored, id).Some? && FindWorkspace(stored, id).value.stage.OtherStage?
  }

  /** Some ids all have ready workspaces exactly when all are found and none found has failed. */
  lemma {:induction false} ReadyIff(stored: seq<Workspace>, ids: seq<string>)
    ensures (forall i :: 0 <= i < |ids| ==> Ready(stored, ids[i])) <==>
      LoadAll(stored, ids).Workspaces? && FirstFailed(LoadAll(stored, ids).list) == None
  {
    LoadAllIff(stored, ids);
    var loaded := LoadAll(stored, ids);
    if loaded.Workspaces? {
      var list := loaded.list;
      FirstFailedIff(list);
      assert forall i :: 0 <= i < |ids| ==> list[i] in list;
    }
  }

  lemma {:induction false} ReadyMembers(stored: seq<Workspace>, requested: seq<string>, ids: seq<string>)
    requires forall id :: id in ids <==> id in requested
    ensures (forall id :: id in requested ==> Ready(stored, id)) <==> forall i :: 0 <= i < |ids| ==> Ready(stored, ids[i])
  {
    forall id | id in requested ensures exists i :: 0 <= i < |ids| && ids[i] == id { assert id in ids; }
  }

  /** A request is served exactly when it names two distinct papers or more, all stored and none failed. */
  lemma {:induction false} ServedIff(stored: seq<Workspace>, requested: seq<string>)
    ensures LoadRequested(stored, requested).Workspaces? <==>
      |Dedup(requested)| >= 2 && forall id :: id in requested ==> Ready(stored, id)
  {
    DedupFacts(requested);
    ReadyIff(stored, Dedup(requested));
    ReadyMembers(stored, requested, Dedup(requested));
  }

  // ----- the check -----

  datatype CheckError =
    | PaperIdsDiffer | InvalidReport | WrongProducer | MissingSummary(indexes: set<int>)
    | UnknownSummaryIds(ids: seq<string>) | UnknownMatrixIndexes(indexes: set<int>) | MissingMatrix(indexes: set<int>)

  function Upto(n: nat): (r: set<int>)
    ensures forall i :: i in r <==> 0 <= i < n
  {
    if n == 0 then {} else Upto(n - 1) + {n - 1}
  }

  function UnknownIds(summaries: seq<Summary>, requested: seq<string>): seq<string> {
    if summaries == [] then []
    else
      var id := summaries[|summaries| - 1].arxivId;
      UnknownIds(summaries[..|summaries| - 1], requested)
        + if id.Some? && id.value != "" && id.value !in requested then [id.value] else []
  }

  function RowErrors(rows: seq<Row>, expected: set<int>): seq<CheckError> {
    if rows == [] then []
    else
      var unknown := rows[|rows| - 1].cells.Keys - expected;
      RowErrors(rows[..|rows| - 1], expected) + if unknown != {} then [UnknownMatrixIndexes(unknown)] else []
  }

  /** The loop over the rows: which papers they represent, and their complaints. */
  method CheckRows(rows: seq<Row>, expected: set<int>) returns (represented: set<int>, errors: seq<CheckError>)
    ensures represented == Represented(rows, expected)
    ensures errors == RowErrors(rows, expected)
  {
    represented, errors := {}, [];
    var n := 0;
    while n < |rows|
      invariant 0 <= n <= |rows|
      invariant represented == Represented(rows[..n], expected)
      invariant errors == RowErrors(rows[..n], expected)
    {
      assert rows[..n + 1][..n] == rows[..n];
      represented := represented + set i | i in rows[n].cells && i in expected;
      var unknown := rows[n].cells.Keys - expected;
      if unknown != {} {
        errors := errors + [UnknownMatrixIndexes(unknown)];
      }
      n := n + 1;
    }
    assert rows[..n] == rows;
  }

  function Represented(rows: seq<Row>, expected: set<int>): set<int> {
    if rows == [] then {}
    else Represented(rows[..|rows| - 1], expected) + set i | i in rows[|rows| - 1].cells && i in expected
  }

  predicate Summarised(summaries: seq<Summary>, i: int) {
    exists s :: s in summaries && s.paperIndex == i
  }

  predicate IdKnown(s: Summary, requested: seq<string>) {
    s.arxivId.Some? && s.arxivId.value != "" ==> s.arxivId.value in requested
  }

  /** What the check accepts. */
  ghost predicate Acceptable(artifact: Artifact, requested: seq<string>) {
    && artifact.paperIds == requested && artifact.report.Some?
    && var report := artifact.report.value;
    && report.producer == ComparisonAnalyst
    && (forall i :: i in Upto(|requested|) ==> Summarised(report.summaries, i))
    && (forall s :: s in report.summaries ==> IdKnown(s, requested))
    && (forall n :: 0 <= n < |report.rows| ==> report.rows[n].cells.Keys <= Upto(|requested|))
    && Upto(|requested|) <= Represented(report.rows, Upto(|requested|))
  }

  function If(c: bool, error: CheckError): seq<CheckError> { if c then [error] else [] }

  function SummarisedIndexes(summaries: seq<Summary>): set<int> {
    set s | s in summaries :: s.paperIndex
  }

  /** The complaints, in the order the check makes them. */
  function CheckErrors(artifact: Artifact, requested: seq<string>): seq<CheckError> {
    var mismatch := If(artifact.paperIds != requested, PaperIdsDiffer);
    if artifact.report == None then [InvalidReport]
    else
      var report := artifact.report.value;
      var expected := Upto(|requested|);
      var unsummarised := expected - SummarisedIndexes(report.summaries);
      var unknown := UnknownIds(report.summaries, requested);
      var unrepresented := expected - Represented(report.rows, expected);
      mismatch + If(report.producer != ComparisonAnalyst, WrongProducer)
        + If(unsummarised != {}, MissingSummary(unsummarised))
        + If(unknown != [], UnknownSummaryIds(unknown))
        + RowErrors(report.rows, expected)
        + If(unrepresented != {}, MissingMatrix(unrepresented))
  }

  lemma {:induction false} AddNone(errors: seq<CheckError>)
    ensures errors + [] == errors
  {}

  /** `check_comparison_artifact`; it passes when the list of errors is empty. */
  method CheckComparisonArtifact(artifact: Artifact, requestedIds: seq<string>) returns (errors: seq<CheckError>)
    ensures errors == CheckErrors(artifact, Dedup(requestedIds))
  {
    errors := [];
    var requested := Dedup(requestedIds);
    if artifact.paperIds != requested {
      errors := [PaperIdsDiffer];
    }
    if artifact.report == None {
      return [InvalidReport];
    }
    var report := artifact.report.value;
    AddNone(errors);
    if report.producer != ComparisonAnalyst {
      errors := errors + [WrongProducer];
    }
    var expected := Upto(|requested|);
    var missing := expected - SummarisedIndexes(report.summaries);
    AddNone(errors);
    if missing != {} {
      errors := errors + [MissingSummary(missing)];
    }
    var unknown := UnknownIds(report.summaries, requested);
    AddNone(errors);
    if unknown != [] {
      errors := errors + [UnknownSummaryIds(unknown)];
    }
    var represented, rowErrors := CheckRows(report.rows, expected);
    errors := errors + rowErrors;
    AddNone(errors);
    if expected - represented != {} {
      errors := errors + [MissingMatrix(expected - represented)];
    }
  }

  /** The check passes exactly the acceptable artifacts. */
  lemma {:induction false} CheckPassesIff(artifact: Artifact, requested: seq<string>)
    ensures CheckErrors(artifact, requested) == [] <==> Acceptable(artifact, requested)
  {
    if artifact.report.Some? {
      var report := artifact.report.value;
      var expected := Upto(|requested|);
      SummaryIdsKnown(report.summaries, requested);
      SummariesCover(report.summaries, |requested|);
      RowErrorsIff(report.rows, expected);
      NothingMissing(expected, Represented(report.rows, expected));
    }
  }

  lemma {:induction false} RowErrorsIff(rows: seq<Row>, expected: set<int>)
    ensures RowErrors(rows, expected) == [] <==> forall n :: 0 <= n < |rows| ==> rows[n].cells.Keys <= expected
  {
    if rows != [] {
      RowErrorsIff(rows[..|rows| - 1], expected);
      NothingMissing(rows[|rows| - 1].cells.Keys, expected);
    }
  }

  lemma {:induction false} NothingMissing<T>(expected: set<T>, found: set<T>)
    ensures expected - found == {} <==> expected <= found
  {
    var missing := expected - found;
    assert forall x :: x in missing <==> x in expected && x !in found;
  }

  lemma {:induction false} SummariesCover(summaries: seq<Summary>, n: nat)
    ensures Upto(n) - SummarisedIndexes(summaries) == {} <==> forall i :: i in Upto(n) ==> Summarised(summaries, i)
  {
    NothingMissing(Upto(n), SummarisedIndexes(summaries));
    assert forall i :: i in SummarisedIndexes(summaries) <==> Summarised(summaries, i);
  }

  lemma {:induction false} SummaryIdsKnown(summaries: seq<Summary>, requested: seq<string>)
    ensures UnknownIds(summaries, requested) == [] <==> forall s :: s in summaries ==> IdKnown(s, requested)
  {
    if summaries != [] {
      var last := summaries[|summaries| - 1];
      SummaryIdsKnown(summaries[..|summaries| - 1], requested);
      assert summaries == summaries[..|summaries| - 1] + [last];
      assert last in summaries;
    }
  }

  // ----- the analyst against the check -----

  ghost predicate SomeBenchmark(workspaces: seq<Workspace>) {
    exists w :: w in workspaces && Valid(w.benchmarks) != []
  }

  lemma {:induction false} BenchmarksCounted(papers: seq<PaperSlot>)
    ensures Reports(papers) != [] <==> exists p :: p in papers && p.benchmarks != []
  {
    if papers != [] {
      var last := |papers| - 1;
      BenchmarksCounted(papers[..last]);
      assert papers == papers[..last] + [papers[last]];
    }
  }

  lemma {:induction false} MatrixEmptyIff(nm: Naming, papers: seq<PaperSlot>)
    ensures MatrixOf(nm, papers) != [] <==> exists p :: p in papers && p.benchmarks != []
  {
    BenchmarksCounted(papers);
    RowsAreSorted(nm, papers);
    var reports := Reports(papers);
    if reports != [] {
      assert KeysOf(nm, reports)[0] in KeysOf(nm, reports);
      assert KeysOf(nm, reports)[0] in MatrixKeys(nm, reports);
    }
    if MatrixOf(nm, papers) != [] {
      assert MatrixKeys(nm, reports)[0] in KeysOf(nm, reports);
    }
  }

  lemma {:induction false} RepresentedAll(rows: seq<Row>, expected: set<int>)
    requires forall n :: 0 <= n < |rows| ==> rows[n].cells.Keys == expected
    ensures Represented(rows, expected) == if rows == [] then {} else expected
  {
    if rows != [] { RepresentedAll(rows[..|rows| - 1], expected); }
  }

  lemma {:induction false} SlotsWithBenchmarks(workspaces: seq<Workspace>)
    ensures SomeBenchmark(workspaces) <==> exists p :: p in SlotsOf(workspaces) && p.benchmarks != []
  {
    var slots := SlotsOf(workspaces);
    if w :| w in workspaces && Valid(w.benchmarks) != [] {
      var i :| 0 <= i < |workspaces| && workspaces[i] == w;
      assert slots[i] in slots;
    }
    if p :| p in slots && p.benchmarks != [] {
      var i :| 0 <= i < |slots| && slots[i] == p;
      assert workspaces[i] in workspaces;
    }
  }

  lemma {:induction false} KeysAreUpto(row: Row, slots: seq<PaperSlot>)
    requires forall i :: 0 <= i < |slots| ==> slots[i].paperIndex == i
    requires forall i :: i in row.cells <==> i in IndexesOf(slots)
    ensures row.cells.Keys == Upto(|slots|)
  {
    forall i ensures i in IndexesOf(slots) <==> i in Upto(|slots|) {
      if 0 <= i < |slots| { assert IndexesOf(slots)[i] == i; }
    }
  }

  lemma {:induction false} SlotRows(nm: Naming, slots: seq<PaperSlot>, n: nat)
    requires n < |MatrixOf(nm, slots)| && forall i :: 0 <= i < |slots| ==> slots[i].paperIndex == i
    ensures MatrixOf(nm, slots)[n].cells.Keys == Upto(|slots|)
  {
    CellsShowTheReports(nm, slots, n);
    KeysAreUpto(MatrixOf(nm, slots)[n], slots);
  }

  lemma {:induction false} SummaryIndexes(workspaces: seq<Workspace>, i: int)
    requires i in Upto(|workspaces|)
    ensures Summarised(Summaries(SlotsOf(workspaces)), i)
  {
    var summaries := Summaries(SlotsOf(workspaces));
    assert summaries[i] in summaries && summaries[i].paperIndex == i;
  }

  lemma {:induction false} SummaryIds(workspaces: seq<Workspace>, s: Summary)
    requires s in Summaries(SlotsOf(workspaces))
    ensures IdKnown(s, IdsOf(workspaces))
  {
    var summaries := Summaries(SlotsOf(workspaces));
    var i :| 0 <= i < |summaries| && summaries[i] == s;
    assert summaries[i] == SummaryOf(SlotOf(workspaces[i], i));
    assert IdsOf(workspaces)[i] == workspaces[i].paperId;
  }

  /** The matrix represents every paper of a numbered list, unless none reports a benchmark. */
  lemma {:induction false} RowsRepresent(nm: Naming, slots: seq<PaperSlot>)
    requires slots != [] && forall i :: 0 <= i < |slots| ==> slots[i].paperIndex == i
    ensures var rows := MatrixOf(nm, slots);
      && (forall n :: 0 <= n < |rows| ==> rows[n].cells.Keys <= Upto(|slots|))
      && (Upto(|slots|) <= Represented(rows, Upto(|slots|)) <==> exists p :: p in slots && p.benchmarks != [])
  {
    var rows := MatrixOf(nm, slots);
    forall n | 0 <= n < |rows| ensures rows[n].cells.Keys == Upto(|slots|) { SlotRows(nm, slots, n); }
    MatrixEmptyIff(nm, slots);
    RepresentedAll(rows, Upto(|slots|));
    assert 0 in Upto(|slots|);
  }

  /** A report the analyst makes passes the check exactly when some workspace has a valid
      benchmark, whatever the model claimed. */
  lemma {:induction false} AnalystPassesIff(report: ComparisonReport, workspaces: seq<Workspace>, claims: Claims)
    requires |workspaces| >= 2 && ReportsOn(report, workspaces, claims)
    ensures Acceptable(Artifact(IdsOf(workspaces), Some(report)), IdsOf(workspaces)) <==> SomeBenchmark(workspaces)
    ensures report.basis == NoClearWinner <==> report.winner == None
  {
    BasisIff(claims, SlotsOf(workspaces), report.stats);
    SummariesFit(report.summaries, workspaces);
    SlotsWithBenchmarks(workspaces);
    RowsRepresent(PaperNaming(), SlotsOf(workspaces));
  }

  lemma {:induction false} SummariesFit(summaries: seq<Summary>, workspaces: seq<Workspace>)
    requires summaries == Summaries(SlotsOf(workspaces))
    ensures forall i :: i in Upto(|workspaces|) ==> Summarised(summaries, i)
    ensures forall s :: s in summaries ==> IdKnown(s, IdsOf(workspaces))
  {
    forall i | i in Upto(|workspaces|) ensures Summarised(summaries, i) { SummaryIndexes(workspaces, i); }
    forall s | s in summaries ensures IdKnown(s, IdsOf(workspaces)) { SummaryIds(workspaces, s); }
  }

  /** End to end: a request that is not refused compares exactly the requested papers, once
      each and in order, and its artifact passes the structural check exactly when one of their
      stored workspaces has a valid benchmark. */
  method CompareAndCheck(stored: seq<Workspace>, requested: seq<string>, claims: Claims)
    returns (r: Compared, errors: seq<CheckError>)
    ensures r.NoComparison? <==> LoadRequested(stored, requested).Refused?
    ensures r.Comparison? ==>
      && r.artifact.paperIds == Dedup(requested)
      && (r.artifact.report.Some? && (r.artifact.report.value.basis == NoClearWinner <==> r.artifact.report.value.winner == None))
      && (errors == [] <==> SomeBenchmark(LoadRequested(stored, requested).list))
  {
    r := ComparePapers(stored, requested, claims);
    errors := [];
    if r.Comparison? {
      ghost var workspaces := LoadRequested(stored, requested).list;
      LoadedAreNamed(stored, Dedup(requested));
      AnalystPassesIff(r.artifact.report.value, workspaces, claims);
      CheckPassesIff(r.artifact, Dedup(requested));
      errors := CheckComparisonArtifact(r.artifact, requested);
    }
  }
}
