/** Why a comparison request is refused and what the structural check complains of
    (services/paperintel_service.py:1149-1228, evaluation/ca_structural_checks.py:18-85), in terms
    of the stored workspaces, the requested ids and the artifact. */
module RequestReading {
  import opened Wrappers
  import opened Basics
  import opened Rows
  import opened Comparison
  import opened Analyst

  // ----- refusals -----

  /** Place k holds the workspace that counts for the id: the last stored under it. */
  ghost predicate LastUnder(stored: seq<Workspace>, id: string, k: int) {
    0 <= k < |stored| && stored[k].paperId == id && forall j :: k < j < |stored| ==> stored[j].paperId != id
  }

  predicate Stored(stored: seq<Workspace>, id: string) { exists k :: 0 <= k < |stored| && stored[k].paperId == id }

  ghost predicate Failing(stored: seq<Workspace>, id: string) {
    exists k :: LastUnder(stored, id, k) && stored[k].stage in {FailedStage, PaperFailureStage}
  }

  lemma {:induction false} FoundIsLast(stored: seq<Workspace>, id: string)
    ensures FindWorkspace(stored, id).Some? <==> Stored(stored, id)
    ensures FindWorkspace(stored, id).Some? ==> exists k :: LastUnder(stored, id, k) && FindWorkspace(stored, id) == Some(stored[k])
  {
    if stored != [] {
      var n := |stored| - 1;
      if stored[n].paperId == id {
        assert LastUnder(stored, id, n);
      } else {
        FoundIsLast(stored[..n], id);
        if FindWorkspace(stored[..n], id).Some? {
          var k :| LastUnder(stored[..n], id, k) && FindWorkspace(stored[..n], id) == Some(stored[..n][k]);
          assert LastUnder(stored, id, k);
        }
      }
    }
  }

  lemma {:induction false} FailingIff(stored: seq<Workspace>, id: string)
    requires FindWorkspace(stored, id).Some?
    ensures Failing(stored, id) <==> !FindWorkspace(stored, id).value.stage.OtherStage?
  {
    FoundIsLast(stored, id);
    var k :| LastUnder(stored, id, k) && FindWorkspace(stored, id) == Some(stored[k]);
    forall l | LastUnder(stored, id, l) ensures l == k { assert !(k < l) && !(l < k); }
  }

  /** The k-th id is the first that is not stored. */
  ghost predicate FirstMissing(stored: seq<Workspace>, ids: seq<string>, k: int) {
    0 <= k < |ids| && !Stored(stored, ids[k]) && forall j :: 0 <= j < k ==> Stored(stored, ids[j])
  }

  /** All are stored, and the k-th is the first whose workspace is one of a failure. */
  ghost predicate FirstFailing(stored: seq<Workspace>, ids: seq<string>, k: int) {
    && (forall j :: 0 <= j < |ids| ==> Stored(stored, ids[j]))
    && 0 <= k < |ids| && Failing(stored, ids[k]) && forall j :: 0 <= j < k ==> !Failing(stored, ids[j])
  }

  lemma {:induction false} LoadStops(stored: seq<Workspace>, ids: seq<string>)
    ensures LoadAll(stored, ids).Refused? ==>
      exists k :: FirstMissing(stored, ids, k) && LoadAll(stored, ids).why == WorkspaceNotFound(ids[k])
  {
    if ids != [] {
      var n := |ids| - 1;
      LoadStops(stored, ids[..n]);
      LoadAllIff(stored, ids[..n]);
      forall j | 0 <= j < |ids| ensures FindWorkspace(stored, ids[j]).Some? <==> Stored(stored, ids[j]) { FoundIsLast(stored, ids[j]); }
      if LoadAll(stored, ids[..n]).Refused? {
        var k :| FirstMissing(stored, ids[..n], k) && LoadAll(stored, ids[..n]).why == WorkspaceNotFound(ids[..n][k]);
        assert FirstMissing(stored, ids, k);
      } else if LoadAll(stored, ids).Refused? {
        assert forall j :: 0 <= j < n ==> Stored(stored, ids[..n][j]);
        assert FirstMissing(stored, ids, n);
      }
    }
  }

  lemma {:induction false} FirstFailedAt(workspaces: seq<Workspace>)
    ensures FirstFailed(workspaces).Some? ==>
      exists k :: 0 <= k < |workspaces| && FirstFailed(workspaces) == Some(workspaces[k].paperId)
        && !workspaces[k].stage.OtherStage? && forall j :: 0 <= j < k ==> workspaces[j].stage.OtherStage?
  {
    if workspaces != [] && workspaces[0].stage.OtherStage? && FirstFailed(workspaces).Some? {
      var rest := workspaces[1..];
      FirstFailedAt(rest);
      var k :| 0 <= k < |rest| && FirstFailed(rest) == Some(rest[k].paperId)
        && !rest[k].stage.OtherStage? && forall j :: 0 <= j < k ==> rest[j].stage.OtherStage?;
      assert workspaces[k + 1] == rest[k] && forall j :: 0 < j < k + 1 ==> workspaces[j] == rest[j - 1];
    }
  }

  /** The distinct requested ids in the order they are first named, and why they are refused. */
  lemma {:induction false} RefusalReads(stored: seq<Workspace>, requested: seq<string>)
    ensures var ids, r := Dedup(requested), LoadRequested(stored, requested);
      match r
      case Workspaces(list) =>
        && |ids| >= 2 && |list| == |ids|
        && forall k :: 0 <= k < |ids| ==> !Failing(stored, ids[k]) && exists l :: LastUnder(stored, ids[k], l) && list[k] == stored[l]
      case Refused(NotEnoughPapers) => |ids| < 2
      case Refused(WorkspaceNotFound(id)) => |ids| >= 2 && exists k :: FirstMissing(stored, ids, k) && ids[k] == id
      case Refused(WorkspaceNotReady(id)) => |ids| >= 2 && exists k :: FirstFailing(stored, ids, k) && ids[k] == id
  {
    var ids, loaded := Dedup(requested), LoadAll(stored, Dedup(requested));
    LoadStops(stored, ids);
    LoadAllIff(stored, ids);
    if loaded.Workspaces? {
      forall k | 0 <= k < |ids|
        ensures Stored(stored, ids[k]) && (Failing(stored, ids[k]) <==> !loaded.list[k].stage.OtherStage?)
        ensures loaded.list[k].paperId == ids[k] && exists l :: LastUnder(stored, ids[k], l) && loaded.list[k] == stored[l]
      {
        FoundIsLast(stored, ids[k]);
        FailingIff(stored, ids[k]);
      }
      FirstFailedAt(loaded.list);
      FirstFailedIff(loaded.list);
    }
  }

  // ----- complaints -----

  predicate Summarises(report: ComparisonReport, i: int) {
    exists k :: 0 <= k < |report.summaries| && report.summaries[k].paperIndex == i
  }

  predicate Represents(report: ComparisonReport, i: int) {
    exists n :: 0 <= n < |report.rows| && i in report.rows[n].cells
  }

  /** A summary names the id, which was not requested. */
  predicate Names(report: ComparisonReport, requested: seq<string>, id: string) {
    id != "" && id !in requested
    && exists k :: 0 <= k < |report.summaries| && report.summaries[k].arxivId == Some(id)
  }

  predicate Beyond(row: Row, n: nat, i: int) { i in row.cells && !(0 <= i < n) }

  /** What an error says of the artifact. */
  ghost predicate Justified(artifact: Artifact, requested: seq<string>, error: CheckError) {
    if artifact.report == None then error == InvalidReport
    else
      var report := artifact.report.value;
      match error
      case InvalidReport => false
      case PaperIdsDiffer => artifact.paperIds != requested
      case WrongProducer => report.producer != ComparisonAnalyst
      case MissingSummary(missing) =>
        missing != {} && forall i :: i in missing <==> 0 <= i < |requested| && !Summarises(report, i)
      case UnknownSummaryIds(ids) =>
        ids != [] && forall id :: id in ids <==> Names(report, requested, id)
      case UnknownMatrixIndexes(unknown) =>
        unknown != {} && exists n :: 0 <= n < |report.rows| && forall i :: i in unknown <==> Beyond(report.rows[n], |requested|, i)
      case MissingMatrix(missing) =>
        missing != {} && forall i :: i in missing <==> 0 <= i < |requested| && !Represents(report, i)
  }

  lemma {:induction false} RepresentedIff(rows: seq<Row>, expected: set<int>, i: int)
    ensures i in Represented(rows, expected) <==> i in expected && exists n :: 0 <= n < |rows| && i in rows[n].cells
  {
    if rows != [] {
      var n := |rows| - 1;
      RepresentedIff(rows[..n], expected, i);
      assert forall m :: 0 <= m < n ==> rows[..n][m] == rows[m];
    }
  }

  lemma {:induction false} UnknownIff(summaries: seq<Summary>, requested: seq<string>, id: string)
    ensures id in UnknownIds(summaries, requested)
      <==> id != "" && id !in requested && exists k :: 0 <= k < |summaries| && summaries[k].arxivId == Some(id)
  {
    if summaries != [] {
      var n := |summaries| - 1;
      UnknownIff(summaries[..n], requested, id);
      assert forall k :: 0 <= k < n ==> summaries[..n][k] == summaries[k];
    }
  }

  lemma {:induction false} RowErrorIff(rows: seq<Row>, expected: set<int>, error: CheckError)
    ensures error in RowErrors(rows, expected)
      <==> exists n :: 0 <= n < |rows| && rows[n].cells.Keys - expected != {} && error == UnknownMatrixIndexes(rows[n].cells.Keys - expected)
  {
    if rows != [] {
      var n := |rows| - 1;
      RowErrorIff(rows[..n], expected, error);
      assert forall m :: 0 <= m < n ==> rows[..n][m] == rows[m];
    }
  }

  lemma {:induction false} SummarisedIff(report: ComparisonReport, i: int)
    ensures i in SummarisedIndexes(report.summaries) <==> Summarises(report, i)
  {}

  lemma {:induction false} InFive<T>(a: seq<T>, b: seq<T>, c: seq<T>, d: seq<T>, e: seq<T>, f: seq<T>, x: T)
    ensures x in a + b + c + d + e + f <==> x in a || x in b || x in c || x in d || x in e || x in f
  {}

  lemma {:induction false} InIf(c: bool, e: CheckError, error: CheckError)
    ensures error in If(c, e) <==> c && error == e
  {}

  /** Which errors the check lists. */
  lemma {:induction false} ErrorListed(artifact: Artifact, requested: seq<string>, error: CheckError)
    requires artifact.report.Some?
    ensures var report, expected := artifact.report.value, Upto(|requested|);
      error in CheckErrors(artifact, requested) <==>
        match error
        case InvalidReport => false
        case PaperIdsDiffer => artifact.paperIds != requested
        case WrongProducer => report.producer != ComparisonAnalyst
        case MissingSummary(missing) => missing == expected - SummarisedIndexes(report.summaries) && missing != {}
        case UnknownSummaryIds(ids) => ids == UnknownIds(report.summaries, requested) && ids != []
        case UnknownMatrixIndexes(_) => error in RowErrors(report.rows, expected)
        case MissingMatrix(missing) => missing == expected - Represented(report.rows, expected) && missing != {}
  {
    var report, expected := artifact.report.value, Upto(|requested|);
    var unsummarised := expected - SummarisedIndexes(report.summaries);
    var unknown := UnknownIds(report.summaries, requested);
    var unrepresented := expected - Represented(report.rows, expected);
    InFive(If(artifact.paperIds != requested, PaperIdsDiffer), If(report.producer != ComparisonAnalyst, WrongProducer),
           If(unsummarised != {}, MissingSummary(unsummarised)), If(unknown != [], UnknownSummaryIds(unknown)),
           RowErrors(report.rows, expected), If(unrepresented != {}, MissingMatrix(unrepresented)), error);
    RowErrorIff(report.rows, expected, error);
    InIf(artifact.paperIds != requested, PaperIdsDiffer, error);
    InIf(report.producer != ComparisonAnalyst, WrongProducer, error);
    InIf(unsummarised != {}, MissingSummary(unsummarised), error);
    InIf(unknown != [], UnknownSummaryIds(unknown), error);
    InIf(unrepresented != {}, MissingMatrix(unrepresented), error);
  }

  /** The errors of the check are exactly the justified ones, the unknown ids in one list. */
  lemma {:induction false} ComplaintsRead(artifact: Artifact, requested: seq<string>, error: CheckError)
    ensures error in CheckErrors(artifact, requested) ==> Justified(artifact, requested, error)
    ensures Justified(artifact, requested, error) ==>
      exists e :: e in CheckErrors(artifact, requested) && (e == error || (e.UnknownSummaryIds? && error.UnknownSummaryIds?))
  {
    if artifact.report.Some? {
      var report := artifact.report.value;
      ErrorListed(artifact, requested, error);
      match error
      case MissingSummary(missing) => MissingReads(report, |requested|, missing);
      case MissingMatrix(missing) => UnrepresentedReads(report, |requested|, missing);
      case UnknownMatrixIndexes(_) => BeyondReads(report, |requested|, error);
      case UnknownSummaryIds(ids) =>
        UnknownReads(artifact, requested, ids);
        ErrorListed(artifact, requested, UnknownSummaryIds(UnknownIds(report.summaries, requested)));
      case _ =>
    }
  }

  lemma {:induction false} MissingReads(report: ComparisonReport, n: nat, missing: set<int>)
    ensures missing == Upto(n) - SummarisedIndexes(report.summaries)
      <==> forall i :: i in missing <==> 0 <= i < n && !Summarises(report, i)
  {
    forall i ensures i in SummarisedIndexes(report.summaries) <==> Summarises(report, i) { SummarisedIff(report, i); }
  }

  lemma {:induction false} UnrepresentedReads(report: ComparisonReport, n: nat, missing: set<int>)
    ensures missing == Upto(n) - Represented(report.rows, Upto(n))
      <==> forall i :: i in missing <==> 0 <= i < n && !Represents(report, i)
  {
    forall i ensures i in Represented(report.rows, Upto(n)) <==> i in Upto(n) && Represents(report, i) {
      RepresentedIff(report.rows, Upto(n), i);
    }
  }

  lemma {:induction false} BeyondReads(report: ComparisonReport, n: nat, error: CheckError)
    requires error.UnknownMatrixIndexes?
    ensures error in RowErrors(report.rows, Upto(n)) <==>
      error.indexes != {} && exists m :: 0 <= m < |report.rows| && forall i :: i in error.indexes <==> Beyond(report.rows[m], n, i)
  {
    RowErrorIff(report.rows, Upto(n), error);
    forall m | 0 <= m < |report.rows|
      ensures error.indexes == report.rows[m].cells.Keys - Upto(n) <==> forall i :: i in error.indexes <==> Beyond(report.rows[m], n, i)
    {
      var beyond := report.rows[m].cells.Keys - Upto(n);
      assert forall i :: i in beyond <==> Beyond(report.rows[m], n, i);
      if forall i :: i in error.indexes <==> Beyond(report.rows[m], n, i) {
        assert forall i :: i in error.indexes <==> i in beyond;
      }
    }
  }

  lemma {:induction false} UnknownReads(artifact: Artifact, requested: seq<string>, ids: seq<string>)
    requires artifact.report.Some?
    ensures var unknown := UnknownIds(artifact.report.value.summaries, requested);
      && (ids == unknown ==> forall id :: id in ids <==> Names(artifact.report.value, requested, id))
      && (Justified(artifact, requested, UnknownSummaryIds(ids)) ==> unknown != [])
  {
    var report := artifact.report.value;
    forall id ensures id in UnknownIds(report.summaries, requested) <==> Names(report, requested, id) {
      UnknownIff(report.summaries, requested, id);
    }
    if Justified(artifact, requested, UnknownSummaryIds(ids)) {
      assert ids[0] in ids;
    }
  }
}
