/** What is kept of an analysis run for later requests (api/chat_handler.py:351-392, 697-834,
    storage/repositories.py:1952-1994): the workspaces of its completed papers and its
    comparison; and which later comparisons (services/paperintel_service.py:1149-1228) they serve. */
module Workspaces {
  import opened Wrappers
  import opened Basics
  import opened Schemas
  import opened Text
  import opened AnalysisGraph
  import opened AnalysisRuns
  import opened AnalysisTheorems
  import opened AnalysisChunks
  import opened AnalysisComparison
  import opened Analyst

  // ----- from slots to workspaces -----

  /** `_paper_id_for_slot` */
  function WorkspaceId(metadata: Option<PaperMetadata>, url: string): Option<string> {
    if HasArxivId(metadata) then metadata.value.arxivId
    else if url != "" then Some(url)
    else None
  }

  function StoredStage(stage: Stage): WorkspaceStage {
    match stage
    case Unset => OtherStage("completed")
    case AtIngestion => OtherStage("ingestion")
    case AtExtraction => OtherStage("extraction")
    case AtBenchmark => OtherStage("benchmark")
    case AtReadiness => OtherStage("readiness")
    case AtReport => OtherStage("report")
    case AtReportFinalize => OtherStage("report_finalize")
    case AtChunkAndIndex => OtherStage("chunk_and_index")
    case AtPaperFailureFinalize => PaperFailureStage
    case ComparisonCompleted => OtherStage("comparison_completed")
    case TopicSelection => OtherStage("topic_selection")
    case Failed => FailedStage
    case Completed => OtherStage("completed")
  }

  function Dumped(bs: seq<BenchmarkResult>): (r: seq<Option<BenchmarkResult>>)
    ensures |r| == |bs|
    ensures forall i :: 0 <= i < |r| ==> r[i] == Some(bs[i])
  {
    seq(|bs|, i requires 0 <= i < |bs| => Some(bs[i]))
  }

  function WorkspaceOf(slot: PaperSlot, id: string, stage: WorkspaceStage): Workspace {
    Workspace(id, if slot.metadata.Some? then Some(slot.metadata.value.title) else None, slot.inputUrl, stage,
              slot.methodExtraction, Dumped(slot.benchmarks), slot.readiness, slot.report, slot.markdown)
  }

  /** The workspaces of the completed slots that have an id. */
  function WorkspacesOf(papers: seq<PaperSlot>, stage: WorkspaceStage): seq<Workspace> {
    if papers == [] then []
    else
      var slot := papers[|papers| - 1];
      var id := WorkspaceId(slot.metadata, slot.inputUrl);
      WorkspacesOf(papers[..|papers| - 1], stage)
        + if slot.completed && id.Some? && id.value != "" then [WorkspaceOf(slot, id.value, stage)] else []
  }

  /** `_workspaces_from_analysis_raw` */
  method WorkspacesFromAnalysis(s: State) returns (workspaces: seq<Workspace>)
    ensures workspaces == WorkspacesOf(s.papers, StoredStage(s.stage))
  {
    var stage := StoredStage(s.stage);
    workspaces := [];
    for n := 0 to |s.papers|
      invariant workspaces == WorkspacesOf(s.papers[..n], stage)
    {
      assert s.papers[..n + 1][..n] == s.papers[..n];
      var slot := s.papers[n];
      if !slot.completed {
        continue;
      }
      var id := WorkspaceId(slot.metadata, slot.inputUrl);
      if id == None || id.value == "" {
        continue;
      }
      workspaces := workspaces + [WorkspaceOf(slot, id.value, stage)];
    }
    assert s.papers[..|s.papers|] == s.papers;
  }

  // ----- the store -----

  predicate DistinctPapers(stored: seq<Workspace>) {
    forall i, j :: 0 <= i < j < |stored| ==> stored[i].paperId != stored[j].paperId
  }

  function Position(stored: seq<Workspace>, id: string): (r: Option<nat>)
    ensures r.Some? ==> r.value < |stored| && stored[r.value].paperId == id
    ensures r.None? ==> forall i :: 0 <= i < |stored| ==> stored[i].paperId != id
  {
    if stored == [] then None
    else if stored[0].paperId == id then Some(0)
    else
      var rest := Position(stored[1..], id);
      if rest.None? then None else Some(rest.value + 1)
  }

  /** The row with the id takes over all fields, or a new row is added. */
  function Upserted(stored: seq<Workspace>, w: Workspace): (r: seq<Workspace>)
    requires DistinctPapers(stored)
    ensures DistinctPapers(r)
  {
    var at := Position(stored, w.paperId);
    if at.Some? then stored[at.value := w] else stored + [w]
  }

  function UpsertedAll(stored: seq<Workspace>, added: seq<Workspace>): (r: seq<Workspace>)
    requires DistinctPapers(stored)
    ensures DistinctPapers(r)
  {
    if added == [] then stored
    else Upserted(UpsertedAll(stored, added[..|added| - 1]), added[|added| - 1])
  }

  datatype StoredComparison = StoredComparison(paperIds: seq<string>, markdown: string)

  /** A run that failed as a whole, or in its only paper, leaves nothing behind. */
  predicate AnalysisFailed(s: State) { s.scratch.failure.paperFailed || s.stage.Failed? }

  function KeptWorkspaces(stored: seq<Workspace>, s: State): seq<Workspace>
    requires DistinctPapers(stored)
  {
    if AnalysisFailed(s) then stored else UpsertedAll(stored, WorkspacesOf(s.papers, StoredStage(s.stage)))
  }

  function KeptComparison(s: State): Option<StoredComparison> {
    var ids := IdsOf(WorkspacesOf(s.papers, StoredStage(s.stage)));
    if AnalysisFailed(s) || !Truthy(s.comparison) || |ids| < 2 then None
    else Some(StoredComparison(Dedup(ids), s.comparison.value))
  }

  class ArtifactRepository {
    var workspaces: seq<Workspace>
    var comparisons: seq<StoredComparison>

    ghost predicate Valid() reads this { DistinctPapers(workspaces) }

    constructor ()
      ensures Valid() && workspaces == [] && comparisons == []
    {
      workspaces, comparisons := [], [];
    }

    method UpsertWorkspace(w: Workspace)
      requires Valid()
      modifies this`workspaces
      ensures Valid() && workspaces == Upserted(old(workspaces), w)
    {
      var at := Position(workspaces, w.paperId);
      workspaces := if at.Some? then workspaces[at.value := w] else workspaces + [w];
    }

    /** `_persist_analysis_artifacts` */
    method PersistAnalysis(s: State)
      requires Valid()
      modifies this
      ensures Valid() && workspaces == KeptWorkspaces(old(workspaces), s)
      ensures comparisons == old(comparisons) + (if KeptComparison(s).Some? then [KeptComparison(s).value] else [])
    {
      if AnalysisFailed(s) {
        return;
      }
      var added := WorkspacesFromAnalysis(s);
      for n := 0 to |added|
        invariant Valid() && workspaces == UpsertedAll(old(workspaces), added[..n])
        invariant comparisons == old(comparisons)
      {
        assert added[..n + 1][..n] == added[..n];
        UpsertWorkspace(added[n]);
      }
      assert added[..|added|] == added;
      if Truthy(s.comparison) && |added| >= 2 {
        comparisons := comparisons + [StoredComparison(Dedup(IdsOf(added)), s.comparison.value)];
      }
    }
  }

  // ----- what is found afterwards -----

  lemma {:induction false} FindAt(stored: seq<Workspace>, k: nat)
    requires DistinctPapers(stored) && k < |stored|
    ensures FindWorkspace(stored, stored[k].paperId) == Some(stored[k])
  {
    if k < |stored| - 1 { FindAt(stored[..|stored| - 1], k); }
  }

  lemma {:induction false} FindUpserted(stored: seq<Workspace>, w: Workspace, id: string)
    requires DistinctPapers(stored)
    ensures FindWorkspace(Upserted(stored, w), id) == if id == w.paperId then Some(w) else FindWorkspace(stored, id)
  {
    var after := Upserted(stored, w);
    var at := Position(stored, w.paperId);
    if id == w.paperId {
      FindAt(after, if at.Some? then at.value else |stored|);
    } else {
      var k := Position(stored, id);
      FoundIsStored(stored, id);
      FoundIsStored(after, id);
      if k.Some? {
        FindAt(stored, k.value);
        assert after[k.value] == stored[k.value];
        FindAt(after, k.value);
      }
    }
  }

  /** Every id that was added is found with what was added last under it. */
  lemma {:induction false} FindUpsertedAll(stored: seq<Workspace>, added: seq<Workspace>, id: string)
    requires DistinctPapers(stored)
    ensures FindWorkspace(UpsertedAll(stored, added), id)
      == if FindWorkspace(added, id).Some? then FindWorkspace(added, id) else FindWorkspace(stored, id)
  {
    if added != [] {
      var n := |added| - 1;
      FindUpsertedAll(stored, added[..n], id);
      FindUpserted(UpsertedAll(stored, added[..n]), added[n], id);
    }
  }

  lemma {:induction false} StagesOfWorkspaces(papers: seq<PaperSlot>, stage: WorkspaceStage)
    ensures forall w :: w in WorkspacesOf(papers, stage) ==> w.stage == stage
  {
    if papers != [] { StagesOfWorkspaces(papers[..|papers| - 1], stage); }
  }

  // ----- batches -----

  /** A batch stores the workspaces of its completed papers if all its URLs are well formed, and
      nothing otherwise, not even those of the papers completed before the malformed one. */
  lemma {:induction false} BatchKeepsIff(urls: seq<string>, oracle: nat -> Reply, n: nat)
    requires |urls| >= 2 && Run(Urls(urls), oracle, n).node.End?
    ensures AnalysisFailed(Run(Urls(urls), oracle, n).state) <==> !AllGood(urls)
    ensures AllGood(urls) ==> Run(Urls(urls), oracle, n).state.stage == ComparisonCompleted
  {
    EndStates(Urls(urls), oracle, n);
    BatchSurvivesFailures(urls, oracle, n);
    BatchComparedIff(urls, oracle, n);
  }

  /** So papers completed by a batch can be compared afterwards, if they could not before, exactly
      when every URL of the batch was well formed. */
  lemma {:induction false} ServedAfterBatchIff(
    urls: seq<string>, oracle: nat -> Reply, n: nat, stored: seq<Workspace>, requested: seq<string>)
    requires |urls| >= 2 && Run(Urls(urls), oracle, n).node.End? && DistinctPapers(stored)
    requires |Dedup(requested)| >= 2 && exists id :: id in requested && !Ready(stored, id)
    requires forall id :: id in requested ==> id in IdsOf(WorkspacesOf(Run(Urls(urls), oracle, n).state.papers, FailedStage))
    ensures LoadRequested(KeptWorkspaces(stored, Run(Urls(urls), oracle, n).state), requested).Workspaces? <==> AllGood(urls)
  {
    var s := Run(Urls(urls), oracle, n).state;
    BatchKeepsIff(urls, oracle, n);
    ServedIff(KeptWorkspaces(stored, s), requested);
    if AllGood(urls) {
      forall id | id in requested ensures Ready(KeptWorkspaces(stored, s), id) { KeptIsReady(stored, s, id); }
    }
  }

  lemma {:induction false} SameIds(papers: seq<PaperSlot>, a: WorkspaceStage, b: WorkspaceStage)
    ensures IdsOf(WorkspacesOf(papers, a)) == IdsOf(WorkspacesOf(papers, b))
  {
    if papers != [] { SameIds(papers[..|papers| - 1], a, b); }
  }

  lemma {:induction false} KeptIsReady(stored: seq<Workspace>, s: State, id: string)
    requires DistinctPapers(stored) && !AnalysisFailed(s) && s.stage != AtPaperFailureFinalize
    requires id in IdsOf(WorkspacesOf(s.papers, FailedStage))
    ensures Ready(KeptWorkspaces(stored, s), id)
  {
    var added := WorkspacesOf(s.papers, StoredStage(s.stage));
    SameIds(s.papers, FailedStage, StoredStage(s.stage));
    var k :| 0 <= k < |added| && IdsOf(added)[k] == id;
    assert added[k] in added;
    FoundIsStored(added, id);
    FindUpsertedAll(stored, added, id);
    StagesOfWorkspaces(s.papers, StoredStage(s.stage));
  }

  /** The comparison of a batch is kept exactly if the batch was compared and several of its papers
      were completed: what is kept, unlike the run, compares completed papers only when there are. */
  lemma {:induction false} KeptComparisonIff(urls: seq<string>, oracle: nat -> Reply, n: nat)
    requires |urls| >= 2 && Run(Urls(urls), oracle, n).node.End?
    ensures var s := Run(Urls(urls), oracle, n).state;
      KeptComparison(s).Some? <==> AllGood(urls) && Truthy(s.comparison) && SeveralCompleted(s.papers)
  {
    var c := Run(Urls(urls), oracle, n);
    BatchKeepsIff(urls, oracle, n);
    RunKeepsInv(Urls(urls), oracle, n);
    SlotsHaveUrls(urls, oracle, c);
    CountOfWorkspaces(c.state.papers, StoredStage(c.state.stage));
  }

  lemma {:induction false} SlotsHaveUrls(urls: seq<string>, oracle: nat -> Reply, c: Config)
    requires |urls| >= 2 && Inv(Urls(urls), oracle, c) && c.node.End?
    ensures forall k :: 0 <= k < |c.state.papers| ==> c.state.papers[k].inputUrl != ""
  {
    FirstBadUrl(urls, oracle, c);
    forall k | 0 <= k < |c.state.papers| ensures c.state.papers[k].inputUrl != "" {
      SlotsMatch(Urls(urls), oracle, c);
      assert SlotFromPass(Urls(urls), k, oracle(c.slotPass[k]), c.state.papers[k]);
      assert c.state.papers[k].(errors := []).inputUrl == urls[k];
    }
  }

  function Completed(papers: seq<PaperSlot>): nat {
    if papers == [] then 0
    else Completed(papers[..|papers| - 1]) + if papers[|papers| - 1].completed then 1 else 0
  }

  lemma {:induction false} CountOfWorkspaces(papers: seq<PaperSlot>, stage: WorkspaceStage)
    requires forall k :: 0 <= k < |papers| ==> papers[k].inputUrl != ""
    ensures |WorkspacesOf(papers, stage)| == Completed(papers)
    ensures Completed(papers) >= 1 <==> exists i :: 0 <= i < |papers| && papers[i].completed
    ensures Completed(papers) >= 2 <==> SeveralCompleted(papers)
  {
    if papers != [] {
      var n := |papers| - 1;
      CountOfWorkspaces(papers[..n], stage);
      CompletedNext(papers, n);
    }
  }

  lemma {:induction false} CompletedNext(papers: seq<PaperSlot>, n: nat)
    requires n + 1 == |papers|
    ensures (exists i :: 0 <= i < |papers| && papers[i].completed)
      <==> papers[n].completed || exists i :: 0 <= i < n && papers[..n][i].completed
    ensures SeveralCompleted(papers)
      <==> SeveralCompleted(papers[..n]) || (papers[n].completed && exists i :: 0 <= i < n && papers[..n][i].completed)
  {
    assert forall i :: 0 <= i < n ==> papers[..n][i] == papers[i];
  }

  // ----- what a workspace keeps -----

  lemma {:induction false} ValidDumped(bs: seq<BenchmarkResult>)
    ensures Valid(Dumped(bs)) == bs
  {
    if bs != [] {
      assert Dumped(bs)[1..] == Dumped(bs[1..]);
      ValidDumped(bs[1..]);
    }
  }

  /** Round trip: a later comparison sees what the run recorded of the paper. */
  lemma {:induction false} WorkspaceRoundTrip(slot: PaperSlot, id: string, stage: WorkspaceStage, index: int)
    ensures var back := SlotOf(WorkspaceOf(slot, id, stage), index);
      && back.benchmarks == slot.benchmarks && back.methodExtraction == slot.methodExtraction
      && back.readiness == slot.readiness && back.report == slot.report && back.markdown == slot.markdown
      && back.inputUrl == slot.inputUrl && (back.completed <==> stage.OtherStage?)
  {
    ValidDumped(slot.benchmarks);
  }

  // ----- the two ids of a paper -----

  predicate HexDigits(s: string) { forall i :: 0 <= i < |s| ==> '0' <= s[i] <= '9' || 'a' <= s[i] <= 'f' }

  /** The id under which a paper becomes active, that of its chunks, is the id of its workspace
      exactly when the paper has an arXiv id, written without a version. */
  lemma {:induction false} ActiveIdIsWorkspaceIdIff(
    metadata: Option<PaperMetadata>, url: string, index: int, versionless: string -> string, digest: string -> string)
    requires GoodUrl(url) && forall s :: HexDigits(digest(s))
    ensures Some(PaperId(metadata, url, index, versionless, digest)) == WorkspaceId(metadata, url)
      <==> HasArxivId(metadata) && versionless(metadata.value.arxivId.value) == metadata.value.arxivId.value
  {
    if !HasArxivId(metadata) {
      var id := "url:" + digest(Strip(url));
      var k: nat := UrlHasH(url);
      if id == url { NoHInUrlId(digest(Strip(url)), k); }
    }
  }

  lemma {:induction false} UrlHasH(url: string) returns (k: nat)
    requires LooksLikeUrl(url)
    ensures k < |url| && url[k] == 'h'
  {
    if Contains(url, "http://") {
      k :| 0 <= k <= |url| && MatchesAt(url, "http://", k);
      assert url[k] == url[k..k + |"http://"|][0];
    } else {
      k :| 0 <= k <= |url| && MatchesAt(url, "https://", k);
      assert url[k] == url[k..k + |"https://"|][0];
    }
  }

  lemma {:induction false} NoHInUrlId(hex: string, k: nat)
    requires HexDigits(hex) && k < |"url:" + hex|
    ensures ("url:" + hex)[k] != 'h'
  {
    if k >= 4 { assert ("url:" + hex)[k] == hex[k - 4]; }
  }
}
