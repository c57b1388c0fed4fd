/** What an analysis run leaves behind (api/chat_handler.py:351-392, 697-834,
    storage/repositories.py:1952-1994), in terms of its slots: one workspace for each completed
    paper, and the comparison of them. */
module KeptReading {
  import opened Wrappers
  import opened Basics
  import opened Schemas
  import opened AnalysisGraph
  import opened AnalysisTheorems
  import opened Analyst
  import opened Workspaces

  /** The arXiv id of a completed paper, or else its URL; none when it has neither. */
  function KeptId(slot: PaperSlot): string {
    if !slot.completed then ""
    else match slot.metadata
      case None => slot.inputUrl
      case Some(m) => if m.arxivId == None || m.arxivId == Some("") then slot.inputUrl else m.arxivId.value
  }

  /** Slot k is the last that is kept under the id. */
  ghost predicate LastKept(papers: seq<PaperSlot>, id: string, k: int) {
    0 <= k < |papers| && KeptId(papers[k]) == id && forall j :: k < j < |papers| ==> KeptId(papers[j]) != id
  }

  /** The workspace has what was recorded of the paper, and the stage that the run ended in. */
  predicate Keeps(w: Workspace, slot: PaperSlot, stage: string) {
    && w.paperId == KeptId(slot) && w.sourceUrl == slot.inputUrl && w.stage == OtherStage(stage)
    && w.title == (if slot.metadata.Some? then Some(slot.metadata.value.title) else None)
    && w.extraction == slot.methodExtraction && w.readiness == slot.readiness && w.report == slot.report
    && w.markdown == slot.markdown
    && |w.benchmarks| == |slot.benchmarks|
    && forall i :: 0 <= i < |slot.benchmarks| ==> w.benchmarks[i] == Some(slot.benchmarks[i])
  }

  function KeptIds(papers: seq<PaperSlot>): seq<string> {
    if papers == [] then []
    else
      var id := KeptId(papers[|papers| - 1]);
      KeptIds(papers[..|papers| - 1]) + if id != "" then [id] else []
  }

  lemma {:induction false} IdIff(slot: PaperSlot)
    ensures var id := WorkspaceId(slot.metadata, slot.inputUrl);
      if slot.completed && id.Some? && id.value != "" then KeptId(slot) == id.value else KeptId(slot) == ""
  {}

  lemma {:induction false} MadeInOrder(papers: seq<PaperSlot>, stage: string)
    ensures IdsOf(WorkspacesOf(papers, OtherStage(stage))) == KeptIds(papers)
  {
    if papers != [] {
      MadeInOrder(papers[..|papers| - 1], stage);
      IdIff(papers[|papers| - 1]);
    }
  }

  lemma {:induction false} FoundSnoc(papers: seq<PaperSlot>, stage: WorkspaceStage, id: string)
    requires papers != [] && id != ""
    ensures var n := |papers| - 1;
      FindWorkspace(WorkspacesOf(papers, stage), id)
        == if KeptId(papers[n]) == id then Some(WorkspaceOf(papers[n], id, stage))
           else FindWorkspace(WorkspacesOf(papers[..n], stage), id)
  {
    var n := |papers| - 1;
    var before := WorkspacesOf(papers[..n], stage);
    IdIff(papers[n]);
    if KeptId(papers[n]) != "" {
      var w := WorkspaceOf(papers[n], KeptId(papers[n]), stage);
      assert WorkspacesOf(papers, stage) == before + [w] && (before + [w])[..|before|] == before;
    } else {
      assert before + [] == before;
    }
  }

  lemma {:induction false} MadeKeeps(slot: PaperSlot, stage: string)
    ensures Keeps(WorkspaceOf(slot, KeptId(slot), OtherStage(stage)), slot, stage)
  {}

  /** The workspace found under an id is the one of the last slot kept under it. */
  lemma {:induction false} FoundKeeps(papers: seq<PaperSlot>, stage: string, id: string)
    requires id != ""
    ensures FindWorkspace(WorkspacesOf(papers, OtherStage(stage)), id).Some? <==> exists k :: LastKept(papers, id, k)
    ensures FindWorkspace(WorkspacesOf(papers, OtherStage(stage)), id).Some? ==>
      KeepsLast(FindWorkspace(WorkspacesOf(papers, OtherStage(stage)), id).value, papers, id, stage)
  {
    if papers != [] {
      var n := |papers| - 1;
      FoundSnoc(papers, OtherStage(stage), id);
      LastKeptSnoc(papers, id);
      if KeptId(papers[n]) == id {
        MadeKeeps(papers[n], stage);
        assert LastKept(papers, id, n);
      } else {
        FoundKeeps(papers[..n], stage, id);
        assert forall k :: LastKept(papers, id, k) <==> LastKept(papers[..n], id, k);
        assert forall k :: 0 <= k < n ==> papers[..n][k] == papers[k];
      }
    }
  }

  ghost predicate KeepsLast(w: Workspace, papers: seq<PaperSlot>, id: string, stage: string) {
    exists k :: LastKept(papers, id, k) && Keeps(w, papers[k], stage)
  }

  lemma {:induction false} LastKeptSnoc(papers: seq<PaperSlot>, id: string)
    requires papers != []
    ensures var n := |papers| - 1;
      forall k :: LastKept(papers, id, k) <==>
        if KeptId(papers[n]) == id then k == n else LastKept(papers[..n], id, k)
  {
    var n := |papers| - 1;
    assert forall j :: 0 <= j < n ==> papers[..n][j] == papers[j];
    forall k
      ensures LastKept(papers, id, k) <==> if KeptId(papers[n]) == id then k == n else LastKept(papers[..n], id, k)
    {
      if LastKept(papers, id, k) && k < n { assert KeptId(papers[n]) != id; }
    }
  }

  function LastStage(s: State): string { if |s.papers| >= 2 then "comparison_completed" else "chunk_and_index" }

  /** A run given up leaves everything as it was. Any other adds, in place of what was stored under
      the same ids, what it recorded of its completed papers, and their comparison if it made one
      that is not empty and two of them are kept. */
  lemma {:induction false} RunKeeps(q: Request, oracle: nat -> Reply, n: nat, stored: seq<Workspace>, id: string)
    requires Run(q, oracle, n).node.End? && DistinctPapers(stored) && id != ""
    ensures var c := Run(q, oracle, n);
      var kept := FindWorkspace(KeptWorkspaces(stored, c.state), id);
      if c.errored then KeptWorkspaces(stored, c.state) == stored && KeptComparison(c.state) == None
      else
        && (if exists k :: LastKept(c.state.papers, id, k)
            then kept.Some? && KeepsLast(kept.value, c.state.papers, id, LastStage(c.state))
            else kept == FindWorkspace(stored, id))
        && KeptComparison(c.state)
           == if |KeptIds(c.state.papers)| >= 2 && oracle(c.pass).comparison != ""
              then Some(StoredComparison(Dedup(KeptIds(c.state.papers)), oracle(c.pass).comparison)) else None
  {
    var c := Run(q, oracle, n);
    EndStates(q, oracle, n);
    if !c.errored {
      KeptBy(c.state, stored, id, LastStage(c.state));
      KeptIdsBound(c.state.papers);
    }
  }

  lemma {:induction false} KeptIdsBound(papers: seq<PaperSlot>)
    ensures |KeptIds(papers)| <= |papers|
  {
    if papers != [] { KeptIdsBound(papers[..|papers| - 1]); }
  }

  lemma {:induction false} KeptBy(s: State, stored: seq<Workspace>, id: string, stage: string)
    requires DistinctPapers(stored) && id != "" && !AnalysisFailed(s) && StoredStage(s.stage) == OtherStage(stage)
    ensures var kept := FindWorkspace(KeptWorkspaces(stored, s), id);
      if exists k :: LastKept(s.papers, id, k)
      then kept.Some? && KeepsLast(kept.value, s.papers, id, stage)
      else kept == FindWorkspace(stored, id)
    ensures KeptComparison(s)
      == if |KeptIds(s.papers)| >= 2 && Truthy(s.comparison)
         then Some(StoredComparison(Dedup(KeptIds(s.papers)), s.comparison.value)) else None
  {
    FoundKeeps(s.papers, stage, id);
    FindUpsertedAll(stored, WorkspacesOf(s.papers, OtherStage(stage)), id);
    MadeInOrder(s.papers, stage);
  }
}
