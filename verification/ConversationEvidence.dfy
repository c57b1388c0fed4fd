/** What the retrieval planner of a conversation finds (agents/retrieval_planner.py:370-434,
    services/retrieval_layer.py:72-254), in terms of the stored chunks and of the model's reply. */
module ConversationEvidence {
  import opened Wrappers
  import opened Text
  import opened Retrieval
  import opened Searching
  import opened Conversation
  import opened ConversationRuns

  /** A chunk of the session and of one of the papers that shares a token with the query. */
  predicate Relevant(q: Request, papers: seq<string>, query: string, chunk: PaperChunk) {
    chunk.sessionId == Some(q.sessionId) && chunk.paperId in papers && Tokens(query) * Tokens(chunk.text) != {}
  }

  predicate Finds(q: Request, papers: seq<string>, query: string)
    requires q.layer.Some?
  {
    exists i :: 0 <= i < |q.layer.value| && Relevant(q, papers, query, q.layer.value[i])
  }

  /** A result is a relevant stored chunk with its rank and score. */
  predicate Scored(q: Request, papers: seq<string>, query: string, r: ChunkSearchResult, rank: nat)
    requires q.layer.Some?
  {
    && r.rank == rank && r.chunk in q.layer.value && Relevant(q, papers, query, r.chunk)
    && r.score == Share(query, r.chunk.text)
  }

  /** The k best relevant chunks, best first. */
  ghost predicate Best(q: Request, papers: seq<string>, query: string, k: nat, rs: seq<ChunkSearchResult>)
    requires q.layer.Some?
  {
    && |rs| <= k
    && (forall i :: 0 <= i < |rs| ==> Scored(q, papers, query, rs[i], i + 1))
    && (forall i, j :: 0 <= i < j < |rs| ==> InOrder(rs[i], rs[j]))
    && (forall c :: c in q.layer.value && Relevant(q, papers, query, c) ==> Listed(rs, c) || (|rs| == k && NoneBelow(rs, Share(query, c.text))))
  }

  /** The bundle holds the k best relevant chunks, each with its citation. */
  ghost predicate HoldsBest(q: Request, papers: seq<string>, query: string, k: nat, e: EvidenceBundle)
    requires q.layer.Some?
  {
    && e.query == query && Best(q, papers, query, k, e.results) && |e.citations| == |e.results|
    && (forall i :: 0 <= i < |e.results| ==> CitesChunk(e.citations[i], e.results[i].chunk))
    && e.coverageNotes == if e.results == [] then ["no_matching_chunks"] else []
  }

  predicate CitesChunk(c: CitationRef, chunk: PaperChunk) {
    c.paperId == chunk.paperId && c.chunkId == chunk.id && c.location == chunk.location
  }

  /** A replanning reply that is not rejected. */
  predicate Replans(r: ReplanReply) {
    r.ReplanPayload? && r.searchQuery.Fine? && !IsBlank(r.searchQuery.value) && r.lists.Fine? && r.k.Fine? && r.k.value >= 1
  }

  function FirstSearch(q: Request, s: State): string
    requires s.resolution.Some?
  {
    Strip(q.userMessage) + q.sectionHints(s.persona, s.resolution.value.intent)
  }

  predicate Plannable(q: Request, s: State) {
    && !IsBlank(q.userMessage) && s.persona != Blank && s.resolution.Some? && IsQa(s.resolution.value.intent)
    && q.layer.Some? && s.referencedPaperIds != []
  }

  lemma {:induction false} SearchIsBest(q: Request, papers: seq<string>, query: string, k: nat)
    requires q.layer.Some? && papers != []
    ensures Best(q, papers, query, k, Search(q.layer.value, ChunkSearchQuery(query, Some(q.sessionId), papers, k, None)))
  {
    var cq := ChunkSearchQuery(query, Some(q.sessionId), papers, k, None);
    SearchReturnsBest(q.layer.value, cq);
    assert forall c :: Wanted(cq, c) <==> Relevant(q, papers, query, c);
  }

  /** One retrieval: the k best relevant chunks with their citations. */
  lemma {:induction false} RetrievedIsBest(q: Request, plan: EvidencePlan)
    requires q.layer.Some? && plan.paperIds != []
    ensures HoldsBest(q, plan.paperIds, plan.searchQuery, plan.k, Retrieve(q.layer.value, plan, q.sessionId))
  {
    SearchIsBest(q, plan.paperIds, plan.searchQuery, plan.k);
    AssembledHoldsBest(q, plan.paperIds, plan.searchQuery, plan.k,
                       Search(q.layer.value, ChunkSearchQuery(plan.searchQuery, Some(q.sessionId), plan.paperIds, plan.k, None)));
  }

  lemma {:induction false} AssembledHoldsBest(q: Request, papers: seq<string>, query: string, k: nat, rs: seq<ChunkSearchResult>)
    requires q.layer.Some? && Best(q, papers, query, k, rs)
    ensures HoldsBest(q, papers, query, k, AssembleEvidence(query, rs, k))
  {
    AssembledAll(query, rs, k);
  }

  lemma {:induction false} AssembledAll(query: string, rs: seq<ChunkSearchResult>, k: nat)
    requires |rs| <= k
    ensures var e := AssembleEvidence(query, rs, k);
      && e.query == query && e.results == rs && |e.citations| == |rs|
      && (forall i :: 0 <= i < |rs| ==> CitesChunk(e.citations[i], rs[i].chunk))
      && e.coverageNotes == if rs == [] then ["no_matching_chunks"] else []
  {
    var e := AssembleEvidence(query, rs, k);
    assert e.results == rs;
    forall i | 0 <= i < |rs| ensures CitesChunk(e.citations[i], rs[i].chunk) {
      assert e.citations[i] == ToCitation(rs[i]);
    }
  }

  /** The planner's step: it finds evidence whenever it can plan, with the first query if that
      finds anything or may not or cannot be replaced, and otherwise with the model's query. */
  lemma {:induction false} EvidenceOfStep(q: Request, r: Replies, n: nat)
    requires Run(q, r, n).node.Planner?
    ensures var s, e := Run(q, r, n).state, Run(q, r, n + 1).state.evidence; var papers := s.referencedPaperIds;
      && (e.Some? <==> Plannable(q, s))
      && (e.Some? ==>
            if Finds(q, papers, FirstSearch(q, s)) || q.plannerIterations <= 1 || !Replans(r.replan)
            then HoldsBest(q, papers, FirstSearch(q, s), 8, e.value)
            else HoldsBest(q, papers, Strip(r.replan.searchQuery.value), r.replan.k.value, e.value))
  {
    var c := Run(q, r, n);
    RunKeepsInv(q, r, n);
    PlannerFinds(q, c.state, r.replan);
    assert Run(q, r, n + 1) == Step(c, q, r);
  }

  lemma {:induction false} PlannerFinds(q: Request, s: State, r: ReplanReply)
    requires s.evidence.None? && s.resolution.Some? && s.resolution.value.referencedPaperIds == s.referencedPaperIds
    ensures var e := RetrievalPlanner(s, q, r).evidence; var papers := s.referencedPaperIds;
      && (e.Some? <==> Plannable(q, s))
      && (e.Some? ==>
            if Finds(q, papers, FirstSearch(q, s)) || q.plannerIterations <= 1 || !Replans(r)
            then HoldsBest(q, papers, FirstSearch(q, s), 8, e.value)
            else HoldsBest(q, papers, Strip(r.searchQuery.value), r.k.value, e.value))
  {
    PlannerChooses(q, s, r);
    if Plannable(q, s) {
      var papers, first := s.referencedPaperIds, FirstSearch(q, s);
      var found := FirstFound(q, s);
      RetrievedIsBest(q, EvidencePlan(papers, first, 8));
      EmptyIff(q, papers, first, 8, found);
      if Replans(r) { RetrievedIsBest(q, EvidencePlan(papers, Strip(r.searchQuery.value), r.k.value)); }
    }
  }

  function FirstFound(q: Request, s: State): EvidenceBundle
    requires Plannable(q, s)
  {
    Retrieve(q.layer.value, EvidencePlan(s.referencedPaperIds, FirstSearch(q, s), 8), q.sessionId)
  }

  lemma {:induction false} PlannerChooses(q: Request, s: State, r: ReplanReply)
    requires s.evidence.None? && s.resolution.Some? && s.resolution.value.referencedPaperIds == s.referencedPaperIds
    ensures RetrievalPlanner(s, q, r).evidence
      == if !Plannable(q, s) then None
         else if FirstFound(q, s).results != [] || q.plannerIterations <= 1 || !Replans(r) then Some(FirstFound(q, s))
         else Some(Retrieve(q.layer.value, EvidencePlan(s.referencedPaperIds, Strip(r.searchQuery.value), r.k.value), q.sessionId))
  {
    if Plannable(q, s) {
      assert InitialPlan(q, q.sectionHints(s.persona, s.resolution.value.intent), s.referencedPaperIds)
        == EvidencePlan(s.referencedPaperIds, FirstSearch(q, s), 8);
    }
  }

  /** So a plan ends without evidence exactly if no relevant chunk is stored for the first query,
      and none for the model's, or the policy or the reply does not allow one. */
  lemma {:induction false} NothingFoundIff(q: Request, r: Replies, n: nat)
    requires Run(q, r, n).node.Planner? && Run(q, r, n + 1).state.evidence.Some?
    ensures var s, e := Run(q, r, n).state, Run(q, r, n + 1).state.evidence.value; var papers := s.referencedPaperIds;
      && Plannable(q, s)
      && (e.results == [] <==>
            && !Finds(q, papers, FirstSearch(q, s))
            && (q.plannerIterations <= 1 || !Replans(r.replan) || !Finds(q, papers, Strip(r.replan.searchQuery.value))))
  {
    var s, e := Run(q, r, n).state, Run(q, r, n + 1).state.evidence.value;
    EvidenceOfStep(q, r, n);
    EmptyIff(q, s.referencedPaperIds, FirstSearch(q, s), 8, e);
    if Replans(r.replan) { EmptyIff(q, s.referencedPaperIds, Strip(r.replan.searchQuery.value), r.replan.k.value, e); }
  }

  lemma {:induction false} EmptyIff(q: Request, papers: seq<string>, query: string, k: nat, e: EvidenceBundle)
    requires q.layer.Some? && k >= 1
    ensures HoldsBest(q, papers, query, k, e) ==> (e.results == [] <==> !Finds(q, papers, query))
  {
    if HoldsBest(q, papers, query, k, e) {
      if Finds(q, papers, query) {
        var i :| 0 <= i < |q.layer.value| && Relevant(q, papers, query, q.layer.value[i]);
        assert q.layer.value[i] in q.layer.value;
      }
      if e.results != [] {
        assert Scored(q, papers, query, e.results[0], 1);
        var i :| 0 <= i < |q.layer.value| && q.layer.value[i] == e.results[0].chunk;
      }
    }
  }
}
