/** What holds of every run of the conversation graph. */
module ConversationRuns {
  import opened Wrappers
  import opened Text
  import opened Retrieval
  import opened Conversation

  // ----- grounding -----

  function ActiveIds(q: Request): seq<string> {
    if q.session.Some? then q.session.value.activePaperIds else []
  }

  /** A stored chunk of one of the session's active papers. */
  ghost predicate Known(q: Request, chunk: PaperChunk) {
    q.layer.Some? && chunk in q.layer.value && chunk.paperId in ActiveIds(q)
  }

  ghost predicate GroundedBundle(q: Request, e: EvidenceBundle) {
    && (forall i :: 0 <= i < |e.results| ==> Known(q, e.results[i].chunk))
    && |e.citations| == |e.results|
    && (forall i :: 0 <= i < |e.results| ==> e.citations[i] == ToCitation(e.results[i]))
  }

  /** c cites chunk i of the bundle. */
  predicate Cites(e: EvidenceBundle, c: CitationRef, i: int) {
    0 <= i < |e.results| && c == ToCitation(e.results[i])
  }

  /** c cites some chunk of the bundle. */
  ghost predicate CitesSome(e: EvidenceBundle, c: CitationRef) {
    exists i :: Cites(e, c, i)
  }

  /** Every entry of a citation map is filed under its chunk and cites a chunk of the bundle. */
  ghost predicate SoundMap(e: EvidenceBundle, m: map<string, CitationRef>) {
    forall id :: id in m ==> m[id].chunkId == id && CitesSome(e, m[id])
  }

  /** c names a retrieved chunk whose paper is one of the session's active papers. */
  ghost predicate GroundedCitation(q: Request, e: EvidenceBundle, c: CitationRef) {
    exists i :: Cites(e, c, i) && Known(q, e.results[i].chunk)
  }

  ghost predicate GroundedCitations(q: Request, e: EvidenceBundle, cs: seq<CitationRef>) {
    forall k :: 0 <= k < |cs| ==> GroundedCitation(q, e, cs[k])
  }

  ghost predicate GroundedDraft(q: Request, e: Option<EvidenceBundle>, d: AnswerDraft) {
    d.citations == [] || (e.Some? && GroundedCitations(q, e.value, d.citations))
  }

  /** Retrieval for papers among the active ones yields a grounded bundle. */
  lemma {:induction false} RetrieveIsGrounded(q: Request, plan: EvidencePlan)
    requires q.layer.Some? && plan.paperIds != [] && forall p :: p in plan.paperIds ==> p in ActiveIds(q)
    ensures GroundedBundle(q, Retrieve(q.layer.value, plan, q.sessionId))
  {
    var query := ChunkSearchQuery(plan.searchQuery, Some(q.sessionId), plan.paperIds, plan.k, None);
    var rs := Search(q.layer.value, query);
    SearchIsTopK(q.layer.value, query);
    forall i | 0 <= i < |rs| ensures Known(q, rs[i].chunk) {
      assert Matches(query, rs[i].chunk);
    }
  }

  lemma {:induction false} CitationMapCites(e: EvidenceBundle, n: nat)
    requires n <= |e.citations| == |e.results|
    requires forall i :: 0 <= i < |e.results| ==> e.citations[i] == ToCitation(e.results[i])
    ensures SoundMap(e, CitationMap(e.citations[..n]))
  {
    if n > 0 {
      CitationMapCites(e, n - 1);
      assert e.citations[..n][..n - 1] == e.citations[..n - 1];
      assert Cites(e, e.citations[n - 1], n - 1);
    }
  }

  lemma {:induction false} DefaultsCite(e: EvidenceBundle, n: nat)
    requires n <= |e.results| == |e.citations|
    requires forall i :: 0 <= i < |e.results| ==> e.citations[i] == ToCitation(e.results[i])
    ensures SoundMap(e, WithDefaults(CitationMap(e.citations), e.results[..n]))
  {
    if n == 0 {
      CitationMapCites(e, |e.citations|);
      assert e.citations[..|e.citations|] == e.citations;
    } else {
      DefaultsCite(e, n - 1);
      assert e.results[..n][..n - 1] == e.results[..n - 1];
      assert Cites(e, ToCitation(e.results[n - 1]), n - 1);
    }
  }

  lemma {:induction false} NormalizedAnswerIsGrounded(q: Request, r: AnswerReply, e: EvidenceBundle, id: nat, iteration: nat)
    requires GroundedBundle(q, e)
    ensures var d := NormalizeAnswer(r, e, id, iteration);
      d.Some? ==> GroundedDraft(q, Some(e), d.value) && d.value.id == id && d.value.repairIteration == iteration
  {
    var d := NormalizeAnswer(r, e, id, iteration);
    if d.Some? {
      DefaultsCite(e, |e.results|);
      assert e.results[..|e.results|] == e.results;
      forall k | 0 <= k < |d.value.citations| ensures GroundedCitation(q, e, d.value.citations[k]) {
        var id := r.chunkIds.value[k];
        assert CitesSome(e, BundleMap(e)[id]);
        var i :| Cites(e, BundleMap(e)[id], i);
        assert Cites(e, d.value.citations[k], i) && Known(q, e.results[i].chunk);
      }
    }
  }

  // ----- the invariant -----

  ghost predicate Grounded(q: Request, s: State) {
    && (s.evidence.Some? ==> GroundedBundle(q, s.evidence.value))
    && (s.answer.Some? ==> GroundedDraft(q, s.evidence, s.answer.value))
  }

  /** A draft the critic still objects to has used up its repairs and is marked down. */
  predicate Settled(s: State) {
    s.answer.Some? && s.review.Some? && s.review.value.reviewedAnswerId == s.answer.value.id
      && s.review.value.needsRepair ==>
      && s.answer.value.repairIteration == MAX_REPAIR_ITERATIONS
      && s.answer.value.confidence <= 0.3 && s.answer.value.limitationsNoted
  }

  predicate Untouched(s: State) {
    s.evidence.None? && s.answer.None? && s.review.None? && s.repair.None? && s.drafts == 0
  }

  predicate Counts(c: Config, router: nat, planner: nat, answers: nat, reviews: nat) {
    c.routerRuns == router && c.plannerRuns == planner && c.answerRuns == answers && c.criticRuns == reviews
  }

  ghost predicate Inv(q: Request, c: Config) {
    var s, k := c.state, c.criticRuns;
    && Grounded(q, s)
    && (s.review.Some? ==> s.review.value.reviewedAnswerId < s.drafts)
    && match c.node
       case Router => Counts(c, 0, 0, 0, 0) && s == Initial(q)
       case Planner =>
         && Counts(c, 1, 0, 0, 0) && Untouched(s)
         && s.resolution.Some? && s.resolution.value.referencedPaperIds == s.referencedPaperIds
         && (forall p :: p in s.referencedPaperIds ==> p in ActiveIds(q))
       case Answerer =>
         && Counts(c, 1, 1, k, k) && k <= MAX_REPAIR_ITERATIONS && s.answer.None?
         && (if k == 0 then s.repair.None? else s.repair.Some? && s.repair.value.iteration == k)
       case Critic =>
         && Counts(c, 1, 1, k + 1, k) && k <= MAX_REPAIR_ITERATIONS && s.repair.None?
         && (s.answer.Some? ==>
               && s.answer.value.repairIteration == k && s.answer.value.id == s.drafts - 1
               && (s.review.Some? ==> s.review.value.reviewedAnswerId < s.answer.value.id))
       case End =>
         && s.repair.None? && Settled(s)
         && (Counts(c, 1, 0, 0, 0) || (Counts(c, 1, 1, k, k) && 1 <= k <= MAX_REPAIR_ITERATIONS + 1))
       case _ => Counts(c, 1, 0, 0, 0) && Untouched(s)
  }

  lemma {:induction false} RouterStep(q: Request, c: Config, r: Replies)
    requires Inv(q, c) && c.node.Router?
    ensures Inv(q, Step(c, q, r))
  {
  }

  lemma {:induction false} PlannerStep(q: Request, c: Config, r: Replies)
    requires Inv(q, c) && c.node.Planner?
    ensures Inv(q, Step(c, q, r))
  {
    PlannerIsGrounded(q, c.state, r.replan);
    PlannerBooks(q, c.state, r.replan);
  }

  lemma {:induction false} PlannerIsGrounded(q: Request, s: State, r: ReplanReply)
    requires s.evidence.None? && s.resolution.Some? && s.resolution.value.referencedPaperIds == s.referencedPaperIds
    requires forall p :: p in s.referencedPaperIds ==> p in ActiveIds(q)
    ensures var e := RetrievalPlanner(s, q, r).evidence; e.Some? ==> GroundedBundle(q, e.value)
  {
    if q.layer.Some? && s.referencedPaperIds != [] {
      var plan := InitialPlan(q, q.sectionHints(s.persona, s.resolution.value.intent), s.referencedPaperIds);
      RetrieveIsGrounded(q, plan);
      var replanned := NormalizeReplan(r, plan);
      if replanned.Some? { RetrieveIsGrounded(q, replanned.value); }
    }
  }

  lemma {:induction false} PlannerBooks(q: Request, s: State, r: ReplanReply)
    ensures var t := RetrievalPlanner(s, q, r);
      && t.answer == s.answer && t.review == s.review && t.repair == s.repair && t.drafts == s.drafts
      && t.resolution == s.resolution && t.referencedPaperIds == s.referencedPaperIds
  {
  }

  lemma {:induction false} AnswererStep(q: Request, c: Config, r: Replies)
    requires Inv(q, c) && c.node.Answerer?
    ensures Inv(q, Step(c, q, r))
  {
    AnswerIsGrounded(q, c.state, r.answers(c.answerRuns));
    AnswerBooks(q, c.state, c.criticRuns, r.answers(c.answerRuns));
  }

  lemma {:induction false} AnswerIsGrounded(q: Request, s: State, r: AnswerReply)
    requires Grounded(q, s)
    ensures Grounded(q, AnswerAgent(s, q, r))
  {
    var iteration := AnswerSource(q, s, r);
    if s.evidence.Some? { NormalizedAnswerIsGrounded(q, r, s.evidence.value, s.drafts, iteration); }
  }

  /** Where the draft after the answer agent comes from. */
  lemma {:induction false} AnswerSource(q: Request, s: State, r: AnswerReply) returns (iteration: nat)
    ensures var t := AnswerAgent(s, q, r);
      && t.evidence == s.evidence
      && (|| t.answer == s.answer || (t.answer.Some? && t.answer.value.citations == [])
          || (s.evidence.Some? && t.answer == NormalizeAnswer(r, s.evidence.value, s.drafts, iteration)))
  {
    iteration := if s.repair.Some? && s.repair.value.iteration >= 0 then s.repair.value.iteration else 0;
  }

  lemma {:induction false} AnswerBooks(q: Request, s: State, k: nat, r: AnswerReply)
    requires s.answer.None?
    requires if k == 0 then s.repair.None? else s.repair.Some? && s.repair.value.iteration == k
    ensures var t := AnswerAgent(s, q, r);
      && t.repair.None? && t.review == s.review && t.drafts >= s.drafts
      && (t.answer.Some? ==>
            && t.answer.value.repairIteration == k && t.answer.value.id == t.drafts - 1
            && t.answer.value.id == s.drafts)
  {
  }

  lemma {:induction false} CriticStep(q: Request, c: Config, r: Replies)
    requires Inv(q, c) && c.node.Critic?
    ensures Inv(q, Step(c, q, r))
  {
    CriticKeepsGrounds(q, c.state, r.reviews(c.criticRuns));
    CriticBooks(c.state, c.criticRuns, r.reviews(c.criticRuns));
  }

  lemma {:induction false} CriticKeepsGrounds(q: Request, s: State, r: CriticReply)
    requires Grounded(q, s)
    ensures Grounded(q, CitationCritic(s, r))
  {
    CriticKeepsCitations(s, r);
  }

  lemma {:induction false} CriticKeepsCitations(s: State, r: CriticReply)
    ensures var t := CitationCritic(s, r);
      && t.evidence == s.evidence
      && (t.answer.Some? ==> s.answer.Some? && t.answer.value.citations == s.answer.value.citations)
  {
    if s.answer.Some? {
      var review := NormalizeReview(r, s.answer.value);
      if review.Some? { ActKeepsCitations(s.(repair := None), s.answer.value, review.value); }
    }
  }

  lemma {:induction false} ActKeepsCitations(s: State, draft: AnswerDraft, review: CriticReview)
    requires s.answer == Some(draft)
    ensures var t := ActOnReview(s, draft, review);
      && t.evidence == s.evidence
      && (t.answer.Some? ==> t.answer.value.citations == draft.citations)
  {
  }

  lemma {:induction false} CriticBooks(s: State, k: nat, r: CriticReply)
    requires s.answer.Some? ==>
      && s.answer.value.repairIteration == k <= MAX_REPAIR_ITERATIONS && s.answer.value.id == s.drafts - 1
      && (s.review.Some? ==> s.review.value.reviewedAnswerId < s.answer.value.id)
    requires s.review.Some? ==> s.review.value.reviewedAnswerId < s.drafts
    ensures var t := CitationCritic(s, r);
      && (t.review.Some? ==> t.review.value.reviewedAnswerId < t.drafts)
      && (if t.repair.None? then Settled(t)
          else k < MAX_REPAIR_ITERATIONS && t.repair.value.iteration == k + 1 && t.answer.None?)
  {
    if s.answer.Some? {
      var draft := s.answer.value;
      var review := NormalizeReview(r, draft);
      RepairIsActionable(r, draft);
      if review.Some? && !draft.insufficientEvidence {
        ActBooks(s.(repair := None), k, draft, review.value);
      }
    }
  }

  lemma {:induction false} ActBooks(s: State, k: nat, draft: AnswerDraft, review: CriticReview)
    requires s.repair.None? && s.answer == Some(draft)
    requires draft.repairIteration == k <= MAX_REPAIR_ITERATIONS && draft.id == s.drafts - 1
    requires review.reviewedAnswerId == draft.id && (ShouldTriggerRepair(review) <==> review.needsRepair)
    ensures var t := ActOnReview(s, draft, review);
      && t.review.Some? && t.review.value.reviewedAnswerId < t.drafts
      && (if t.repair.None? then Settled(t)
          else k < MAX_REPAIR_ITERATIONS && t.repair.value.iteration == k + 1 && t.answer.None?)
  {
  }

  lemma {:induction false} OtherStep(q: Request, c: Config, r: Replies)
    requires Inv(q, c) && (c.node.Clarify? || c.node.AnalysisRequest? || c.node.DiscoveryRequest? || c.node.End?)
    ensures Inv(q, Step(c, q, r))
  {
  }

  lemma {:induction false} RunKeepsInv(q: Request, r: Replies, n: nat)
    ensures Inv(q, Run(q, r, n))
  {
    if n > 0 {
      RunKeepsInv(q, r, n - 1);
      var c := Run(q, r, n - 1);
      match c.node
      case Router => RouterStep(q, c, r);
      case Planner => PlannerStep(q, c, r);
      case Answerer => AnswererStep(q, c, r);
      case Critic => CriticStep(q, c, r);
      case _ => OtherStep(q, c, r);
    }
  }

  // ----- results -----

  lemma {:induction false} RunCountsSteps(q: Request, r: Replies, n: nat)
    ensures Run(q, r, n).node.End? || AgentRuns(Run(q, r, n)) == n
  {
    if n > 0 {
      RunCountsSteps(q, r, n - 1);
      StepCounts(Run(q, r, n - 1), q, r);
    }
  }

  lemma {:induction false} StepCounts(c: Config, q: Request, r: Replies)
    ensures var d := Step(c, q, r);
      d.node.End? || AgentRuns(d) == AgentRuns(c) + 1
  {
  }

  /** Every run ends within eight steps, after at most three answers, three reviews and eight
      agent runs, and leaves no repair pending. */
  lemma {:induction false} RepairLoopIsBounded(q: Request, r: Replies, n: nat)
    ensures var c := Run(q, r, n);
      && c.answerRuns <= 3 && c.criticRuns <= 3 && AgentRuns(c) <= 8
      && (n >= 8 ==> c.node.End?)
      && (c.node.End? ==> c.state.repair.None?)
  {
    RunKeepsInv(q, r, n);
    RunCountsSteps(q, r, n);
    CountsBound(q, Run(q, r, n));
  }

  lemma {:induction false} CountsBound(q: Request, c: Config)
    requires Inv(q, c)
    ensures c.answerRuns <= 3 && c.criticRuns <= 3 && AgentRuns(c) <= 8
    ensures !c.node.End? ==> AgentRuns(c) <= 7
    ensures c.node.End? ==> c.state.repair.None? && Settled(c.state)
  {
  }

  /** If the last review is of the draft that survives and asks for repair, that draft has used
      both repairs, its confidence is at most 0.3 and its limitations are noted. */
  lemma {:induction false} SurvivingObjectionsAreMarked(q: Request, r: Replies, n: nat)
    requires Run(q, r, n).node.End?
    ensures var s := Run(q, r, n).state;
      s.answer.Some? && s.review.Some? && s.review.value.reviewedAnswerId == s.answer.value.id
        && s.review.value.needsRepair ==>
        s.answer.value.repairIteration == 2 && s.answer.value.confidence <= 0.3 && s.answer.value.limitationsNoted
  {
    RunKeepsInv(q, r, n);
    CountsBound(q, Run(q, r, n));
  }

  /** Whatever the models reply, every citation of a draft, at any moment of any run, names a
      retrieved chunk that is stored and belongs to one of the session's active papers. */
  lemma {:induction false} CitationsAreGrounded(q: Request, r: Replies, n: nat, k: nat)
    requires Run(q, r, n).state.answer.Some?
    requires k < |Run(q, r, n).state.answer.value.citations|
    ensures var s := Run(q, r, n).state;
      var c := s.answer.value.citations[k];
      && s.evidence.Some? && q.layer.Some?
      && exists i :: && 0 <= i < |s.evidence.value.results|
                     && c.chunkId == s.evidence.value.results[i].chunk.id
                     && c.paperId == s.evidence.value.results[i].chunk.paperId
                     && s.evidence.value.results[i].chunk in q.layer.value
                     && c.paperId in ActiveIds(q)
  {
    RunKeepsInv(q, r, n);
    var s := Run(q, r, n).state;
    assert Grounded(q, s);
    var c := s.answer.value.citations[k];
    assert GroundedCitation(q, s.evidence.value, c);
    var i :| Cites(s.evidence.value, c, i) && Known(q, s.evidence.value.results[i].chunk);
  }

  /** There is an answer, a question back to the user, or a recorded error. */
  predicate Said(s: State) {
    s.answer.Some? || Truthy(s.clarificationQuestion) || s.errorCount > 0
  }

  lemma {:induction false} LastStepSays(c: Config, q: Request, r: Replies)
    requires !c.node.End? && Step(c, q, r).node.End?
    ensures Said(Step(c, q, r).state)
  {
    if c.node.Critic? { CriticSays(c.state, r.reviews(c.criticRuns)); }
  }

  lemma {:induction false} CriticSays(s: State, r: CriticReply)
    requires RouteAfterCritic(CitationCritic(s, r)) == End
    ensures Said(CitationCritic(s, r))
  {}

  lemma {:induction false} StepSays(c: Config, q: Request, r: Replies)
    requires c.node.End? ==> Said(c.state)
    ensures var d := Step(c, q, r); d.node.End? ==> Said(d.state)
  {
    if !c.node.End? && Step(c, q, r).node.End? { LastStepSays(c, q, r); }
  }

  /** No run ends in silence: it leaves an answer, a question for the user, or an error. */
  lemma {:induction false} EveryRunSaysSomething(q: Request, r: Replies, n: nat)
    ensures Run(q, r, n).node.End? ==> Said(Run(q, r, n).state)
  {
    if n > 0 {
      EveryRunSaysSomething(q, r, n - 1);
      StepSays(Run(q, r, n - 1), q, r);
    }
  }

  // ----- the bound is reached -----

  /** Every reply of the answer model is accepted and every review objects. */
  ghost predicate AlwaysObjects(r: Replies, e: EvidenceBundle) {
    && (forall k: nat, id: nat, i: nat :: var d := NormalizeAnswer(r.answers(k), e, id, i);
          d.Some? && !d.value.insufficientEvidence)
    && (forall k: nat, d: AnswerDraft :: var v := NormalizeReview(r.reviews(k), d);
          v.Some? && v.value.needsRepair)
  }

  /** One trip round the loop. */
  lemma {:induction false} LoopPass(q: Request, r: Replies, c: Config)
    requires Inv(q, c) && c.node.Answerer?
    requires !IsBlank(q.userMessage) && c.state.persona !in {Blank, Invalid}
    requires c.state.evidence.Some? && c.state.evidence.value.results != []
    requires AlwaysObjects(r, c.state.evidence.value)
    ensures var d := Step(Step(c, q, r), q, r);
      && d.criticRuns == c.criticRuns + 1
      && d.state.evidence == c.state.evidence && d.state.persona == c.state.persona
      && (if c.criticRuns < MAX_REPAIR_ITERATIONS then d.node.Answerer?
          else && d.node.End? && d.state.answer.Some? && d.state.review.Some?
               && d.state.review.value.needsRepair
               && d.state.review.value.reviewedAnswerId == d.state.answer.value.id)
  {
    var m := Step(c, q, r);
    AnswererStep(q, c, r);
    assert m.state.answer.Some? && m.state.answer.value.repairIteration == c.criticRuns;
    assert !m.state.answer.value.insufficientEvidence && m.state.evidence == c.state.evidence;
    CriticObjects(m, q, r);
  }

  /** A critic that objects sends the draft back, or keeps it when its repairs are used up. */
  lemma {:induction false} CriticObjects(m: Config, q: Request, r: Replies)
    requires m.node.Critic? && m.state.answer.Some? && !m.state.answer.value.insufficientEvidence
    requires m.state.evidence.Some? && m.state.evidence.value.results != []
    requires var v := NormalizeReview(r.reviews(m.criticRuns), m.state.answer.value); v.Some? && v.value.needsRepair
    ensures var d := Step(m, q, r);
      && d.criticRuns == m.criticRuns + 1 && d.state.evidence == m.state.evidence && d.state.persona == m.state.persona
      && (if m.state.answer.value.repairIteration < MAX_REPAIR_ITERATIONS then d.node.Answerer?
          else && d.node.End? && d.state.answer.Some? && d.state.review.Some?
               && d.state.review.value.needsRepair
               && d.state.review.value.reviewedAnswerId == d.state.answer.value.id)
  {
    RepairIsActionable(r.reviews(m.criticRuns), m.state.answer.value);
  }

  /** When a question reaches the answer agent with evidence and every review objects, all eight
      agent runs happen and the last draft is the one that is kept. */
  lemma {:induction false} ObjectionsUseEveryPass(q: Request, r: Replies)
    requires var c := Run(q, r, 2);
      && c.node.Answerer? && !IsBlank(q.userMessage) && c.state.persona !in {Blank, Invalid}
      && c.state.evidence.Some? && c.state.evidence.value.results != []
      && AlwaysObjects(r, c.state.evidence.value)
    ensures var c := Run(q, r, 8);
      && c.node.End? && AgentRuns(c) == 8 && c.state.answer.Some?
      && c.state.answer.value.repairIteration == 2 && c.state.answer.value.limitationsNoted
  {
    var c0 := Run(q, r, 2);
    RunKeepsInv(q, r, 2);
    RunCountsSteps(q, r, 2);
    TwoSteps(q, r, 2);
    LoopPass(q, r, c0);
    RunKeepsInv(q, r, 4);
    TwoSteps(q, r, 4);
    LoopPass(q, r, Run(q, r, 4));
    RunKeepsInv(q, r, 6);
    TwoSteps(q, r, 6);
    LoopPass(q, r, Run(q, r, 6));
    RunKeepsInv(q, r, 8);
  }

  lemma {:induction false} TwoSteps(q: Request, r: Replies, n: nat)
    ensures Run(q, r, n + 2) == Step(Step(Run(q, r, n), q, r), q, r)
  {
    assert Run(q, r, n + 1) == Step(Run(q, r, n), q, r);
    assert Run(q, r, n + 2) == Step(Run(q, r, n + 1), q, r);
  }

  // ----- such runs exist -----

  /** A question about an active paper, of which some stored chunk matches the first plan's query. */
  ghost predicate Answerable(q: Request, p: string, chunk: PaperChunk) {
    && q.sessionId != "" && !IsBlank(q.userMessage)
    && q.session.Some? && q.session.value.persona !in {Blank, Invalid} && p in q.session.value.activePaperIds
    && q.layer.Some? && chunk in q.layer.value && Matches(FirstQuery(q, p), chunk)
  }

  function FirstQuery(q: Request, p: string): ChunkSearchQuery
    requires q.session.Some?
  {
    var plan := InitialPlan(q, q.sectionHints(q.session.value.persona, QaFactual), [p]);
    ChunkSearchQuery(plan.searchQuery, Some(q.sessionId), plan.paperIds, plan.k, None)
  }

  /** The router sends the question on, every draft is accepted and every review objects. */
  function ObjectingReplies(p: string): Replies {
    Replies(RouterPayload(Fine(QaFactual), Fine([p]), false, None, Fine(1.0)), ReplanError,
            (_: nat) => AnswerPayload(Fine("an answer"), Fine([]), Fine(1.0), false, false),
            (_: nat) => CriticPayload(Fine([]), Fine([]), Fine(["a contradiction"]), Fine([]), Fine(()), true, Fine(1.0)))
  }

  lemma {:induction false} ObjectingRepliesObject(p: string, e: EvidenceBundle)
    ensures AlwaysObjects(ObjectingReplies(p), e)
  {
    assert "an answer"[0] == 'a';
    StripOfInk("a contradiction");
    assert "a contradiction"[0] == 'a';
    assert Clean(["a contradiction"]) != [];
  }

  lemma {:induction false} QuestionIsRouted(q: Request, p: string, chunk: PaperChunk)
    requires Answerable(q, p, chunk)
    ensures var c := Step(Start(q), q, ObjectingReplies(p)); var s := c.state;
      && c.node.Planner? && s.persona == q.session.value.persona && s.referencedPaperIds == [p]
      && s.resolution.Some? && s.resolution.value.intent == QaFactual
  {
    assert p in q.session.value.activePaperIds;
  }

  lemma {:induction false} MatchIsFound(q: Request, p: string, chunk: PaperChunk)
    requires Answerable(q, p, chunk)
    ensures Search(q.layer.value, FirstQuery(q, p)) != []
  {
    SearchIsTopK(q.layer.value, FirstQuery(q, p));
  }

  lemma {:induction false} QuestionIsPlanned(q: Request, p: string, chunk: PaperChunk, c: Config)
    requires Answerable(q, p, chunk) && c.node.Planner?
    requires c.state.persona == q.session.value.persona && c.state.referencedPaperIds == [p]
    requires c.state.resolution.Some? && c.state.resolution.value.intent == QaFactual
    ensures var d := Step(c, q, ObjectingReplies(p));
      && d.node.Answerer? && d.state.persona == c.state.persona
      && d.state.evidence.Some? && d.state.evidence.value.results != []
  {
    MatchIsFound(q, p, chunk);
  }

  /** For every such question there are replies that use every pass and are still objected to. */
  lemma {:induction false} BoundsAreReached(q: Request, p: string, chunk: PaperChunk)
    requires Answerable(q, p, chunk)
    ensures var c := Run(q, ObjectingReplies(p), 8);
      && c.node.End? && AgentRuns(c) == 8 && c.state.answer.Some?
      && c.state.answer.value.repairIteration == 2 && c.state.answer.value.limitationsNoted
  {
    var r := ObjectingReplies(p);
    QuestionIsRouted(q, p, chunk);
    QuestionIsPlanned(q, p, chunk, Step(Start(q), q, r));
    SecondStep(q, r);
    ObjectingRepliesObject(p, Run(q, r, 2).state.evidence.value);
    ObjectionsUseEveryPass(q, r);
  }

  lemma {:induction false} SecondStep(q: Request, r: Replies)
    ensures Run(q, r, 2) == Step(Step(Start(q), q, r), q, r)
  {
    assert Run(q, r, 1) == Step(Run(q, r, 0), q, r);
  }

  /** There is such a question: about the one word of the one stored chunk. */
  lemma {:induction false} SomeQuestionIsAnswerable()
    ensures exists q, p, chunk :: Answerable(q, p, chunk)
  {
    var chunk := PaperChunk("c", "p", 0, "a", Some("s"), Location(None, None, None));
    var q := Request("s", "a", Some(Session(Engineer, ["p"])), Some([chunk]), 1, (_: Persona, _: Intent) => "");
    OneWordScores();
    assert "p" in q.session.value.activePaperIds && chunk in q.layer.value && "p" in ["p"];
    assert FirstQuery(q, "p").query == "a" by { assert Strip("a") + "" == "a"; }
    assert Answerable(q, "p", chunk);
  }

  lemma {:induction false} OneWordScores()
    ensures LexicalScore(Tokens("a"), Tokens("a")) == 1.0 && Strip("a") == "a" && !IsBlank("a")
  {
    var s := Lower("a");
    assert s == "a" && RunLength(s, IsTokenChar) == 1;
    var word := s[..RunLength(s, IsTokenChar)];
    assert Runs(s, IsTokenChar)[0] == word;
    assert word in Tokens("a");
    assert Tokens("a") * Tokens("a") == Tokens("a");
    assert "a"[0] == 'a' && LeadingSpaces("a") == 0 && "a"[0..] == "a";
  }
}
