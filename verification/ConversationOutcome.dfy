/** How a conversation ends (graph_conversation.py, agents/intent_router.py, agents/answer_agent.py,
    agents/citation_critic.py, services/repair.py), computed from the replies alone: every run of
    the graph ends in that state. */
module ConversationOutcome {
  import opened Wrappers
  import opened Text
  import opened Retrieval
  import opened Conversation
  import opened ConversationRuns
  import opened ConversationEvidence

  // ----- what the user is taken to say -----

  predicate Likely(c: Field<real>) { c.Fine? && c.value >= 0.0 && c.value <= 1.0 }

  predicate Asked(question: Option<Question>) { question.Some? && question.value != FromModel("") }

  function AtMost(x: real, limit: real): real { if x > limit then limit else x }

  /** A router reply with all its fields; an ambiguous one must carry a question. */
  predicate WellFormed(r: RouterReply) {
    && r.RouterPayload? && r.intent.Fine? && r.paperIds.Fine? && Likely(r.confidence)
    && (r.ambiguous ==> Asked(r.question))
  }

  function ToClarify(question: Question, confidence: real): IntentResolution {
    IntentResolution(ClarificationNeeded, [], true, Some(question), confidence)
  }

  /** None when the message or the reply cannot be read; a paper that is not active, or a
      question without any active paper, is asked back. */
  function Resolved(q: Request, r: RouterReply): Option<IntentResolution> {
    if q.sessionId == "" || IsBlank(q.userMessage) || q.session.None? then None
    else if r.RouterError? then Some(ToClarify(CouldNotRoute, 0.0))
    else if !WellFormed(r) then None
    else
      var active, ids, confidence := q.session.value.activePaperIds, r.paperIds.value, r.confidence.value;
      if !(forall i :: 0 <= i < |ids| ==> ids[i] in active) then Some(ToClarify(WhichPaper, AtMost(confidence, 0.3)))
      else if r.intent.value in {QaFactual, QaMath, QaComparison, QaFollowup} && active == []
      then Some(ToClarify(NoPaperYet, AtMost(confidence, 0.3)))
      else Some(IntentResolution(r.intent.value, ids, r.ambiguous, r.question, confidence))
  }

  function AfterReading(q: Request, resolution: Option<IntentResolution>): State {
    var persona := if q.session.Some? then q.session.value.persona else Blank;
    match resolution
    case None =>
      State(persona, None, None, if q.session.Some? then q.session.value.activePaperIds else [],
            false, None, false, false, None, None, None, None, 0, 1)
    case Some(x) =>
      State(persona, Some(x.intent), Some(x), x.referencedPaperIds, x.ambiguous, x.clarificationQuestion,
            false, false, None, None, None, None, 0, 0)
  }

  function Destination(resolution: Option<IntentResolution>): Node {
    if resolution.None? || resolution.value.ambiguous then Clarify
    else match resolution.value.intent
      case QaFactual => Planner
      case QaMath => Planner
      case QaComparison => Planner
      case QaFollowup => Planner
      case AnalyzePaper => AnalysisRequest
      case Discover => DiscoveryRequest
      case _ => Clarify
  }

  // ----- one answer and its review -----

  predicate Found(rs: seq<ChunkSearchResult>, id: string) { exists i :: 0 <= i < |rs| && rs[i].chunk.id == id }

  /** The citation of the last result whose chunk has the id. */
  function CitationOf(rs: seq<ChunkSearchResult>, id: string): CitationRef
    requires Found(rs, id)
  {
    var last := rs[|rs| - 1].chunk;
    if last.id == id then CitationRef(last.paperId, last.id, last.location) else CitationOf(rs[..|rs| - 1], id)
  }

  predicate Usable(r: AnswerReply, rs: seq<ChunkSearchResult>) {
    && r.AnswerPayload? && r.text.Fine? && !IsBlank(r.text.value) && r.chunkIds.Fine? && Likely(r.confidence)
    && forall i :: 0 <= i < |r.chunkIds.value| ==> Found(rs, r.chunkIds.value[i])
  }

  /** The draft of the k-th pass: every chunk that it names must be one of the results. */
  function DraftOf(r: AnswerReply, rs: seq<ChunkSearchResult>, k: nat): Option<AnswerDraft> {
    if !Usable(r, rs) then None
    else
      var ids := r.chunkIds.value;
      Some(AnswerDraft(k, seq(|ids|, i requires 0 <= i < |ids| => CitationOf(rs, ids[i])), r.confidence.value,
                       r.limitationsNoted, r.insufficientEvidence, k))
  }

  /** The items in order, stripped, without the blank ones. */
  function Trimmed(items: seq<string>): seq<string> {
    if items == [] then []
    else
      var last := items[|items| - 1];
      Trimmed(items[..|items| - 1]) + if IsBlank(last) then [] else [Strip(last)]
  }

  /** Any objection calls for a repair, and so do instructions that the critic asks to follow. */
  function ReviewOf(r: CriticReply, k: nat): Option<CriticReview> {
    if !r.CriticPayload? then None
    else if r.unsupportedClaims.Wrong? || r.missingEvidence.Wrong? || r.contradictions.Wrong? then None
    else if r.repairInstructions.Wrong? || r.adjustments.Wrong? || !Likely(r.confidence) then None
    else
      var unsupported, missing := Trimmed(r.unsupportedClaims.value), Trimmed(r.missingEvidence.value);
      var contradictions, instructions := Trimmed(r.contradictions.value), Trimmed(r.repairInstructions.value);
      var objects := unsupported + missing + contradictions != [];
      Some(CriticReview(k, unsupported, missing, contradictions,
                        objects || (r.needsRepair && instructions != []),
                        if objects && instructions == [] then [GENERIC_REPAIR_INSTRUCTION] else instructions))
  }

  // ----- how a run ends -----

  predicate NothingToGoOn(s: State) { s.evidence.None? || s.evidence.value.results == [] }

  /** From the answer agent's k-th pass on. */
  function Answering(s: State, r: Replies, k: nat): State
    requires k <= 2
    decreases 2 - k, 1
  {
    if s.persona in {Blank, Invalid} then Reviewing(s.(errorCount := s.errorCount + 1), r, k)
    else if NothingToGoOn(s) then Reviewing(s.(answer := Some(AnswerDraft(k, [], 0.0, true, true, k)), drafts := k + 1), r, k)
    else match DraftOf(r.answers(k), s.evidence.value.results, k)
      case None => Reviewing(s.(errorCount := s.errorCount + 1), r, k)
      case Some(draft) => Reviewing(s.(answer := Some(draft), drafts := k + 1), r, k)
  }

  /** From the critic's k-th pass on. */
  function Reviewing(s: State, r: Replies, k: nat): State
    requires k <= 2
    decreases 2 - k, 0
  {
    if s.answer.None? then s.(errorCount := s.errorCount + 1)
    else if s.answer.value.insufficientEvidence
    then s.(review := Some(CriticReview(s.answer.value.id, [], [], [], false, [])))
    else if NothingToGoOn(s) then s.(errorCount := s.errorCount + 1)
    else match ReviewOf(r.reviews(k), k)
      case None => s.(errorCount := s.errorCount + 1)
      case Some(review) =>
        var t := s.(review := Some(review));
        if !review.needsRepair then t
        else if k < 2 then Answering(t.(answer := None), r, k + 1)
        else t.(answer := Some(s.answer.value.(confidence := AtMost(s.answer.value.confidence, 0.3), limitationsNoted := true)))
  }

  function AskedOr(question: Option<Question>, otherwise: Question): Option<Question> {
    if Asked(question) then question else Some(otherwise)
  }

  /** The last state of a run that found the evidence. */
  function Ending(q: Request, r: Replies, evidence: Option<EvidenceBundle>): State {
    var s := AfterReading(q, Resolved(q, r.router));
    match Destination(Resolved(q, r.router))
    case Planner => Answering(s.(evidence := evidence, errorCount := if evidence.None? then 1 else 0), r, 0)
    case AnalysisRequest =>
      s.(needsAnalysis := true, clarificationQuestion := AskedOr(s.clarificationQuestion, SendTheUrl))
    case DiscoveryRequest =>
      s.(needsDiscovery := true, clarificationQuestion := AskedOr(s.clarificationQuestion, NoDiscovery))
    case _ =>
      s.(needsClarification := s.needsClarification || !Asked(s.clarificationQuestion),
         clarificationQuestion := AskedOr(s.clarificationQuestion, PleaseClarify))
  }

  // ----- reading -----

  lemma {:induction false} RouterReads(q: Request, r: RouterReply)
    ensures IntentRouter(Initial(q), q, r) == AfterReading(q, Resolved(q, r))
    ensures RouteAfterIntent(IntentRouter(Initial(q), q, r)) == Destination(Resolved(q, r))
  {
    var s, resolution := AfterReading(q, Resolved(q, r)), Resolved(q, r);
    assert IntentRouter(Initial(q), q, r) == s;
    assert RouteAfterIntent(s) == Destination(resolution);
  }

  // ----- drafts -----

  ghost predicate Cited(e: EvidenceBundle) {
    |e.citations| == |e.results| && forall i :: 0 <= i < |e.results| ==> e.citations[i] == ToCitation(e.results[i])
  }

  lemma {:induction false} CitationMapIsLast(rs: seq<ChunkSearchResult>, cs: seq<CitationRef>)
    requires |cs| == |rs| && forall i :: 0 <= i < |rs| ==> cs[i] == ToCitation(rs[i])
    ensures forall id :: id in CitationMap(cs) <==> Found(rs, id)
    ensures forall id :: Found(rs, id) ==> CitationMap(cs)[id] == CitationOf(rs, id)
  {
    if rs != [] {
      var n := |rs| - 1;
      CitationMapIsLast(rs[..n], cs[..n]);
      forall id ensures Found(rs, id) <==> Found(rs[..n], id) || rs[n].chunk.id == id {
        FoundSnoc(rs, id);
      }
    }
  }

  lemma {:induction false} FoundSnoc(rs: seq<ChunkSearchResult>, id: string)
    requires rs != []
    ensures Found(rs, id) <==> Found(rs[..|rs| - 1], id) || rs[|rs| - 1].chunk.id == id
  {
    var n := |rs| - 1;
    if Found(rs[..n], id) {
      var i :| 0 <= i < n && rs[..n][i].chunk.id == id;
      assert rs[i].chunk.id == id;
    }
    if Found(rs, id) && rs[n].chunk.id != id {
      var i :| 0 <= i < |rs| && rs[i].chunk.id == id;
      assert rs[..n][i].chunk.id == id;
    }
  }

  lemma {:induction false} NoDefaultsNeeded(m: map<string, CitationRef>, rs: seq<ChunkSearchResult>)
    requires forall i :: 0 <= i < |rs| ==> rs[i].chunk.id in m
    ensures WithDefaults(m, rs) == m
  {
    if rs != [] { NoDefaultsNeeded(m, rs[..|rs| - 1]); }
  }

  lemma {:induction false} BundleMapIsLast(e: EvidenceBundle)
    requires Cited(e)
    ensures forall id :: id in BundleMap(e) <==> Found(e.results, id)
    ensures forall id :: Found(e.results, id) ==> BundleMap(e)[id] == CitationOf(e.results, id)
  {
    CitationMapIsLast(e.results, e.citations);
    forall i | 0 <= i < |e.results| ensures e.results[i].chunk.id in CitationMap(e.citations) {
      assert Found(e.results, e.results[i].chunk.id);
    }
    NoDefaultsNeeded(CitationMap(e.citations), e.results);
  }

  lemma {:induction false} DraftIsNormalized(r: AnswerReply, e: EvidenceBundle, k: nat)
    requires Cited(e)
    ensures NormalizeAnswer(r, e, k, k) == DraftOf(r, e.results, k)
  {
    BundleMapIsLast(e);
    if Usable(r, e.results) {
      var ids := r.chunkIds.value;
      assert CitationsFor(ids, BundleMap(e)) == seq(|ids|, i requires 0 <= i < |ids| => CitationOf(e.results, ids[i]));
    }
  }

  // ----- reviews -----

  function Item(item: string): seq<string> { if IsBlank(item) then [] else [Strip(item)] }

  lemma {:induction false} TrimmedFirst(item: string, rest: seq<string>)
    ensures Trimmed([item] + rest) == Item(item) + Trimmed(rest)
  {
    var n := |rest|;
    assert ([item] + rest)[..n] == if n == 0 then [] else [item] + rest[..n - 1];
    assert ([item] + rest)[n] == if n == 0 then item else rest[n - 1];
    if n > 0 { TrimmedFirst(item, rest[..n - 1]); }
  }

  lemma {:induction false} CleanIsTrimmed(items: seq<string>)
    ensures Clean(items) == Trimmed(items)
  {
    if items != [] {
      CleanIsTrimmed(items[1..]);
      TrimmedFirst(items[0], items[1..]);
      assert items == [items[0]] + items[1..];
      StripOfBlank(items[0]);
    }
  }

  lemma {:induction false} ReviewIsNormalized(r: CriticReply, draft: AnswerDraft)
    ensures NormalizeReview(r, draft) == ReviewOf(r, draft.id)
    ensures NormalizeReview(r, draft).Some? ==>
      (ShouldTriggerRepair(NormalizeReview(r, draft).value) <==> NormalizeReview(r, draft).value.needsRepair)
  {
    RepairIsActionable(r, draft);
    if r.CriticPayload? {
      if r.unsupportedClaims.Fine? { CleanIsTrimmed(r.unsupportedClaims.value); }
      if r.missingEvidence.Fine? { CleanIsTrimmed(r.missingEvidence.value); }
      if r.contradictions.Fine? { CleanIsTrimmed(r.contradictions.value); }
      if r.repairInstructions.Fine? { CleanIsTrimmed(r.repairInstructions.value); }
    }
  }

  // ----- every run ends that way -----

  /** The evidence the planner settles on, as `EvidenceOfStep` says. */
  ghost predicate Chosen(q: Request, r: Replies, s: State, e: Option<EvidenceBundle>) {
    var papers := s.referencedPaperIds;
    && (e.Some? <==> Plannable(q, s))
    && (e.Some? ==>
          if Finds(q, papers, FirstSearch(q, s)) || q.plannerIterations <= 1 || !Replans(r.replan)
          then HoldsBest(q, papers, FirstSearch(q, s), 8, e.value)
          else HoldsBest(q, papers, Strip(r.replan.searchQuery.value), r.replan.k.value, e.value))
  }

  /** Before the k-th answer, a repair of which carries the instructions of the last review. */
  predicate ToAnswer(s: State, r: Replies, k: nat, ending: State) {
    && k <= 2 && s.answer.None? && s.drafts == k
    && (if k == 0 then s.repair.None?
        else s.review.Some? && s.repair == Some(RepairContext(s.review.value.repairInstructions, k)))
    && Answering(s.(repair := None), r, k) == ending
  }

  /** Before the k-th review. */
  predicate ToReview(s: State, r: Replies, k: nat, ending: State) {
    && k <= 2 && s.repair.None?
    && (s.answer.Some? ==> s.answer.value.id == k == s.answer.value.repairIteration && s.drafts == k + 1)
    && Reviewing(s, r, k) == ending
  }

  ghost predicate OnTheWay(q: Request, r: Replies, c: Config) {
    var s, k, read := c.state, c.criticRuns, AfterReading(q, Resolved(q, r.router));
    match c.node
    case Router => s == Initial(q)
    case Planner => s == read && Destination(Resolved(q, r.router)).Planner?
    case Answerer => PlannedSo(q, r, s.evidence) && c.answerRuns == k && ToAnswer(s, r, k, Ending(q, r, s.evidence))
    case Critic => PlannedSo(q, r, s.evidence) && ToReview(s, r, k, Ending(q, r, s.evidence))
    case End =>
      && s == Ending(q, r, s.evidence)
      && (if Destination(Resolved(q, r.router)).Planner? then Chosen(q, r, read, s.evidence) else s.evidence.None?)
    case node => s == read && Destination(Resolved(q, r.router)) == node
  }

  /** The planner has run. */
  ghost predicate PlannedSo(q: Request, r: Replies, evidence: Option<EvidenceBundle>) {
    && Destination(Resolved(q, r.router)).Planner?
    && Chosen(q, r, AfterReading(q, Resolved(q, r.router)), evidence)
    && (evidence.Some? ==> Cited(evidence.value))
  }

  lemma {:induction false} RouterGoesOn(q: Request, r: Replies, c: Config)
    requires c.node.Router? && c.state == Initial(q)
    ensures OnTheWay(q, r, Step(c, q, r))
  {
    RouterReads(q, r.router);
  }

  lemma {:induction false} ChosenIsCited(q: Request, r: Replies, s: State, e: EvidenceBundle)
    requires Chosen(q, r, s, Some(e))
    ensures Cited(e)
  {
    forall i | 0 <= i < |e.results| ensures |e.citations| == |e.results| && e.citations[i] == ToCitation(e.results[i]) {
      assert CitesChunk(e.citations[i], e.results[i].chunk);
    }
  }

  lemma {:induction false} PlannerKeeps(q: Request, s: State, r: ReplanReply)
    requires s.evidence.None?
    ensures var t := RetrievalPlanner(s, q, r);
      && (t.evidence.Some? ==> t == s.(evidence := t.evidence))
      && (t.evidence.None? ==> t == s.(errorCount := s.errorCount + 1))
  {}

  lemma {:induction false} PlannerGoesOn(q: Request, r: Replies, c: Config)
    requires c.node.Planner? && OnTheWay(q, r, c) && Counts(c, 1, 0, 0, 0)
    ensures OnTheWay(q, r, Step(c, q, r))
  {
    var s, t := c.state, RetrievalPlanner(c.state, q, r.replan);
    PlannerFinds(q, s, r.replan);
    PlannerKeeps(q, s, r.replan);
    assert Chosen(q, r, s, t.evidence);
    if t.evidence.Some? { ChosenIsCited(q, r, s, t.evidence.value); }
    assert t == s.(evidence := t.evidence, errorCount := if t.evidence.None? then 1 else 0);
  }

  lemma {:induction false} AnswererAnswers(q: Request, r: Replies, s: State, k: nat, ending: State)
    requires ToAnswer(s, r, k, ending) && !IsBlank(q.userMessage)
    requires s.evidence.Some? ==> Cited(s.evidence.value)
    ensures var t := AnswerAgent(s, q, r.answers(k));
      t.evidence == s.evidence && ToReview(t, r, k, ending)
  {
    if s.persona !in {Blank, Invalid} && !NothingToGoOn(s) {
      Drafted(q, r.answers(k), s, k);
    }
  }

  lemma {:induction false} Drafted(q: Request, r: AnswerReply, s: State, k: nat)
    requires s.drafts == k && !IsBlank(q.userMessage) && s.persona !in {Blank, Invalid} && !NothingToGoOn(s)
    requires (if k == 0 then s.repair.None? else s.repair.Some? && s.repair.value.iteration == k) && Cited(s.evidence.value)
    ensures var draft := DraftOf(r, s.evidence.value.results, k);
      AnswerAgent(s, q, r) == if draft.None? then s.(repair := None, errorCount := s.errorCount + 1)
                              else s.(repair := None, answer := draft, drafts := k + 1)
  {
    DraftIsNormalized(r, s.evidence.value, k);
  }

  lemma {:induction false} MessageWasRead(q: Request, r: RouterReply)
    requires Destination(Resolved(q, r)).Planner?
    ensures !IsBlank(q.userMessage)
  {}

  lemma {:induction false} AnswererGoesOn(q: Request, r: Replies, c: Config)
    requires c.node.Answerer? && OnTheWay(q, r, c)
    ensures OnTheWay(q, r, Step(c, q, r))
  {
    var ending := Ending(q, r, c.state.evidence);
    MessageWasRead(q, r.router);
    AnswererAnswers(q, r, c.state, c.criticRuns, ending);
    AnswererLeads(c, q, r);
    Arrives(q, r, Step(c, q, r), c.state.evidence, ending);
  }

  lemma {:induction false} AnswererLeads(c: Config, q: Request, r: Replies)
    requires c.node.Answerer?
    ensures var d := Step(c, q, r);
      && d.state == AnswerAgent(c.state, q, r.answers(c.answerRuns)) && d.criticRuns == c.criticRuns && d.node.Critic?
  {}

  /** The critic ends the run, or sends it to the next pass with the review's instructions. */
  lemma {:induction false} CriticReviews(r: Replies, s: State, k: nat, ending: State)
    requires ToReview(s, r, k, ending)
    ensures var t := CitationCritic(s, r.reviews(k));
      t.evidence == s.evidence && if t.repair.None? then t == ending else ToAnswer(t, r, k + 1, ending)
  {
    if s.answer.Some? {
      var review := NormalizeReview(r.reviews(k), s.answer.value);
      ReviewIsNormalized(r.reviews(k), s.answer.value);
      if review.Some? && !s.answer.value.insufficientEvidence && !NothingToGoOn(s) {
        ActedOn(r, s, k, s.answer.value, review.value);
      }
    }
  }

  lemma {:induction false} ActedOn(r: Replies, s: State, k: nat, draft: AnswerDraft, review: CriticReview)
    requires k <= 2 && s.repair.None? && s.answer == Some(draft) && draft.repairIteration == k && s.drafts == k + 1
    requires ReviewOf(r.reviews(k), k) == Some(review) && (ShouldTriggerRepair(review) <==> review.needsRepair)
    requires !draft.insufficientEvidence && !NothingToGoOn(s)
    ensures var t := ActOnReview(s, draft, review);
      t.evidence == s.evidence && if t.repair.None? then t == Reviewing(s, r, k) else ToAnswer(t, r, k + 1, Reviewing(s, r, k))
  {
    var t := s.(review := Some(review));
    if review.needsRepair && k < 2 {
      assert Reviewing(s, r, k) == Answering(t.(answer := None), r, k + 1);
    }
  }

  lemma {:induction false} CriticGoesOn(q: Request, r: Replies, c: Config)
    requires c.node.Critic? && OnTheWay(q, r, c) && c.answerRuns == c.criticRuns + 1
    ensures OnTheWay(q, r, Step(c, q, r))
  {
    var ending := Ending(q, r, c.state.evidence);
    CriticMoves(c, q, r, ending);
    Arrives(q, r, Step(c, q, r), c.state.evidence, ending);
  }

  lemma {:induction false} CriticMoves(c: Config, q: Request, r: Replies, ending: State)
    requires c.node.Critic? && ToReview(c.state, r, c.criticRuns, ending) && c.answerRuns == c.criticRuns + 1
    ensures var d := Step(c, q, r);
      && d.state.evidence == c.state.evidence
      && (|| (d.node.End? && d.state == ending)
          || (d.node.Answerer? && d.answerRuns == d.criticRuns && ToAnswer(d.state, r, d.criticRuns, ending)))
  {
    CriticLeads(c, q, r);
    CriticReviews(r, c.state, c.criticRuns, ending);
  }

  lemma {:induction false} Arrives(q: Request, r: Replies, d: Config, evidence: Option<EvidenceBundle>, ending: State)
    requires PlannedSo(q, r, evidence) && ending == Ending(q, r, evidence) && d.state.evidence == evidence
    requires (d.node.End? && d.state == ending)
      || (d.node.Answerer? && d.answerRuns == d.criticRuns && ToAnswer(d.state, r, d.criticRuns, ending))
      || (d.node.Critic? && ToReview(d.state, r, d.criticRuns, ending))
    ensures OnTheWay(q, r, d)
  {}

  lemma {:induction false} CriticLeads(c: Config, q: Request, r: Replies)
    requires c.node.Critic?
    ensures var d := Step(c, q, r);
      && d.state == CitationCritic(c.state, r.reviews(c.criticRuns))
      && d.criticRuns == c.criticRuns + 1 && d.answerRuns == c.answerRuns
      && d.node == if d.state.repair.Some? then Answerer else End
  {}

  lemma {:induction false} OthersGoOn(q: Request, r: Replies, c: Config)
    requires c.node in {Clarify, AnalysisRequest, DiscoveryRequest, End} && OnTheWay(q, r, c)
    ensures OnTheWay(q, r, Step(c, q, r))
  {}

  lemma {:induction false} StepGoesOn(q: Request, r: Replies, c: Config)
    requires OnTheWay(q, r, c) && Inv(q, c)
    ensures OnTheWay(q, r, Step(c, q, r))
  {
    CountsAt(q, c);
    match c.node
    case Router => RouterGoesOn(q, r, c);
    case Planner => PlannerGoesOn(q, r, c);
    case Answerer => AnswererGoesOn(q, r, c);
    case Critic => CriticGoesOn(q, r, c);
    case _ => OthersGoOn(q, r, c);
  }

  lemma {:induction false} CountsAt(q: Request, c: Config)
    requires Inv(q, c)
    ensures c.node.Planner? ==> Counts(c, 1, 0, 0, 0)
    ensures c.node.Critic? ==> c.answerRuns == c.criticRuns + 1
  {}

  lemma {:induction false} Throughout(p: Config -> bool, q: Request, r: Replies, n: nat)
    requires p(Start(q)) && forall c :: p(c) ==> p(Step(c, q, r))
    ensures p(Run(q, r, n))
  {
    if n > 0 { Throughout(p, q, r, n - 1); }
  }

  lemma {:induction false} StartsOut(q: Request, r: Replies)
    ensures OnTheWay(q, r, Start(q)) && Inv(q, Start(q))
  {}

  lemma {:induction false} InvKept(q: Request, r: Replies, c: Config)
    requires Inv(q, c)
    ensures Inv(q, Step(c, q, r))
  {
    match c.node
    case Router => RouterStep(q, c, r);
    case Planner => PlannerStep(q, c, r);
    case Answerer => AnswererStep(q, c, r);
    case Critic => CriticStep(q, c, r);
    case _ => OtherStep(q, c, r);
  }

  lemma {:induction false} RunGoesOn(q: Request, r: Replies, n: nat)
    ensures OnTheWay(q, r, Run(q, r, n))
  {
    var p := c => Inv(q, c) && OnTheWay(q, r, c);
    StartsOut(q, r);
    forall c | p(c) ensures p(Step(c, q, r)) {
      InvKept(q, r, c);
      StepGoesOn(q, r, c);
    }
    Throughout(p, q, r, n);
  }

  /** Every run has ended after eight steps, in the state that its replies call for. */
  lemma {:induction false} RunOutcome(q: Request, r: Replies, n: nat)
    requires n >= 8
    ensures var s := Run(q, r, n).state;
      && s == Ending(q, r, s.evidence)
      && (if Destination(Resolved(q, r.router)).Planner?
          then Chosen(q, r, AfterReading(q, Resolved(q, r.router)), s.evidence) else s.evidence.None?)
  {
    RunGoesOn(q, r, n);
    RepairLoopIsBounded(q, r, n);
  }
}
