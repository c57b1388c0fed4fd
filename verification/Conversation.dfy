/** The conversation graph (graph_conversation.py): router, planner, answer agent and
    citation critic with its bounded repair loop. Every model reply is arbitrary. */
module Conversation {
  import opened Wrappers
  import opened Text
  import opened Retrieval

  // ----- records (models/qa.py) -----

  datatype Intent =
    | QaFactual | QaMath | QaComparison | QaFollowup | Discover | AnalyzePaper
    | SelectPapers | ClarificationNeeded | Unclear

  predicate IsQa(i: Intent) { i in {QaFactual, QaMath, QaComparison, QaFollowup} }

  datatype Persona = Blank | Engineer | Researcher | Techlead | Invalid

  /** A question to the user: the model's, or one of the program's own. */
  datatype Question =
    | FromModel(text: string) | WhichPaper | NoPaperYet | CouldNotRoute | PleaseClarify | SendTheUrl | NoDiscovery

  predicate Truthy(question: Option<Question>) {
    question.Some? && (question.value.FromModel? ==> question.value.text != "")
  }

  datatype IntentResolution = IntentResolution(
    intent: Intent, referencedPaperIds: seq<string>, ambiguous: bool,
    clarificationQuestion: Option<Question>, confidence: real)

  datatype AnswerDraft = AnswerDraft(
    id: nat, citations: seq<CitationRef>, confidence: real,
    limitationsNoted: bool, insufficientEvidence: bool, repairIteration: nat)

  datatype CriticReview = CriticReview(
    reviewedAnswerId: nat, unsupportedClaims: seq<string>, missingEvidence: seq<string>,
    contradictions: seq<string>, needsRepair: bool, repairInstructions: seq<string>)

  datatype RepairContext = RepairContext(instructions: seq<string>, iteration: int)

  /** What the caller and the surroundings fix for one message. The section hints that are
      added to a query are any function of persona and intent. */
  datatype Request = Request(
    sessionId: string, userMessage: string, session: Option<Session>,
    layer: Option<seq<PaperChunk>>, plannerIterations: nat,
    sectionHints: (Persona, Intent) -> string)

  datatype Session = Session(persona: Persona, activePaperIds: seq<string>)

  datatype State = State(
    persona: Persona, intent: Option<Intent>, resolution: Option<IntentResolution>,
    referencedPaperIds: seq<string>, needsClarification: bool, clarificationQuestion: Option<Question>,
    needsAnalysis: bool, needsDiscovery: bool,
    evidence: Option<EvidenceBundle>, answer: Option<AnswerDraft>, review: Option<CriticReview>,
    repair: Option<RepairContext>, drafts: nat, errorCount: nat)

  /** The state the chat handler starts the graph with. */
  function Initial(q: Request): State {
    State(if q.session.Some? then q.session.value.persona else Blank, None, None,
          if q.session.Some? then q.session.value.activePaperIds else [],
          false, None, false, false, None, None, None, None, 0, 0)
  }

  // ----- replies -----

  /** A JSON field that is missing, of the wrong type, or fine. */
  datatype Field<+T> = Wrong | Fine(value: T)

  datatype RouterReply =
    | RouterError
    | RouterNotJson
    | RouterPayload(intent: Field<Intent>, paperIds: Field<seq<string>>, ambiguous: bool,
                    question: Option<Question>, confidence: Field<real>)

  datatype ReplanReply =
    | ReplanError
    | ReplanNotJson
    | ReplanPayload(searchQuery: Field<string>, lists: Field<()>, k: Field<int>)

  datatype AnswerReply =
    | AnswerError
    | AnswerNotJson
    | AnswerPayload(text: Field<string>, chunkIds: Field<seq<string>>, confidence: Field<real>,
                    limitationsNoted: bool, insufficientEvidence: bool)

  datatype CriticReply =
    | CriticError
    | CriticNotJson
    | CriticPayload(unsupportedClaims: Field<seq<string>>, missingEvidence: Field<seq<string>>,
                    contradictions: Field<seq<string>>, repairInstructions: Field<seq<string>>,
                    adjustments: Field<()>, needsRepair: bool, confidence: Field<real>)

  predicate Probability(c: Field<real>) { c.Fine? && 0.0 <= c.value <= 1.0 }

  function Failed(s: State): State { s.(errorCount := s.errorCount + 1) }

  // ----- intent router -----

  function Clarification(question: Question, confidence: real): IntentResolution {
    IntentResolution(ClarificationNeeded, [], true, Some(question), confidence)
  }

  function Cap(confidence: real, limit: real): real { if confidence <= limit then confidence else limit }

  /** `_normalize_resolution`: None when the payload is not a valid resolution. */
  function NormalizeResolution(r: RouterReply, active: seq<string>): Option<IntentResolution>
    requires r.RouterPayload?
  {
    if r.intent.Wrong? || r.paperIds.Wrong? || !Probability(r.confidence)
       || (r.ambiguous && !Truthy(r.question))
    then None
    else
      var ids, confidence := r.paperIds.value, r.confidence.value;
      if exists i :: 0 <= i < |ids| && ids[i] !in active
      then Some(Clarification(WhichPaper, Cap(confidence, 0.3)))
      else if IsQa(r.intent.value) && active == []
      then Some(Clarification(NoPaperYet, Cap(confidence, 0.3)))
      else Some(IntentResolution(r.intent.value, ids, r.ambiguous, r.question, confidence))
  }

  function WithResolution(s: State, resolution: IntentResolution, persona: Persona): State {
    s.(resolution := Some(resolution), intent := Some(resolution.intent),
       referencedPaperIds := resolution.referencedPaperIds, persona := persona,
       needsClarification := resolution.ambiguous, clarificationQuestion := resolution.clarificationQuestion)
  }

  function IntentRouter(s: State, q: Request, r: RouterReply): State {
    if q.sessionId == "" || IsBlank(q.userMessage) || q.session.None? then Failed(s)
    else
      var session := q.session.value;
      match r
      case RouterError =>
        WithResolution(s, Clarification(CouldNotRoute, 0.0), session.persona)
      case RouterNotJson => Failed(s)
      case RouterPayload(_, _, _, _, _) =>
        var resolution := NormalizeResolution(r, session.activePaperIds);
        if resolution.None? then Failed(s) else WithResolution(s, resolution.value, session.persona)
  }

  // ----- retrieval planner -----

  const DEFAULT_K: nat := 8

  /** The parts of a plan that retrieval reads. */
  datatype EvidencePlan = EvidencePlan(paperIds: seq<string>, searchQuery: string, k: nat)

  function InitialPlan(q: Request, sections: string, paperIds: seq<string>): EvidencePlan {
    EvidencePlan(paperIds, Strip(q.userMessage) + sections, DEFAULT_K)
  }

  /** The new plan keeps the papers of the failed one, whatever the model answers. */
  function NormalizeReplan(r: ReplanReply, failed: EvidencePlan): Option<EvidencePlan> {
    if !r.ReplanPayload? || r.searchQuery.Wrong? || IsBlank(r.searchQuery.value) || r.lists.Wrong?
       || r.k.Wrong? || r.k.value < 1
    then None
    else Some(EvidencePlan(failed.paperIds, Strip(r.searchQuery.value), r.k.value))
  }

  function Retrieve(chunks: seq<PaperChunk>, plan: EvidencePlan, sessionId: string): EvidenceBundle {
    var results := Search(chunks, ChunkSearchQuery(plan.searchQuery, Some(sessionId), plan.paperIds, plan.k, None));
    AssembleEvidence(plan.searchQuery, results, plan.k)
  }

  function RetrievalPlanner(s: State, q: Request, r: ReplanReply): State {
    if IsBlank(q.userMessage) || s.persona.Blank? || s.resolution.None? || !IsQa(s.resolution.value.intent)
       || q.layer.None?
    then Failed(s)
    else
      var paperIds := if s.referencedPaperIds != [] then s.referencedPaperIds
                      else s.resolution.value.referencedPaperIds;
      if paperIds == [] then Failed(s)
      else
        var plan := InitialPlan(q, q.sectionHints(s.persona, s.resolution.value.intent), paperIds);
        var evidence := Retrieve(q.layer.value, plan, q.sessionId);
        if evidence.results != [] || q.plannerIterations <= 1 then s.(evidence := Some(evidence))
        else
          var replanned := NormalizeReplan(r, plan);
          if replanned.None? then s.(evidence := Some(evidence))
          else s.(evidence := Some(Retrieve(q.layer.value, replanned.value, q.sessionId)))
  }

  // ----- answer agent -----

  /** `_citation_map`: the bundle's citations, later ones winning, then missing chunks. */
  function CitationMap(citations: seq<CitationRef>): map<string, CitationRef> {
    if citations == [] then map[]
    else CitationMap(citations[..|citations| - 1])[citations[|citations| - 1].chunkId := citations[|citations| - 1]]
  }

  function WithDefaults(m: map<string, CitationRef>, results: seq<ChunkSearchResult>): map<string, CitationRef> {
    if results == [] then m
    else
      var before := WithDefaults(m, results[..|results| - 1]);
      var c := ToCitation(results[|results| - 1]);
      if c.chunkId in before then before else before[c.chunkId := c]
  }

  function BundleMap(e: EvidenceBundle): map<string, CitationRef> {
    WithDefaults(CitationMap(e.citations), e.results)
  }

  function CitationsFor(ids: seq<string>, m: map<string, CitationRef>): seq<CitationRef>
    requires forall i :: 0 <= i < |ids| ==> ids[i] in m
  {
    seq(|ids|, i requires 0 <= i < |ids| => m[ids[i]])
  }

  /** `_normalize_answer`: None when the payload is rejected. */
  function NormalizeAnswer(r: AnswerReply, e: EvidenceBundle, id: nat, iteration: nat): Option<AnswerDraft> {
    if !r.AnswerPayload? || r.text.Wrong? || IsBlank(r.text.value) || r.chunkIds.Wrong? then None
    else
      var m := BundleMap(e);
      if exists i :: 0 <= i < |r.chunkIds.value| && r.chunkIds.value[i] !in m then None
      else if !Probability(r.confidence) then None
      else Some(AnswerDraft(id, CitationsFor(r.chunkIds.value, m), r.confidence.value,
                            r.limitationsNoted, r.insufficientEvidence, iteration))
  }

  function InsufficientEvidence(id: nat, iteration: nat): AnswerDraft {
    AnswerDraft(id, [], 0.0, true, true, iteration)
  }

  function AnswerAgent(s: State, q: Request, r: AnswerReply): State {
    var iteration := if s.repair.Some? && s.repair.value.iteration >= 0 then s.repair.value.iteration else 0;
    var t := s.(repair := None);
    if IsBlank(q.userMessage) || s.persona in {Blank, Invalid} then Failed(t)
    else if s.evidence.None? || s.evidence.value.results == []
    then t.(answer := Some(InsufficientEvidence(s.drafts, iteration)), drafts := s.drafts + 1)
    else
      var draft := NormalizeAnswer(r, s.evidence.value, s.drafts, iteration);
      if draft.None? then Failed(t) else t.(answer := draft, drafts := s.drafts + 1)
  }

  // ----- repair decision (services/repair.py) -----

  const MAX_REPAIR_ITERATIONS: nat := 2
  const GENERIC_REPAIR_INSTRUCTION := "Support every claim."

  function NormalizeRepairDecision(flag: bool, issues: bool, instructions: seq<string>): (bool, seq<string>) {
    var needs := flag || issues;
    if needs && !issues && instructions == [] then (false, [])
    else if needs && issues && instructions == [] then (true, [GENERIC_REPAIR_INSTRUCTION])
    else (needs, instructions)
  }

  predicate HasIssues(review: CriticReview) {
    review.unsupportedClaims != [] || review.missingEvidence != [] || review.contradictions != []
  }

  predicate ShouldTriggerRepair(review: CriticReview) {
    review.needsRepair && (review.repairInstructions != [] || HasIssues(review))
  }

  predicate IsRepairExhausted(draft: AnswerDraft) { draft.repairIteration >= MAX_REPAIR_ITERATIONS }

  // ----- citation critic -----

  /** Items stripped, blank ones dropped. */
  function Clean(items: seq<string>): seq<string> {
    if items == [] then []
    else if IsBlank(Strip(items[0])) then Clean(items[1..])
    else [Strip(items[0])] + Clean(items[1..])
  }

  /** `_normalize_review`: None when the payload is rejected. */
  function NormalizeReview(r: CriticReply, draft: AnswerDraft): Option<CriticReview> {
    if !r.CriticPayload? || r.unsupportedClaims.Wrong? || r.missingEvidence.Wrong? || r.contradictions.Wrong?
       || r.repairInstructions.Wrong? || r.adjustments.Wrong?
    then None
    else
      var u, m, c := Clean(r.unsupportedClaims.value), Clean(r.missingEvidence.value), Clean(r.contradictions.value);
      var (needs, instructions) :=
        NormalizeRepairDecision(r.needsRepair, u != [] || m != [] || c != [], Clean(r.repairInstructions.value));
      if !Probability(r.confidence) then None
      else Some(CriticReview(draft.id, u, m, c, needs, instructions))
  }

  /** A normalised review asks for repair exactly when it says so, and then carries instructions. */
  lemma {:induction false} RepairIsActionable(r: CriticReply, draft: AnswerDraft)
    ensures var review := NormalizeReview(r, draft);
      review.Some? ==>
        && review.value.reviewedAnswerId == draft.id
        && (ShouldTriggerRepair(review.value) <==> review.value.needsRepair)
        && (HasIssues(review.value) ==> review.value.needsRepair)
        && (review.value.needsRepair ==> review.value.repairInstructions != [])
        && (review.value.needsRepair && !HasIssues(review.value) ==>
              && r.needsRepair
              && review.value.repairInstructions == Clean(r.repairInstructions.value))
  {
  }

  function Downgrade(draft: AnswerDraft): AnswerDraft {
    draft.(confidence := Cap(draft.confidence, 0.3), limitationsNoted := true)
  }

  function CitationCritic(s: State, r: CriticReply): State {
    var t := s.(repair := None);
    if s.answer.None? then Failed(t)
    else
      var draft := s.answer.value;
      if draft.insufficientEvidence
      then t.(review := Some(CriticReview(draft.id, [], [], [], false, [])))
      else if s.evidence.None? || s.evidence.value.results == [] then Failed(t)
      else
        var review := NormalizeReview(r, draft);
        if review.None? then Failed(t) else ActOnReview(t, draft, review.value)
  }

  /** Keep the draft, mark it down, or send it back. */
  function ActOnReview(s: State, draft: AnswerDraft, review: CriticReview): State {
    var t := s.(review := Some(review));
    if !ShouldTriggerRepair(review) then t
    else if IsRepairExhausted(draft) then t.(answer := Some(Downgrade(draft)))
    else t.(answer := None, repair := Some(RepairContext(review.repairInstructions, draft.repairIteration + 1)))
  }

  // ----- terminal nodes and routes -----

  function ClarificationResponse(s: State): State {
    if Truthy(s.clarificationQuestion) then s
    else s.(needsClarification := true, clarificationQuestion := Some(PleaseClarify))
  }

  function AnalysisRequested(s: State): State {
    s.(needsAnalysis := true,
       clarificationQuestion := if Truthy(s.clarificationQuestion) then s.clarificationQuestion
                                else Some(SendTheUrl))
  }

  function DiscoveryRequested(s: State): State {
    s.(needsDiscovery := true,
       clarificationQuestion := if Truthy(s.clarificationQuestion) then s.clarificationQuestion
                                else Some(NoDiscovery))
  }

  datatype Node =
    | Router | Planner | Answerer | Critic | Clarify | AnalysisRequest | DiscoveryRequest | End

  function RouteAfterIntent(s: State): Node {
    if s.needsClarification then Clarify
    else if s.intent.Some? && IsQa(s.intent.value) then Planner
    else if s.intent == Some(AnalyzePaper) then AnalysisRequest
    else if s.intent == Some(Discover) then DiscoveryRequest
    else Clarify
  }

  function RouteAfterCritic(s: State): Node { if s.repair.Some? then Answerer else End }

  /** How every call of one run turns out; the two loop agents have one reply for each pass. */
  datatype Replies = Replies(router: RouterReply, replan: ReplanReply, answers: nat -> AnswerReply, reviews: nat -> CriticReply)

  /** Where a run is, and how often each agent ran. */
  datatype Config = Config(node: Node, state: State, routerRuns: nat, plannerRuns: nat, answerRuns: nat, criticRuns: nat)

  function AgentRuns(c: Config): nat { c.routerRuns + c.plannerRuns + c.answerRuns + c.criticRuns }

  function Start(q: Request): Config { Config(Router, Initial(q), 0, 0, 0, 0) }

  function Step(c: Config, q: Request, r: Replies): Config {
    match c.node
    case Router =>
      var s := IntentRouter(c.state, q, r.router);
      c.(node := RouteAfterIntent(s), state := s, routerRuns := c.routerRuns + 1)
    case Planner =>
      c.(node := Answerer, state := RetrievalPlanner(c.state, q, r.replan), plannerRuns := c.plannerRuns + 1)
    case Answerer =>
      c.(node := Critic, state := AnswerAgent(c.state, q, r.answers(c.answerRuns)), answerRuns := c.answerRuns + 1)
    case Critic =>
      var s := CitationCritic(c.state, r.reviews(c.criticRuns));
      c.(node := RouteAfterCritic(s), state := s, criticRuns := c.criticRuns + 1)
    case Clarify => c.(node := End, state := ClarificationResponse(c.state))
    case AnalysisRequest => c.(node := End, state := AnalysisRequested(c.state))
    case DiscoveryRequest => c.(node := End, state := DiscoveryRequested(c.state))
    case End => c
  }

  function Run(q: Request, r: Replies, n: nat): Config {
    if n == 0 then Start(q) else Step(Run(q, r, n - 1), q, r)
  }
}
