/** The batch analysis graph: the state record and its reducers (models/state.py), the
    nodes, the routers (agents/supervisor.py) and the edge relation (graph.py). A model
    or a download replies with an arbitrary `Reply`, one per pass over a paper; since
    no node is visited twice in a pass, that is every way the calls can turn out. */
module AnalysisGraph {
  import opened Wrappers
  import opened Schemas
  import opened Text
  import Downgrade

  // ----- state -----

  datatype Node =
    | Supervisor | Ingestion | Extraction | HumanReview | Benchmark | Readiness | Report
    | EvidenceCritic | ReportFinalize | ChunkAndIndex | PaperFailureFinalize | Comparator
    | ErrorNode | End

  datatype Stage =
    | Unset | AtIngestion | AtExtraction | AtBenchmark | AtReadiness | AtReport
    | AtReportFinalize | AtChunkAndIndex | AtPaperFailureFinalize | ComparisonCompleted
    | TopicSelection | Failed | Completed

  datatype TextSource = FromPdf | FromAbstract

  datatype ReviewReason = LowConfidence(confidence: real)

  /** The per-paper fields, all of which `_SCRATCH_RESET` lists, grouped by the node that writes them. */
  datatype Scratch = Scratch(
    source: Source, approach: Approach, measures: Measures, readiness: Option<ProductionReadiness>,
    written: Written, failure: Failure)

  datatype Source = Source(
    metadata: Option<PaperMetadata>, rawText: Option<string>, pdfPath: Option<string>,
    textByPage: Option<map<int, string>>, provenance: Option<TextSource>)

  datatype Approach = Approach(
    extraction: Option<MethodExtraction>, confidenceScores: map<Node, real>,
    needsHumanReview: bool, reviewReason: Option<ReviewReason>)

  datatype Measures = Measures(
    benchmarks: seq<BenchmarkResult>, candidates: seq<BenchmarkCandidate>, extractorVersion: Option<string>)

  datatype Written = Written(report: Option<EngineerReport>, markdown: Option<string>)

  datatype Failure = Failure(paperFailed: bool, reason: Option<string>, node: Option<Node>)

  const SCRATCH_RESET: Scratch :=
    Scratch(Source(None, None, None, None, None), Approach(None, map[], false, None),
            Measures([], [], None), None, Written(None, None), Failure(false, None, None))

  datatype InputType = Missing | Url | Pdf | TopicQuery | Unknown(name: string)

  /** The fields no node writes. */
  datatype Input = Input(inputType: InputType, inputValue: string, batchUrls: Option<seq<string>>, totalPapers: int)

  datatype IndexingStatus = NotIndexed | IndexingSkipped | IndexingSucceeded(chunkCount: nat) | IndexingFailed(error: string)

  datatype State = State(
    input: Input, papers: seq<PaperSlot>, scratch: Scratch, index: int, stage: Stage,
    errors: seq<StructuredError>, indexing: IndexingStatus, comparison: Option<string>)

  /** A request: a list of URLs, or one input of a given type. */
  datatype Request = Urls(urls: seq<string>) | Single(inputType: InputType, inputValue: string)

  function InputOf(q: Request): Input {
    match q
    case Urls(urls) => Input(Url, if urls == [] then "" else urls[0],
                             if |urls| > 1 then Some(urls) else None, |urls|)
    case Single(inputType, inputValue) => Input(inputType, inputValue, None, 1)
  }

  /** The state a request starts from. */
  function Initial(q: Request): State {
    State(InputOf(q), [], SCRATCH_RESET, 0, AtIngestion, [], NotIndexed, None)
  }

  // ----- partial updates and reducers -----

  datatype Change<+T> = Keep | Set(value: T)

  function Merge<T>(current: T, change: Change<T>): T {
    if change.Keep? then current else change.value
  }

  /** What a node returns: `papers` and `errors` are appended, a missing key keeps its value. */
  datatype Update = Update(
    papers: seq<PaperSlot>, errors: seq<StructuredError>, stage: Change<Stage>, index: Change<int>,
    scratch: Change<Scratch>, indexing: Change<IndexingStatus>, comparison: Change<Option<string>>)

  const NO_UPDATE := Update([], [], Keep, Keep, Keep, Keep, Keep)

  function Apply(s: State, u: Update): State {
    State(s.input, s.papers + u.papers, Merge(s.scratch, u.scratch), Merge(s.index, u.index),
          Merge(s.stage, u.stage), s.errors + u.errors, Merge(s.indexing, u.indexing),
          Merge(s.comparison, u.comparison))
  }

  // ----- error helpers (agents/error_utils.py) -----

  predicate IsBatch(input: Input) {
    input.batchUrls.Some? && |input.batchUrls.value| > 1 && input.totalPapers > 1
  }

  function MakeWarning(message: string): StructuredError {
    StructuredError(message, Warning, true)
  }

  function Warnings(messages: seq<string>): seq<StructuredError> {
    seq(|messages|, i requires 0 <= i < |messages| => MakeWarning(messages[i]))
  }

  function PaperError(s: State, message: string, node: Node): Update {
    NO_UPDATE.(
      stage := Set(if IsBatch(s.input) then AtPaperFailureFinalize else Failed),
      scratch := Set(MarkFailed(s.scratch, message, node)),
      errors := [StructuredError(message, Error, IsBatch(s.input))])
  }

  function MarkFailed(scratch: Scratch, message: string, node: Node): Scratch {
    scratch.(failure := Failure(true, Some(message), Some(node)))
  }

  function FatalError(s: State, message: string, node: Node): Update {
    NO_UPDATE.(
      stage := Set(Failed),
      scratch := Set(s.scratch.(failure := Failure(false, None, Some(node)))),
      errors := [StructuredError(message, Fatal, false)])
  }

  // ----- replies -----

  datatype IngestionReply =
    | Ingested(metadata: PaperMetadata, rawText: string, pdfPath: Option<string>,
               textByPage: Option<map<int, string>>, source: TextSource, warnings: seq<string>)
    | NotIngested(message: string)

  datatype ExtractionReply = Extracted(extraction: MethodExtraction, confidence: real) | NotExtracted(message: string)

  datatype BenchmarkReply =
    | Benchmarked(benchmarks: seq<BenchmarkResult>, warnings: seq<string>)
    | Unparsed(warnings: seq<string>)
    | NotBenchmarked(message: string)

  datatype ReadinessReply = Assessed(readiness: ProductionReadiness) | NotAssessed(message: string)

  datatype ReportReply = Reported(report: EngineerReport, markdown: string) | NotReported(message: string)

  /** Whether an indexed paper became active in its session. */
  datatype Marking = Marked | NoSuchSession(message: string) | NotMarked(message: string)

  datatype IndexReply = NoChunks | Indexed(chunkCount: nat, marking: Marking) | IndexError(message: string)

  /** How every call of one pass over a paper turns out. `review` is what the person who
      resumes an interrupted run put in place of the extraction, if anything. */
  datatype Reply = Reply(
    ingestion: IngestionReply, extraction: ExtractionReply, review: Change<Option<MethodExtraction>>,
    benchmark: BenchmarkReply, readiness: ReadinessReply, report: ReportReply,
    index: IndexReply, comparison: string)

  // ----- nodes -----

  predicate LooksLikeUrl(s: string) { Contains(s, "http://") || Contains(s, "https://") }

  datatype InputProblem =
    | NoInputType | UnknownInputType | NotAUrlBatch | TotalMismatch | NegativeIndex | IndexOutOfRange
    | BlankUrl | BadUrl | BlankInput | BadInput | TopicRoute

  function ProblemText(p: InputProblem): string {
    match p
    case NoInputType => "input_type is missing"
    case UnknownInputType => "Unknown input_type"
    case NotAUrlBatch => "batch mode currently supports only input_type='url'"
    case TotalMismatch => "total_papers mismatch"
    case NegativeIndex => "current_paper_index is invalid"
    case IndexOutOfRange => "batch_urls index out of range"
    case BlankUrl => "batch URL is empty"
    case BadUrl => "batch URL does not look like a URL"
    case BlankInput => "input_value is empty"
    case BadInput => "input_value does not look like a URL"
    case TopicRoute => "topic_query route requires supervisor implementation (Week 1 Day 5-7)"
  }

  const NO_TEXT := "Extraction: raw_text is empty"
  const NO_REPORT := "report_finalize requires engineer_report on success path"
  const NO_SLOT := "chunk_and_index requires a finalized PaperSlot"

  /** `_validate_input`: the first problem found, if any. */
  function ValidateInput(input: Input, index: int): Option<InputProblem> {
    if input.inputType.Missing? then Some(NoInputType)
    else if input.inputType.Unknown? then Some(UnknownInputType)
    else if IsBatch(input) then
      var urls := input.batchUrls.value;
      if !input.inputType.Url? then Some(NotAUrlBatch)
      else if input.totalPapers != |urls| then Some(TotalMismatch)
      else if index < 0 then Some(NegativeIndex)
      else if index >= |urls| then Some(IndexOutOfRange)
      else if IsBlank(urls[index]) then Some(BlankUrl)
      else if !LooksLikeUrl(urls[index]) then Some(BadUrl)
      else None
    else if IsBlank(input.inputValue) then Some(BlankInput)
    else if input.inputType.Url? && !LooksLikeUrl(input.inputValue) then Some(BadInput)
    else None
  }

  function SupervisorNode(s: State): Update {
    if s.stage.Unset? then
      NO_UPDATE.(stage := Set(Failed),
                 errors := [StructuredError("Supervisor: processing_stage is missing", Fatal, false)])
    else NO_UPDATE
  }

  function IngestionNode(s: State, r: IngestionReply): Update {
    var problem := ValidateInput(s.input, s.index);
    if problem.Some? then FatalError(s, ProblemText(problem.value), Ingestion)
    else if s.input.inputType.TopicQuery?
    then FatalError(s, ProblemText(TopicRoute), Ingestion)
    else match r
      case NotIngested(message) => PaperError(s, message, Ingestion)
      case Ingested(metadata, rawText, pdfPath, textByPage, source, warnings) =>
        NO_UPDATE.(
          stage := Set(AtExtraction),
          scratch := Set(s.scratch.(source := Source(Some(metadata), Some(rawText), pdfPath, textByPage, Some(source)))),
          errors := Warnings(warnings))
  }

  const CONFIDENCE_THRESHOLD: real := 0.7
  const ABSTRACT_CONFIDENCE_CAP: real := 0.5

  function Capped(confidence: real, provenance: Option<TextSource>): real {
    if provenance == Some(FromAbstract) && confidence > ABSTRACT_CONFIDENCE_CAP
    then ABSTRACT_CONFIDENCE_CAP
    else if confidence > 1.0 then 1.0 else confidence
  }

  function ExtractionNode(s: State, r: ExtractionReply): Update {
    if s.scratch.source.rawText.None? || IsBlank(s.scratch.source.rawText.value)
    then PaperError(s, NO_TEXT, Extraction)
    else match r
      case NotExtracted(message) => PaperError(s, message, Extraction)
      case Extracted(extraction, claimed) =>
        var confidence := Capped(claimed, s.scratch.source.provenance);
        var review := confidence < CONFIDENCE_THRESHOLD;
        NO_UPDATE.(
          stage := Set(AtBenchmark),
          scratch := Set(s.scratch.(approach := Approach(
            Some(extraction), s.scratch.approach.confidenceScores[Extraction := confidence],
            review, if review then Some(LowConfidence(confidence)) else None))))
  }

  /** The graph stops before this node; whoever resumes it may have replaced the extraction. */
  function HumanReviewNode(s: State, edit: Change<Option<MethodExtraction>>): Update {
    NO_UPDATE.(stage := Set(AtBenchmark),
               scratch := Set(s.scratch.(approach := Approach(
                 Merge(s.scratch.approach.extraction, edit), s.scratch.approach.confidenceScores, false, None))))
  }

  const EXTRACTOR_VERSION := "legacy_mirror_v1"

  function CandidateFrom(b: BenchmarkResult): BenchmarkCandidate {
    BenchmarkCandidate(b.task, b.metric, b.value, b.unit, b.conditions)
  }

  function Candidates(bs: seq<BenchmarkResult>): seq<BenchmarkCandidate> {
    seq(|bs|, i requires 0 <= i < |bs| => CandidateFrom(bs[i]))
  }

  function BenchmarkNode(s: State, r: BenchmarkReply): Update {
    match r
    case NotBenchmarked(message) => PaperError(s, message, Benchmark)
    case Unparsed(warnings) =>
      NO_UPDATE.(stage := Set(AtReadiness), errors := Warnings(warnings),
                 scratch := Set(s.scratch.(measures := Measures([], [], Some(EXTRACTOR_VERSION)))))
    case Benchmarked(bs, warnings) =>
      NO_UPDATE.(stage := Set(AtReadiness), errors := Warnings(warnings),
                 scratch := Set(s.scratch.(measures := Measures(bs, Candidates(bs), Some(EXTRACTOR_VERSION)))))
  }

  function ReadinessNode(s: State, r: ReadinessReply): Update {
    match r
    case NotAssessed(message) => PaperError(s, message, Readiness)
    case Assessed(readiness) =>
      NO_UPDATE.(stage := Set(AtReport), scratch := Set(s.scratch.(readiness := Some(readiness))))
  }

  function DegradationNotes(s: Scratch): seq<string> {
    (if s.approach.extraction.None? then ["Report warning: method_extraction missing"] else []) +
    (if s.measures.benchmarks == [] then ["Report warning: benchmarks missing or empty"] else []) +
    (if s.readiness.None? then ["Report warning: production_readiness missing"] else [])
  }

  function ReportNode(s: State, r: ReportReply): Update {
    match r
    case NotReported(message) => PaperError(s, message, Report)
    case Reported(report, markdown) =>
      NO_UPDATE.(stage := Set(Completed), errors := Warnings(DegradationNotes(s.scratch)),
                 scratch := Set(s.scratch.(written := Written(Some(report), Some(markdown)))))
  }

  function NoteText(n: Downgrade.CriticNote): string {
    match n
    case NoBenchmarks => "Evidence Critic downgraded report: implement_now without benchmark evidence"
    case NoReadiness => "Evidence Critic downgraded report: production readiness unavailable"
    case WeakMaturity => "Evidence Critic downgraded report: maturity is research_only"
  }

  function NoteTexts(notes: seq<Downgrade.CriticNote>): seq<string> {
    seq(|notes|, i requires 0 <= i < |notes| => NoteText(notes[i]))
  }

  function EvidenceCriticNode(s: State): Update {
    if s.scratch.written.report.None? then NO_UPDATE
    else
      var (report, notes) := Downgrade.Critic(s.scratch.written.report.value, s.scratch.measures.benchmarks, s.scratch.readiness);
      if notes == [] then NO_UPDATE
      else NO_UPDATE.(scratch := Set(s.scratch.(written := s.scratch.written.(report := Some(report)))),
                      errors := Warnings(NoteTexts(notes)))
  }

  function CurrentUrl(input: Input, index: int): Result<string> {
    if IsBatch(input) then
      if 0 <= index < |input.batchUrls.value| then Ok(input.batchUrls.value[index])
      else Err("batch_urls index out of range")
    else Ok(input.inputValue)
  }

  function ReportFinalizeNode(s: State): Update {
    if s.index < 0 then FatalError(s, "invalid current_paper_index", ReportFinalize)
    else if s.scratch.written.report.None? then FatalError(s, NO_REPORT, ReportFinalize)
    else match CurrentUrl(s.input, s.index)
      case Err(message) => FatalError(s, message, ReportFinalize)
      case Ok(url) =>
        NO_UPDATE.(
          papers := [PaperSlot(s.index, url, s.scratch.source.metadata, s.scratch.approach.extraction,
                               s.scratch.measures.benchmarks, s.scratch.measures.candidates, s.scratch.measures.extractorVersion,
                               s.scratch.readiness, s.scratch.written.report, s.scratch.written.markdown,
                               Messages(s.errors), true)],
          index := Set(s.index + 1), stage := Set(AtReportFinalize))
  }

  function NodeName(node: Node): string {
    match node
    case Supervisor => "supervisor"
    case Ingestion => "ingestion"
    case Extraction => "extraction"
    case HumanReview => "human_review"
    case Benchmark => "benchmark"
    case Readiness => "readiness"
    case Report => "report"
    case EvidenceCritic => "evidence_critic"
    case ReportFinalize => "report_finalize"
    case ChunkAndIndex => "chunk_and_index"
    case PaperFailureFinalize => "paper_failure_finalize"
    case Comparator => "comparator"
    case ErrorNode => "error"
    case End => "end"
  }

  function NodeMarker(node: Node): string { "Failed at node: " + NodeName(node) }

  function SlotErrors(s: State): seq<string> {
    var e0 := Messages(s.errors);
    var reason := s.scratch.failure.reason;
    var e1 := if reason.Some? && reason.value != "" && reason.value !in e0 then e0 + [reason.value] else e0;
    var node := s.scratch.failure.node;
    if node.Some? && NodeMarker(node.value) !in e1 then e1 + [NodeMarker(node.value)] else e1
  }

  function PaperFailureFinalizeNode(s: State): Update {
    if s.index < 0 then FatalError(s, "invalid current_paper_index", PaperFailureFinalize)
    else match CurrentUrl(s.input, s.index)
      case Err(message) => FatalError(s, message, PaperFailureFinalize)
      case Ok(url) =>
        NO_UPDATE.(
          papers := [PaperSlot(s.index, url, s.scratch.source.metadata, s.scratch.approach.extraction,
                               s.scratch.measures.benchmarks, [], None,
                               s.scratch.readiness, s.scratch.written.report, s.scratch.written.markdown,
                               SlotErrors(s), false)],
          index := Set(s.index + 1), stage := Set(AtPaperFailureFinalize), scratch := Set(SCRATCH_RESET))
  }

  function MarkingErrors(m: Marking): seq<StructuredError> {
    match m
    case Marked => []
    case NoSuchSession(message) => [StructuredError(message, Error, false)]
    case NotMarked(message) => [MakeWarning(message)]
  }

  function ChunkAndIndexNode(s: State, r: IndexReply): Update {
    var done := NO_UPDATE.(stage := Set(AtChunkAndIndex), scratch := Set(SCRATCH_RESET));
    if s.papers == [] then
      done.(indexing := Set(IndexingFailed(NO_SLOT)),
            errors := [MakeWarning(NO_SLOT)])
    else match r
      case NoChunks => done.(indexing := Set(IndexingSkipped))
      case Indexed(count, marking) =>
        done.(indexing := Set(IndexingSucceeded(count)), errors := MarkingErrors(marking))
      case IndexError(message) =>
        done.(indexing := Set(IndexingFailed(message)), errors := [MakeWarning(message)])
  }

  function ComparatorNode(s: State, markdown: string): Update {
    if |s.papers| < 2 then
      NO_UPDATE.(comparison := Set(None),
                 errors := [MakeWarning("Comparator skipped: fewer than two papers")])
    else NO_UPDATE.(comparison := Set(Some(markdown)), stage := Set(ComparisonCompleted))
  }

  // ----- edges -----

  function RouteSupervisorEntry(s: State): Node {
    match s.stage
    case Failed => ErrorNode
    case AtIngestion => Ingestion
    case _ => End
  }

  function RouteAfterIngestion(s: State): Node {
    match s.stage
    case Failed => ErrorNode
    case AtPaperFailureFinalize => PaperFailureFinalize
    case TopicSelection => End
    case AtExtraction => Extraction
    case _ => ErrorNode
  }

  function RouteAfterExtraction(s: State): Node {
    match s.stage
    case Failed => ErrorNode
    case AtPaperFailureFinalize => PaperFailureFinalize
    case _ => if s.scratch.approach.needsHumanReview then HumanReview
              else if s.stage == AtBenchmark then Benchmark else ErrorNode
  }

  function RouteAfterBenchmark(s: State): Node {
    match s.stage
    case Failed => ErrorNode
    case AtPaperFailureFinalize => PaperFailureFinalize
    case AtReadiness => Readiness
    case _ => ErrorNode
  }

  function RouteAfterReadiness(s: State): Node {
    match s.stage
    case Failed => ErrorNode
    case AtPaperFailureFinalize => PaperFailureFinalize
    case AtReport => Report
    case _ => ErrorNode
  }

  function RouteAfterFinalize(s: State): Node {
    if s.index < s.input.totalPapers then Ingestion
    else if |s.papers| >= 2 then Comparator
    else End
  }

  function NodeUpdate(node: Node, s: State, r: Reply): Update {
    match node
    case Supervisor => SupervisorNode(s)
    case Ingestion => IngestionNode(s, r.ingestion)
    case Extraction => ExtractionNode(s, r.extraction)
    case HumanReview => HumanReviewNode(s, r.review)
    case Benchmark => BenchmarkNode(s, r.benchmark)
    case Readiness => ReadinessNode(s, r.readiness)
    case Report => ReportNode(s, r.report)
    case EvidenceCritic => EvidenceCriticNode(s)
    case ReportFinalize => ReportFinalizeNode(s)
    case ChunkAndIndex => ChunkAndIndexNode(s, r.index)
    case PaperFailureFinalize => PaperFailureFinalizeNode(s)
    case Comparator => ComparatorNode(s, r.comparison)
    case ErrorNode => NO_UPDATE.(stage := Set(Failed))
    case End => NO_UPDATE
  }

  /** The edge taken out of `node`, given the state after its update. */
  function Next(node: Node, s: State): Node {
    match node
    case Supervisor => RouteSupervisorEntry(s)
    case Ingestion => RouteAfterIngestion(s)
    case Extraction => RouteAfterExtraction(s)
    case HumanReview => Benchmark
    case Benchmark => RouteAfterBenchmark(s)
    case Readiness => RouteAfterReadiness(s)
    case Report => EvidenceCritic
    case EvidenceCritic => ReportFinalize
    case ReportFinalize => ChunkAndIndex
    case ChunkAndIndex => RouteAfterFinalize(s)
    case PaperFailureFinalize => RouteAfterFinalize(s)
    case Comparator => End
    case ErrorNode => End
    case End => End
  }

  // ----- runs -----

  /** A call of the chunker: the slot it is filed under, the text, and whose text that is. */
  datatype ChunkCall = ChunkCall(
    paperIndex: int, inputUrl: string, metadata: Option<PaperMetadata>, rawText: Option<string>, pass: nat, owner: int)

  /** Where a run is, with what it has done so far: visits made, passes finished, report
      calls that failed, the paper the last ingestion read, the pass and the error count each
      slot was recorded at, and the chunker calls. The nodes read only `state`. */
  datatype Config = Config(
    node: Node, state: State, pass: nat, visits: nat, failedReports: nat, reading: int,
    slotPass: seq<nat>, errorMark: seq<nat>, chunked: seq<ChunkCall>, errored: bool)

  function Start(q: Request): Config {
    Config(Supervisor, Initial(q), 0, 0, 0, 0, [], [], [], false)
  }

  function ChunkCallOf(c: Config): seq<ChunkCall> {
    if c.node.ChunkAndIndex? && c.state.papers != [] then
      var slot := c.state.papers[|c.state.papers| - 1];
      [ChunkCall(slot.paperIndex, slot.inputUrl, c.state.scratch.source.metadata, c.state.scratch.source.rawText,
                 c.pass, c.reading)]
    else []
  }

  /** The configuration after the node's update u, in a pass with replies r. */
  function Advance(c: Config, u: Update, r: Reply): Config {
    var s := Apply(c.state, u);
    Config(
      Next(c.node, s), s,
      if c.node.ChunkAndIndex? || c.node.PaperFailureFinalize? then c.pass + 1 else c.pass,
      c.visits + 1,
      if c.node.Report? && r.report.NotReported? then c.failedReports + 1 else c.failedReports,
      if c.node.Ingestion? then c.state.index else c.reading,
      if u.papers != [] then c.slotPass + [c.pass] else c.slotPass,
      if u.papers != [] then c.errorMark + [|c.state.errors|] else c.errorMark,
      c.chunked + ChunkCallOf(c),
      c.errored || c.node.ErrorNode?)
  }

  function Step(c: Config, oracle: nat -> Reply): Config {
    if c.node.End? then c
    else Advance(c, NodeUpdate(c.node, c.state, oracle(c.pass)), oracle(c.pass))
  }

  /** The configuration after n steps. */
  function Run(q: Request, oracle: nat -> Reply, n: nat): Config {
    if n == 0 then Start(q) else Step(Run(q, oracle, n - 1), oracle)
  }

  /** What holds at the start and is kept by every step holds throughout every run. */
  lemma {:induction false} Throughout(p: Config -> bool, q: Request, oracle: nat -> Reply, n: nat)
    requires p(Start(q)) && forall c :: p(c) ==> p(Step(c, oracle))
    ensures p(Run(q, oracle, n))
  {
    if n > 0 { Throughout(p, q, oracle, n - 1); }
  }
}
