/** What holds of every run of the analysis graph. */
module AnalysisRuns {
  import opened Wrappers
  import opened Schemas
  import opened Text
  import opened AnalysisGraph
  import Downgrade

  // ----- the reference: what one pass over one paper should record -----

  /** How a pass ends, read off the replies without running the graph. */
  datatype Verdict = Rejected(problem: InputProblem) | Broken(at: Node, message: string) | Unreported | Done

  function PassVerdict(q: Request, index: int, r: Reply): Verdict {
    var problem := ValidateInput(InputOf(q), index);
    if problem.Some? then Rejected(problem.value)
    else if InputOf(q).inputType.TopicQuery? then Rejected(TopicRoute)
    else if r.ingestion.NotIngested? then Broken(Ingestion, r.ingestion.message)
    else if IsBlank(r.ingestion.rawText) then Broken(Extraction, "Extraction: raw_text is empty")
    else if r.extraction.NotExtracted? then Broken(Extraction, r.extraction.message)
    else if r.benchmark.NotBenchmarked? then Broken(Benchmark, r.benchmark.message)
    else if r.readiness.NotAssessed? then Broken(Readiness, r.readiness.message)
    else if r.report.NotReported? then Unreported
    else Done
  }

  /** Only the abstract was there to read, or the model is not sure enough. */
  predicate NeedsReview(r: Reply)
    requires r.ingestion.Ingested? && r.extraction.Extracted?
  {
    r.ingestion.source == FromAbstract || r.extraction.confidence < 0.7
  }

  /** The model's confidence, at most 1, and at most 0.5 for an abstract. */
  function Score(r: Reply): real
    requires r.ingestion.Ingested? && r.extraction.Extracted?
  {
    var limit := if r.ingestion.source == FromAbstract then 0.5 else 1.0;
    if r.extraction.confidence <= limit then r.extraction.confidence else limit
  }

  /** The extraction later nodes see: the one put in its place if the run stopped for review, else the model's. */
  function FinalExtraction(r: Reply): Option<MethodExtraction>
    requires r.ingestion.Ingested? && r.extraction.Extracted?
  {
    if NeedsReview(r) then Merge(Some(r.extraction.extraction), r.review) else Some(r.extraction.extraction)
  }

  function FinalBenchmarks(r: Reply): seq<BenchmarkResult> {
    if r.benchmark.Benchmarked? then r.benchmark.benchmarks else []
  }

  function FinalReport(r: Reply): EngineerReport
    requires r.report.Reported? && r.readiness.Assessed?
  {
    Downgrade.Critic(r.report.report, FinalBenchmarks(r), Some(r.readiness.readiness)).0
  }

  function UrlOf(q: Request, index: int): string {
    match q
    case Single(_, inputValue) => inputValue
    case Urls(urls) => if 0 <= index < |urls| then urls[index] else ""
  }

  /** The slot of paper `index`, apart from its error list: it depends on that paper's URL
      and on the replies of that pass, and on nothing else. */
  function ReferenceSlot(q: Request, index: int, r: Reply): PaperSlot {
    var v := PassVerdict(q, index, r);
    PaperSlot(
      index, UrlOf(q, index),
      if r.ingestion.Ingested? then Some(r.ingestion.metadata) else None,
      if v.Done? || (v.Broken? && v.at in {Benchmark, Readiness}) then FinalExtraction(r) else None,
      if v.Done? || (v.Broken? && v.at == Readiness) then FinalBenchmarks(r) else [],
      if v.Done? then Candidates(FinalBenchmarks(r)) else [],
      if v.Done? then Some(EXTRACTOR_VERSION) else None,
      if v.Done? then Some(r.readiness.readiness) else None,
      if v.Done? then Some(FinalReport(r)) else None,
      if v.Done? then Some(r.report.markdown) else None,
      [], v.Done?)
  }

  // ----- what the scratch fields hold on arrival at each node -----

  function AfterIngestion(r: Reply): Scratch
    requires r.ingestion.Ingested?
  {
    SCRATCH_RESET.(source := Source(Some(r.ingestion.metadata), Some(r.ingestion.rawText), r.ingestion.pdfPath,
                                    r.ingestion.textByPage, Some(r.ingestion.source)))
  }

  function AfterExtraction(r: Reply): Scratch
    requires r.ingestion.Ingested? && r.extraction.Extracted?
  {
    AfterIngestion(r).(approach := Approach(
      Some(r.extraction.extraction), map[Extraction := Score(r)], NeedsReview(r),
      if NeedsReview(r) then Some(LowConfidence(Score(r))) else None))
  }

  function BeforeBenchmark(r: Reply): Scratch
    requires r.ingestion.Ingested? && r.extraction.Extracted?
  {
    AfterIngestion(r).(approach := Approach(FinalExtraction(r), map[Extraction := Score(r)], false, None))
  }

  function AfterBenchmark(r: Reply): Scratch
    requires r.ingestion.Ingested? && r.extraction.Extracted?
  {
    BeforeBenchmark(r).(measures := Measures(FinalBenchmarks(r), Candidates(FinalBenchmarks(r)), Some(EXTRACTOR_VERSION)))
  }

  function AfterReadiness(r: Reply): Scratch
    requires r.ingestion.Ingested? && r.extraction.Extracted? && r.readiness.Assessed?
  {
    AfterBenchmark(r).(readiness := Some(r.readiness.readiness))
  }

  function AfterReport(r: Reply): Scratch
    requires r.ingestion.Ingested? && r.extraction.Extracted? && r.readiness.Assessed? && r.report.Reported?
  {
    AfterReadiness(r).(written := Written(Some(r.report.report), Some(r.report.markdown)))
  }

  /** The scratch fields of a pass that broke off at a node. */
  function WhenBroken(r: Reply, at: Node): Option<Scratch> {
    match at
    case Ingestion => Some(SCRATCH_RESET)
    case Extraction => if r.ingestion.Ingested? then Some(AfterIngestion(r)) else None
    case Benchmark => if r.ingestion.Ingested? && r.extraction.Extracted? then Some(BeforeBenchmark(r)) else None
    case Readiness => if r.ingestion.Ingested? && r.extraction.Extracted? then Some(AfterBenchmark(r)) else None
    case _ => None
  }

  /** The scratch fields of a pass given up or broken off: what it had found, and the failure. */
  predicate LeavesBehind(v: Verdict, r: Reply, s: Scratch) {
    match v
    case Rejected(_) => s == SCRATCH_RESET.(failure := Failure(false, None, Some(Ingestion)))
    case Broken(at, message) =>
      && WhenBroken(r, at).Some?
      && s == WhenBroken(r, at).value.(failure := Failure(true, Some(message), Some(at)))
    case _ => true
  }

  /** On the way through a pass: the paper is accepted and every call before `node` went well. */
  predicate Reached(node: Node, q: Request, index: int, r: Reply) {
    var v := PassVerdict(q, index, r);
    && !v.Rejected?
    && r.ingestion.Ingested?
    && (node.Extraction? ||
       (&& !IsBlank(r.ingestion.rawText) && r.extraction.Extracted?
        && (node.HumanReview? || node.Benchmark? ||
           (&& !r.benchmark.NotBenchmarked?
            && (node.Readiness? || r.readiness.Assessed?)))))
  }

  predicate MoreToRead(s: State) { s.index < s.input.totalPapers || s.input.totalPapers <= 0 }

  /** What is known at each node of the current pass. */
  ghost predicate AtNode(q: Request, oracle: nat -> Reply, c: Config) {
    var s, r := c.state, oracle(c.pass);
    match c.node
    case Supervisor => s.stage == AtIngestion && s.index == 0 && BeforeReading(s)
    case Ingestion => BeforeReading(s)
    case Extraction => AtExtractionNode(q, c, r)
    case HumanReview => AtHumanReview(q, c, r)
    case Benchmark => AtBenchmarkNode(q, c, r)
    case Readiness => AtReadinessNode(q, c, r)
    case Report => AtReportNode(q, c, r)
    case EvidenceCritic => AtEvidenceCritic(q, c, r)
    case ReportFinalize => AtReportFinalizeNode(q, c, r)
    case ChunkAndIndex => AtChunkAndIndexNode(q, c, r)
    case PaperFailureFinalize => AtPaperFailure(q, c, r)
    case Comparator => Finished(s) && |s.papers| >= 2
    case ErrorNode => Abandoned(q, c, r)
    case End =>
      if c.errored then Abandoned(q, c, r)
      else && Finished(s) && s.comparison == (if |s.papers| >= 2 then Some(r.comparison) else None)
           && s.stage == if |s.papers| >= 2 then ComparisonCompleted else AtChunkAndIndex
  }

  predicate BeforeReading(s: State) { s.scratch == SCRATCH_RESET && MoreToRead(s) }

  /** All papers are read, and nothing of the last one is left. */
  predicate Finished(s: State) {
    s.index == s.input.totalPapers && s.scratch == SCRATCH_RESET && !s.stage.Failed?
  }

  ghost predicate AtExtractionNode(q: Request, c: Config, r: Reply) {
    InPass(Extraction, q, c, r) && c.state.scratch == AfterIngestion(r)
  }

  ghost predicate AtHumanReview(q: Request, c: Config, r: Reply) {
    InPass(HumanReview, q, c, r) && NeedsReview(r) && c.state.scratch == AfterExtraction(r)
  }

  ghost predicate AtBenchmarkNode(q: Request, c: Config, r: Reply) {
    InPass(Benchmark, q, c, r) && c.state.scratch == BeforeBenchmark(r)
  }

  ghost predicate AtReadinessNode(q: Request, c: Config, r: Reply) {
    InPass(Readiness, q, c, r) && c.state.scratch == AfterBenchmark(r)
  }

  ghost predicate AtReportNode(q: Request, c: Config, r: Reply) {
    InPass(Report, q, c, r) && c.state.scratch == AfterReadiness(r)
  }

  ghost predicate AtEvidenceCritic(q: Request, c: Config, r: Reply) {
    InPass(EvidenceCritic, q, c, r) && c.state.scratch == ReportedOrFailed(r, false)
  }

  ghost predicate AtReportFinalizeNode(q: Request, c: Config, r: Reply) {
    InPass(ReportFinalize, q, c, r) && c.state.scratch == ReportedOrFailed(r, true)
  }

  ghost predicate AtChunkAndIndexNode(q: Request, c: Config, r: Reply) {
    && Reached(Report, q, c.reading, r)
    && c.state.scratch.source == AfterIngestion(r).source
    && (if r.report.Reported? then c.state.index == c.reading + 1
        else c.state.index == c.reading && MoreToRead(c.state))
  }

  ghost predicate AtPaperFailure(q: Request, c: Config, r: Reply) {
    var s, v := c.state, PassVerdict(q, c.reading, r);
    && v.Broken? && s.index == c.reading && MoreToRead(s) && IsBatch(s.input)
    && LeavesBehind(v, r, s.scratch)
    && s.errors != [] && s.errors[|s.errors| - 1].message == v.message
  }

  ghost predicate InPass(node: Node, q: Request, c: Config, r: Reply) {
    Reached(node, q, c.reading, r) && c.state.index == c.reading && MoreToRead(c.state)
  }

  function ReportedOrFailed(r: Reply, reviewed: bool): Scratch
    requires r.ingestion.Ingested? && r.extraction.Extracted? && r.readiness.Assessed?
  {
    if r.report.NotReported? then AfterReadiness(r).(failure := Failure(true, Some(r.report.message), Some(Report)))
    else if reviewed then AfterReadiness(r).(written := Written(Some(FinalReport(r)), Some(r.report.markdown)))
    else AfterReport(r)
  }

  /** The only reasons a run is given up. */
  ghost predicate Abandoned(q: Request, c: Config, r: Reply) {
    var v := PassVerdict(q, c.reading, r);
    && (v.Rejected? || (v.Broken? && !IsBatch(InputOf(q))))
    && LeavesBehind(v, r, c.state.scratch)
    && c.state.index == c.reading && MoreToRead(c.state)
  }

  /** Counters and fields that every node keeps in step. */
  ghost predicate InStep(q: Request, c: Config) {
    && c.state.input == InputOf(q)
    && |c.state.papers| == c.state.index == |c.slotPass| == |c.errorMark|
    && c.state.index <= c.state.input.totalPapers
    && (c.errored ==> c.node.End? && c.state.comparison.None? && c.state.stage.Failed?)
    && (c.state.comparison.Some? ==> c.node.End? && c.state.stage == ComparisonCompleted)
  }

  ghost predicate Tracks(q: Request, oracle: nat -> Reply, c: Config) {
    InStep(q, c) && AtNode(q, oracle, c)
  }

  // ----- visits -----

  /** How many visits a configuration may have made: nine for each recorded slot and each
      failed report, and the distance covered in the current pass. */
  function Allowance(c: Config): int {
    var passes := 9 * (c.state.index + c.failedReports);
    match c.node
    case Supervisor => passes
    case Ingestion => 1 + passes
    case Extraction => 2 + passes
    case HumanReview => 3 + passes
    case Benchmark => 4 + passes
    case Readiness => 5 + passes
    case Report => 6 + passes
    case EvidenceCritic => 7 + passes - (if c.state.scratch.written.report.Some? then 0 else 9)
    case ReportFinalize => 8 + passes - (if c.state.scratch.written.report.Some? then 0 else 9)
    case ChunkAndIndex => passes
    case PaperFailureFinalize => 6 + passes
    case Comparator => 1 + passes
    case ErrorNode => 6 + passes
    case End => if c.errored then 7 + passes else 2 + passes
  }

  predicate Advances(c: Config, d: Config) {
    && d.visits == c.visits + 1
    && d.visits - Allowance(d) <= c.visits - Allowance(c)
    && d.failedReports >= c.failedReports && d.state.index >= c.state.index
    && c.state.errors <= d.state.errors
  }

  // ----- one step -----

  /** Nothing is recorded. */
  predicate SameSlots(c: Config, d: Config) {
    d.state.papers == c.state.papers && d.slotPass == c.slotPass && d.errorMark == c.errorMark
  }

  /** One slot is recorded: the reference slot of this pass, with the messages so far. */
  predicate OneMoreSlot(q: Request, r: Reply, c: Config, d: Config) {
    && |d.state.papers| == |c.state.papers| + 1
    && d.state.papers[..|c.state.papers|] == c.state.papers
    && d.slotPass == c.slotPass + [c.pass] && d.errorMark == c.errorMark + [|c.state.errors|]
    && SlotFromPass(q, |c.state.papers|, r, d.state.papers[|c.state.papers|])
    && SlotErrorsOf(q, |c.state.papers|, r, Messages(c.state.errors), d.state.papers[|c.state.papers|])
  }

  predicate SlotFromPass(q: Request, k: int, r: Reply, slot: PaperSlot) {
    var v := PassVerdict(q, k, r);
    && slot.(errors := []) == ReferenceSlot(q, k, r)
    && (v.Done? || (v.Broken? && IsBatch(InputOf(q))))
  }

  /** A finished paper records every message so far; a failed one adds the node it failed at. */
  predicate SlotErrorsOf(q: Request, k: int, r: Reply, messages: seq<string>, slot: PaperSlot) {
    var v := PassVerdict(q, k, r);
    slot.errors == if v.Broken? && FailedAt(v.at) !in messages
                   then messages + [FailedAt(v.at)] else messages
  }

  /** The line that names the node a pass broke off at. */
  function FailedAt(at: Node): string {
    match at
    case Ingestion => "Failed at node: ingestion"
    case Extraction => "Failed at node: extraction"
    case Benchmark => "Failed at node: benchmark"
    case _ => "Failed at node: readiness"
  }

  lemma {:induction false} MarkersNameNodes()
    ensures forall at :: at in {Ingestion, Extraction, Benchmark, Readiness} ==> NodeMarker(at) == FailedAt(at)
  {}

  lemma {:induction false} FromSupervisor(q: Request, c: Config, r: Reply)
    requires c.node.Supervisor? && InStep(q, c) && c.state.stage == AtIngestion && c.state.index == 0 && BeforeReading(c.state)
    ensures var d := Advance(c, SupervisorNode(c.state), r);
      && InStep(q, d) && Advances(c, d)
      && SameSlots(c, d) && d.node.Ingestion? && BeforeReading(d.state)
  {
  }

  /** A call that fails at a node breaks the pass off: for the paper in a batch, else for the run. */
  lemma {:induction false} PassBreaks(q: Request, c: Config, r: Reply, at: Node, message: string)
    requires c.node == at && at in {Ingestion, Extraction, Benchmark, Readiness}
    requires InStep(q, c) && MoreToRead(c.state) && (at.Ingestion? || c.state.index == c.reading)
    requires PassVerdict(q, c.state.index, r) == Broken(at, message) && WhenBroken(r, at) == Some(c.state.scratch)
    ensures var d := Advance(c, PaperError(c.state, message, at), r);
      && InStep(q, d) && Advances(c, d) && SameSlots(c, d)
      && (if IsBatch(InputOf(q)) then d.node.PaperFailureFinalize? && AtPaperFailure(q, d, r)
          else d.node.ErrorNode? && Abandoned(q, d, r))
  {
    PaperErrorStops(c, r, at, message);
  }

  /** What an update for a paper error does at any of these nodes. */
  lemma {:induction false} PaperErrorStops(c: Config, r: Reply, at: Node, message: string)
    requires c.node == at && at in {Ingestion, Extraction, Benchmark, Readiness}
    ensures var d := Advance(c, PaperError(c.state, message, at), r);
      && d.node == (if IsBatch(c.state.input) then PaperFailureFinalize else ErrorNode)
      && d.state.input == c.state.input && d.state.index == c.state.index && SameSlots(c, d)
      && d.state.scratch == c.state.scratch.(failure := Failure(true, Some(message), Some(at)))
      && d.state.errors == c.state.errors + [StructuredError(message, Error, IsBatch(c.state.input))]
      && d.reading == (if at.Ingestion? then c.state.index else c.reading)
      && d.failedReports == c.failedReports && d.pass == c.pass
  {
  }

  lemma {:induction false} FromIngestion(q: Request, c: Config, r: Reply)
    requires c.node.Ingestion? && InStep(q, c) && BeforeReading(c.state)
    ensures var d := Advance(c, IngestionNode(c.state, r.ingestion), r);
      && InStep(q, d) && Advances(c, d)
      && SameSlots(c, d)
      && (d.node.PaperFailureFinalize? || d.node.ErrorNode? || d.node.Extraction?)
      && (d.node.PaperFailureFinalize? ==> AtPaperFailure(q, d, r))
      && (d.node.ErrorNode? ==> Abandoned(q, d, r))
      && (d.node.Extraction? ==> AtExtractionNode(q, d, r))
  {
    var v := PassVerdict(q, c.state.index, r);
    if v.Rejected? {
      InputRejected(q, c, r);
    } else if r.ingestion.NotIngested? {
      PassBreaks(q, c, r, Ingestion, r.ingestion.message);
    } else {
      InputIngested(q, c, r);
    }
  }

  lemma {:induction false} InputRejected(q: Request, c: Config, r: Reply)
    requires c.node.Ingestion? && InStep(q, c) && BeforeReading(c.state) && PassVerdict(q, c.state.index, r).Rejected?
    ensures var d := Advance(c, IngestionNode(c.state, r.ingestion), r);
      && InStep(q, d) && Advances(c, d)
      && SameSlots(c, d) && d.node.ErrorNode? && Abandoned(q, d, r)
  {
  }

  lemma {:induction false} InputIngested(q: Request, c: Config, r: Reply)
    requires c.node.Ingestion? && InStep(q, c) && BeforeReading(c.state)
    requires !PassVerdict(q, c.state.index, r).Rejected? && r.ingestion.Ingested?
    ensures var d := Advance(c, IngestionNode(c.state, r.ingestion), r);
      && InStep(q, d) && Advances(c, d)
      && SameSlots(c, d) && d.node.Extraction? && AtExtractionNode(q, d, r)
  {
  }

  lemma {:induction false} FromExtraction(q: Request, c: Config, r: Reply)
    requires c.node.Extraction? && InStep(q, c) && AtExtractionNode(q, c, r)
    ensures var d := Advance(c, ExtractionNode(c.state, r.extraction), r);
      && InStep(q, d) && Advances(c, d)
      && SameSlots(c, d)
      && (d.node.PaperFailureFinalize? || d.node.ErrorNode? || d.node.HumanReview? || d.node.Benchmark?)
      && (d.node.PaperFailureFinalize? ==> AtPaperFailure(q, d, r))
      && (d.node.ErrorNode? ==> Abandoned(q, d, r))
      && (d.node.HumanReview? ==> AtHumanReview(q, d, r))
      && (d.node.Benchmark? ==> AtBenchmarkNode(q, d, r))
  {
    if IsBlank(r.ingestion.rawText) {
      PassBreaks(q, c, r, Extraction, NO_TEXT);
    } else if r.extraction.NotExtracted? {
      PassBreaks(q, c, r, Extraction, r.extraction.message);
    } else {
      ExtractionSucceeds(q, c, r);
    }
  }

  lemma {:induction false} ExtractionSucceeds(q: Request, c: Config, r: Reply)
    requires c.node.Extraction? && InStep(q, c) && AtExtractionNode(q, c, r)
    requires !IsBlank(r.ingestion.rawText) && r.extraction.Extracted?
    ensures var d := Advance(c, ExtractionNode(c.state, r.extraction), r);
      && InStep(q, d) && Advances(c, d) && SameSlots(c, d)
      && (if NeedsReview(r) then d.node.HumanReview? && AtHumanReview(q, d, r)
          else d.node.Benchmark? && AtBenchmarkNode(q, d, r))
  {
    var d := Advance(c, ExtractionNode(c.state, r.extraction), r);
    assert d.state.scratch == AfterExtraction(r);
  }

  lemma {:induction false} FromHumanReview(q: Request, c: Config, r: Reply)
    requires c.node.HumanReview? && InStep(q, c) && AtHumanReview(q, c, r)
    ensures var d := Advance(c, HumanReviewNode(c.state, r.review), r);
      && InStep(q, d) && Advances(c, d)
      && SameSlots(c, d) && d.node.Benchmark? && AtBenchmarkNode(q, d, r)
  {
  }

  lemma {:induction false} FromBenchmark(q: Request, c: Config, r: Reply)
    requires c.node.Benchmark? && InStep(q, c) && AtBenchmarkNode(q, c, r)
    ensures var d := Advance(c, BenchmarkNode(c.state, r.benchmark), r);
      && InStep(q, d) && Advances(c, d)
      && SameSlots(c, d)
      && (d.node.PaperFailureFinalize? || d.node.ErrorNode? || d.node.Readiness?)
      && (d.node.PaperFailureFinalize? ==> AtPaperFailure(q, d, r))
      && (d.node.ErrorNode? ==> Abandoned(q, d, r))
      && (d.node.Readiness? ==> AtReadinessNode(q, d, r))
  {
    if r.benchmark.NotBenchmarked? {
      PassBreaks(q, c, r, Benchmark, r.benchmark.message);
    } else {
      BenchmarkSucceeds(q, c, r);
    }
  }

  lemma {:induction false} BenchmarkSucceeds(q: Request, c: Config, r: Reply)
    requires c.node.Benchmark? && InStep(q, c) && AtBenchmarkNode(q, c, r) && !r.benchmark.NotBenchmarked?
    ensures var d := Advance(c, BenchmarkNode(c.state, r.benchmark), r);
      && InStep(q, d) && Advances(c, d)
      && SameSlots(c, d) && d.node.Readiness? && AtReadinessNode(q, d, r)
  {
  }

  lemma {:induction false} FromReadiness(q: Request, c: Config, r: Reply)
    requires c.node.Readiness? && InStep(q, c) && AtReadinessNode(q, c, r)
    ensures var d := Advance(c, ReadinessNode(c.state, r.readiness), r);
      && InStep(q, d) && Advances(c, d)
      && SameSlots(c, d)
      && (d.node.PaperFailureFinalize? || d.node.ErrorNode? || d.node.Report?)
      && (d.node.PaperFailureFinalize? ==> AtPaperFailure(q, d, r))
      && (d.node.ErrorNode? ==> Abandoned(q, d, r))
      && (d.node.Report? ==> AtReportNode(q, d, r))
  {
    if r.readiness.NotAssessed? {
      PassBreaks(q, c, r, Readiness, r.readiness.message);
    } else {
      ReadinessSucceeds(q, c, r);
    }
  }

  lemma {:induction false} ReadinessSucceeds(q: Request, c: Config, r: Reply)
    requires c.node.Readiness? && InStep(q, c) && AtReadinessNode(q, c, r) && r.readiness.Assessed?
    ensures var d := Advance(c, ReadinessNode(c.state, r.readiness), r);
      && InStep(q, d) && Advances(c, d)
      && SameSlots(c, d) && d.node.Report? && AtReportNode(q, d, r)
  {
  }

  lemma {:induction false} FromReport(q: Request, c: Config, r: Reply)
    requires c.node.Report? && InStep(q, c) && AtReportNode(q, c, r)
    ensures var d := Advance(c, ReportNode(c.state, r.report), r);
      && InStep(q, d) && Advances(c, d)
      && SameSlots(c, d) && d.node.EvidenceCritic? && AtEvidenceCritic(q, d, r)
  {
  }

  lemma {:induction false} FromEvidenceCritic(q: Request, c: Config, r: Reply)
    requires c.node.EvidenceCritic? && InStep(q, c) && AtEvidenceCritic(q, c, r)
    ensures var d := Advance(c, EvidenceCriticNode(c.state), r);
      && InStep(q, d) && Advances(c, d)
      && SameSlots(c, d) && d.node.ReportFinalize? && AtReportFinalizeNode(q, d, r)
  {
  }

  /** The one slot of u is appended, with the pass and the error count. */
  predicate Appends(c: Config, u: Update, d: Config) {
    && |u.papers| == 1 && d.state.papers == c.state.papers + u.papers
    && d.slotPass == c.slotPass + [c.pass] && d.errorMark == c.errorMark + [|c.state.errors|]
  }

  lemma {:induction false} FinalizeReported(q: Request, c: Config, r: Reply)
    requires c.node.ReportFinalize? && InStep(q, c) && AtReportFinalizeNode(q, c, r) && r.report.Reported?
    ensures var u := ReportFinalizeNode(c.state);
      var d := Advance(c, u, r);
      && InStep(q, d) && Advances(c, d)
      && Appends(c, u, d) && d.node.ChunkAndIndex? && AtChunkAndIndexNode(q, d, r)
  {
    assert CurrentUrl(c.state.input, c.state.index) == Ok(UrlOf(q, c.state.index));
    var u := ReportFinalizeNode(c.state);
    assert |u.papers| == 1 && u.index == Set(c.state.index + 1) && u.scratch.Keep?;
  }

  lemma {:induction false} FinalizeUnreported(q: Request, c: Config, r: Reply)
    requires c.node.ReportFinalize? && InStep(q, c) && AtReportFinalizeNode(q, c, r) && r.report.NotReported?
    ensures var d := Advance(c, ReportFinalizeNode(c.state), r);
      && InStep(q, d) && Advances(c, d)
      && SameSlots(c, d) && d.node.ChunkAndIndex? && AtChunkAndIndexNode(q, d, r)
  {
  }

  lemma {:induction false} SuccessSlot(q: Request, c: Config, r: Reply)
    requires InStep(q, c) && AtReportFinalizeNode(q, c, r) && r.report.Reported?
    ensures |ReportFinalizeNode(c.state).papers| == 1
    ensures SlotFromPass(q, c.state.index, r, ReportFinalizeNode(c.state).papers[0])
    ensures SlotErrorsOf(q, c.state.index, r, Messages(c.state.errors), ReportFinalizeNode(c.state).papers[0])
  {
    assert CurrentUrl(c.state.input, c.state.index) == Ok(UrlOf(q, c.state.index));
  }

  lemma {:induction false} FromChunkAndIndex(q: Request, c: Config, r: Reply)
    requires c.node.ChunkAndIndex? && InStep(q, c)
    ensures var d := Advance(c, ChunkAndIndexNode(c.state, r.index), r);
      InStep(q, d) && Advances(c, d) && SameSlots(c, d) && BetweenPapers(d)
  {
  }

  /** After a paper: the next one, or the comparison of at least two, or the end. */
  predicate BetweenPapers(d: Config) {
    if d.node.Ingestion? then BeforeReading(d.state)
    else && Finished(d.state) && !d.errored && d.state.comparison.None?
         && d.node == (if |d.state.papers| >= 2 then Comparator else End)
         && (d.node.End? ==> d.state.stage.AtChunkAndIndex?)
  }

  lemma {:induction false} FromPaperFailureFinalize(q: Request, c: Config, r: Reply)
    requires c.node.PaperFailureFinalize? && InStep(q, c)
    requires IsBatch(c.state.input) && MoreToRead(c.state)
    ensures var u := PaperFailureFinalizeNode(c.state);
      var d := Advance(c, u, r);
      InStep(q, d) && Advances(c, d) && BetweenPapers(d) && Appends(c, u, d)
  {
    assert CurrentUrl(c.state.input, c.state.index) == Ok(UrlOf(q, c.state.index));
  }

  lemma {:induction false} FailureSlot(q: Request, c: Config, r: Reply)
    requires InStep(q, c) && AtPaperFailure(q, c, r)
    ensures |PaperFailureFinalizeNode(c.state).papers| == 1
    ensures SlotFromPass(q, c.state.index, r, PaperFailureFinalizeNode(c.state).papers[0])
    ensures SlotErrorsOf(q, c.state.index, r, Messages(c.state.errors), PaperFailureFinalizeNode(c.state).papers[0])
  {
    var s, v := c.state, PassVerdict(q, c.reading, r);
    assert CurrentUrl(s.input, s.index) == Ok(UrlOf(q, s.index));
    assert PaperFailureFinalizeNode(s).papers[0].errors == SlotErrors(s);
    FailureErrors(s, v.at, v.message);
    FailureFields(q, c, r);
  }

  lemma {:induction false} FailureErrors(s: State, at: Node, message: string)
    requires s.scratch.failure == Failure(true, Some(message), Some(at))
    requires at in {Ingestion, Extraction, Benchmark, Readiness}
    requires s.errors != [] && s.errors[|s.errors| - 1].message == message
    ensures var messages := Messages(s.errors);
      SlotErrors(s) == if FailedAt(at) !in messages then messages + [FailedAt(at)] else messages
  {
    assert Messages(s.errors)[|s.errors| - 1] == message;
    MarkersNameNodes();
  }

  lemma {:induction false} FailureFields(q: Request, c: Config, r: Reply)
    requires InStep(q, c) && AtPaperFailure(q, c, r) && CurrentUrl(c.state.input, c.state.index) == Ok(UrlOf(q, c.state.index))
    ensures |PaperFailureFinalizeNode(c.state).papers| == 1
    ensures SlotFromPass(q, c.state.index, r, PaperFailureFinalizeNode(c.state).papers[0])
  {
    match PassVerdict(q, c.reading, r).at
    case Ingestion =>
    case Extraction =>
    case Benchmark =>
    case Readiness =>
    case _ =>
  }

  lemma {:induction false} FromComparator(q: Request, c: Config, r: Reply)
    requires c.node.Comparator? && InStep(q, c) && Finished(c.state) && |c.state.papers| >= 2
    ensures var d := Advance(c, ComparatorNode(c.state, r.comparison), r);
      && InStep(q, d) && Advances(c, d)
      && SameSlots(c, d) && d.node.End? && !d.errored && Finished(d.state)
      && d.state.comparison == Some(r.comparison) && d.state.stage == ComparisonCompleted
  {
  }

  lemma {:induction false} FromErrorNode(q: Request, c: Config, r: Reply)
    requires c.node.ErrorNode? && InStep(q, c) && Abandoned(q, c, r)
    ensures var d := Advance(c, NO_UPDATE.(stage := Set(Failed)), r);
      && InStep(q, d) && Advances(c, d)
      && SameSlots(c, d) && d.node.End? && d.errored && Abandoned(q, d, r)
  {
  }

  /** A step leads from a tracked configuration to a tracked one, records at most one slot,
      and keeps visits within the allowance. */
  ghost predicate GoodStep(q: Request, oracle: nat -> Reply, c: Config, d: Config) {
    && Tracks(q, oracle, d) && Advances(c, d)
    && (SameSlots(c, d) || OneMoreSlot(q, oracle(c.pass), c, d))
  }

  lemma {:induction false} StepAtSupervisor(q: Request, oracle: nat -> Reply, c: Config)
    requires Tracks(q, oracle, c) && c.node.Supervisor?
    ensures GoodStep(q, oracle, c, Step(c, oracle))
  {
    FromSupervisor(q, c, oracle(c.pass));
  }

  lemma {:induction false} StepAtIngestion(q: Request, oracle: nat -> Reply, c: Config)
    requires Tracks(q, oracle, c) && c.node.Ingestion?
    ensures GoodStep(q, oracle, c, Step(c, oracle))
  {
    FromIngestion(q, c, oracle(c.pass));
  }

  lemma {:induction false} StepAtExtraction(q: Request, oracle: nat -> Reply, c: Config)
    requires Tracks(q, oracle, c) && c.node.Extraction?
    ensures GoodStep(q, oracle, c, Step(c, oracle))
  {
    FromExtraction(q, c, oracle(c.pass));
  }

  lemma {:induction false} StepAtHumanReview(q: Request, oracle: nat -> Reply, c: Config)
    requires Tracks(q, oracle, c) && c.node.HumanReview?
    ensures GoodStep(q, oracle, c, Step(c, oracle))
  {
    FromHumanReview(q, c, oracle(c.pass));
  }

  lemma {:induction false} StepAtBenchmark(q: Request, oracle: nat -> Reply, c: Config)
    requires Tracks(q, oracle, c) && c.node.Benchmark?
    ensures GoodStep(q, oracle, c, Step(c, oracle))
  {
    FromBenchmark(q, c, oracle(c.pass));
  }

  lemma {:induction false} StepAtReadiness(q: Request, oracle: nat -> Reply, c: Config)
    requires Tracks(q, oracle, c) && c.node.Readiness?
    ensures GoodStep(q, oracle, c, Step(c, oracle))
  {
    FromReadiness(q, c, oracle(c.pass));
  }

  lemma {:induction false} StepAtReport(q: Request, oracle: nat -> Reply, c: Config)
    requires Tracks(q, oracle, c) && c.node.Report?
    ensures GoodStep(q, oracle, c, Step(c, oracle))
  {
    FromReport(q, c, oracle(c.pass));
  }

  lemma {:induction false} StepAtEvidenceCritic(q: Request, oracle: nat -> Reply, c: Config)
    requires Tracks(q, oracle, c) && c.node.EvidenceCritic?
    ensures GoodStep(q, oracle, c, Step(c, oracle))
  {
    FromEvidenceCritic(q, c, oracle(c.pass));
  }

  lemma {:induction false} StepAtReportFinalize(q: Request, oracle: nat -> Reply, c: Config)
    requires Tracks(q, oracle, c) && c.node.ReportFinalize?
    ensures GoodStep(q, oracle, c, Step(c, oracle))
  {
    var r := oracle(c.pass);
    if r.report.Reported? {
      FinalizeReported(q, c, r);
      SuccessSlot(q, c, r);
    } else {
      FinalizeUnreported(q, c, r);
    }
  }

  lemma {:induction false} StepAtChunkAndIndex(q: Request, oracle: nat -> Reply, c: Config)
    requires Tracks(q, oracle, c) && c.node.ChunkAndIndex?
    ensures GoodStep(q, oracle, c, Step(c, oracle))
  {
    FromChunkAndIndex(q, c, oracle(c.pass));
  }

  lemma {:induction false} StepAtPaperFailureFinalize(q: Request, oracle: nat -> Reply, c: Config)
    requires Tracks(q, oracle, c) && c.node.PaperFailureFinalize?
    ensures GoodStep(q, oracle, c, Step(c, oracle))
  {
    FromPaperFailureFinalize(q, c, oracle(c.pass));
    FailureSlot(q, c, oracle(c.pass));
  }

  lemma {:induction false} StepAtComparator(q: Request, oracle: nat -> Reply, c: Config)
    requires Tracks(q, oracle, c) && c.node.Comparator?
    ensures GoodStep(q, oracle, c, Step(c, oracle))
  {
    FromComparator(q, c, oracle(c.pass));
  }

  lemma {:induction false} StepAtErrorNode(q: Request, oracle: nat -> Reply, c: Config)
    requires Tracks(q, oracle, c) && c.node.ErrorNode?
    ensures GoodStep(q, oracle, c, Step(c, oracle))
  {
    var d := Advance(c, NO_UPDATE.(stage := Set(Failed)), oracle(c.pass));
    FromErrorNode(q, c, oracle(c.pass));
    assert Step(c, oracle) == d && d.pass == c.pass;
  }

  lemma {:induction false} StepTracks(q: Request, oracle: nat -> Reply, c: Config)
    requires Tracks(q, oracle, c) && !c.node.End?
    ensures GoodStep(q, oracle, c, Step(c, oracle))
  {
    match c.node
    case Supervisor => StepAtSupervisor(q, oracle, c);
    case Ingestion => StepAtIngestion(q, oracle, c);
    case Extraction => StepAtExtraction(q, oracle, c);
    case HumanReview => StepAtHumanReview(q, oracle, c);
    case Benchmark => StepAtBenchmark(q, oracle, c);
    case Readiness => StepAtReadiness(q, oracle, c);
    case Report => StepAtReport(q, oracle, c);
    case EvidenceCritic => StepAtEvidenceCritic(q, oracle, c);
    case ReportFinalize => StepAtReportFinalize(q, oracle, c);
    case ChunkAndIndex => StepAtChunkAndIndex(q, oracle, c);
    case PaperFailureFinalize => StepAtPaperFailureFinalize(q, oracle, c);
    case Comparator => StepAtComparator(q, oracle, c);
    case ErrorNode => StepAtErrorNode(q, oracle, c);
  }

  // ----- slots and error lists over a run -----

  /** Slot k is the reference slot of the pass it was recorded in, and its error list is
      made of all messages of the run up to that moment, earlier papers' included. */
  ghost predicate Recorded(q: Request, oracle: nat -> Reply, c: Config) {
    EverySlot(SlotCheck(q), oracle, c)
  }

  /** The check of slot k against the replies of its pass and the messages at that moment. */
  ghost function SlotCheck(q: Request): (int, Reply, seq<string>, PaperSlot) -> bool {
    (k, r, messages, slot) => SlotFromPass(q, k, r, slot) && SlotErrorsOf(q, k, r, messages, slot)
  }

  ghost predicate EverySlot(check: (int, Reply, seq<string>, PaperSlot) -> bool, oracle: nat -> Reply, c: Config) {
    && |c.state.papers| == |c.slotPass| == |c.errorMark|
    && (forall k :: 0 <= k < |c.errorMark| ==>
         && c.errorMark[k] <= |c.state.errors|
         && check(k, oracle(c.slotPass[k]), Messages(c.state.errors[..c.errorMark[k]]), c.state.papers[k]))
    && (forall j, k :: 0 <= j < k < |c.errorMark| ==> c.errorMark[j] <= c.errorMark[k])
  }

  lemma {:induction false} StepRecords(q: Request, oracle: nat -> Reply, c: Config, d: Config)
    requires Recorded(q, oracle, c) && c.state.errors <= d.state.errors
    requires SameSlots(c, d) || OneMoreSlot(q, oracle(c.pass), c, d)
    ensures Recorded(q, oracle, d)
  {
    if SameSlots(c, d) {
      SlotsCarryOver(SlotCheck(q), oracle, c, d);
    } else {
      var n := |c.state.papers|;
      assert SlotCheck(q)(n, oracle(c.pass), Messages(c.state.errors), d.state.papers[n]);
      SlotsCarryOver(SlotCheck(q), oracle, c, d);
    }
  }

  lemma {:induction false} SlotsCarryOver(check: (int, Reply, seq<string>, PaperSlot) -> bool, oracle: nat -> Reply, c: Config, d: Config)
    requires EverySlot(check, oracle, c) && c.state.errors <= d.state.errors
    requires || SameSlots(c, d)
             || (&& |d.state.papers| == |c.state.papers| + 1
                 && d.state.papers[..|c.state.papers|] == c.state.papers
                 && d.slotPass == c.slotPass + [c.pass] && d.errorMark == c.errorMark + [|c.state.errors|]
                 && check(|c.state.papers|, oracle(c.pass), Messages(c.state.errors), d.state.papers[|c.state.papers|]))
    ensures EverySlot(check, oracle, d)
  {
    var n := |c.state.papers|;
    assert c.state.errors == d.state.errors[..|c.state.errors|];
    forall k | 0 <= k < n
      ensures d.state.papers[k] == c.state.papers[k] && d.slotPass[k] == c.slotPass[k]
           && d.errorMark[k] == c.errorMark[k]
           && d.state.errors[..d.errorMark[k]] == c.state.errors[..c.errorMark[k]]
    {
      if !SameSlots(c, d) {
        assert d.state.papers[k] == d.state.papers[..n][k];
      }
    }
  }

  lemma {:induction false} LastSlot(q: Request, oracle: nat -> Reply, c: Config)
    requires Recorded(q, oracle, c) && c.state.papers != []
    ensures var last := |c.state.papers| - 1;
      c.state.papers[last].paperIndex == last && c.state.papers[last].inputUrl == UrlOf(q, last)
  {
    var last := |c.state.papers| - 1;
    assert SlotCheck(q)(last, oracle(c.slotPass[last]), Messages(c.state.errors[..c.errorMark[last]]), c.state.papers[last]);
    assert c.state.papers[last].(errors := []).paperIndex == last;
  }

  // ----- all of it, for every run -----

  ghost predicate Inv(q: Request, oracle: nat -> Reply, c: Config) {
    Tracks(q, oracle, c) && Recorded(q, oracle, c) && c.visits <= Allowance(c)
  }

  lemma {:induction false} StepKeepsInv(q: Request, oracle: nat -> Reply, c: Config)
    requires Inv(q, oracle, c)
    ensures Inv(q, oracle, Step(c, oracle))
    ensures c.node.End? || Advances(c, Step(c, oracle))
  {
    if !c.node.End? {
      StepTracks(q, oracle, c);
      StepRecords(q, oracle, c, Step(c, oracle));
    }
  }

  /** Every reachable configuration satisfies the invariant. */
  lemma {:induction false} RunKeepsInv(q: Request, oracle: nat -> Reply, n: nat)
    ensures Inv(q, oracle, Run(q, oracle, n))
  {
    var p := c => Inv(q, oracle, c);
    forall c | p(c) ensures p(Step(c, oracle)) {
      StepKeepsInv(q, oracle, c);
    }
    Throughout(p, q, oracle, n);
  }

  lemma {:induction false} StepIsVisit(c: Config, oracle: nat -> Reply)
    ensures c.node.End? ==> Step(c, oracle) == c
    ensures !c.node.End? ==> Step(c, oracle).visits == c.visits + 1
  {}

  /** n visits were made, or the run has ended. */
  predicate VisitedAll(c: Config, n: nat) { c.node.End? || c.visits == n }

  lemma {:induction false} VisitChain(run: nat -> Config, n: nat)
    requires VisitedAll(run(0), 0) && forall k: nat :: VisitedAll(run(k), k) ==> VisitedAll(run(k + 1), k + 1)
    ensures VisitedAll(run(n), n)
  {
    if n > 0 {
      VisitChain(run, n - 1);
      assert VisitedAll(run((n - 1) + 1), (n - 1) + 1);
    }
  }

  /** Until it ends, a run makes a visit with every step. */
  lemma {:induction false} StepsAreVisits(q: Request, oracle: nat -> Reply, n: nat)
    ensures Run(q, oracle, n).node.End? || Run(q, oracle, n).visits == n
  {
    var run := (k: nat) => Run(q, oracle, k);
    forall k: nat | VisitedAll(run(k), k) ensures VisitedAll(run(k + 1), k + 1) {
      StepIsVisit(run(k), oracle);
    }
    VisitChain(run, n);
  }
}
