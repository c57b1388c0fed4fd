/** The error lists of a run, read off its replies. */
module AnalysisMessages {
  import opened Wrappers
  import opened Schemas
  import opened Text
  import opened AnalysisGraph
  import opened AnalysisRuns
  import opened AnalysisPasses
  import opened AnalysisHalting
  import opened AnalysisTheorems
  import Downgrade

  // ----- what a pass says -----

  function Warned(messages: seq<string>): seq<StructuredError> {
    seq(|messages|, i requires 0 <= i < |messages| => StructuredError(messages[i], Warning, true))
  }

  predicate ManyPapers(q: Request) { q.Urls? && |q.urls| >= 2 }

  function IngestionWarnings(r: Reply): seq<StructuredError> {
    if r.ingestion.Ingested? then Warned(r.ingestion.warnings) else []
  }

  function BenchmarkWarnings(r: Reply): seq<StructuredError> {
    if r.benchmark.NotBenchmarked? then [] else Warned(r.benchmark.warnings)
  }

  /** The warnings of the calls before a node. */
  function WarningsBefore(node: Node, r: Reply): seq<StructuredError> {
    match node
    case Ingestion => []
    case Extraction => IngestionWarnings(r)
    case HumanReview => IngestionWarnings(r)
    case Benchmark => IngestionWarnings(r)
    case _ => IngestionWarnings(r) + BenchmarkWarnings(r)
  }

  /** What the report is written without. */
  function ReportNotes(r: Reply): seq<StructuredError>
    requires r.ingestion.Ingested? && r.extraction.Extracted?
  {
    (if FinalExtraction(r).None? then Warned(["Report warning: method_extraction missing"]) else []) +
    (if FinalBenchmarks(r) == [] then Warned(["Report warning: benchmarks missing or empty"]) else [])
  }

  /** Why the critic lowers the report. */
  function CriticNotes(r: Reply): seq<StructuredError>
    requires r.report.Reported? && r.readiness.Assessed?
  {
    WhyLowered(r.report.report.action, FinalBenchmarks(r), r.readiness.readiness)
  }

  function WhyLowered(action: Action, benchmarks: seq<BenchmarkResult>, readiness: ProductionReadiness): seq<StructuredError> {
    (if action.ImplementNow? && benchmarks == []
     then Warned(["Evidence Critic downgraded report: implement_now without benchmark evidence"]) else []) +
    (if (action.ImplementNow? || action.Prototype?) && readiness.maturity.ResearchOnly?
     then Warned(["Evidence Critic downgraded report: maturity is research_only"]) else [])
  }

  /** Everything a pass over paper i adds up to the moment its slot is recorded, or would be. */
  function OwnErrors(q: Request, i: int, r: Reply): seq<StructuredError> {
    match PassVerdict(q, i, r)
    case Rejected(problem) => [StructuredError(ProblemText(problem), Fatal, false)]
    case Broken(at, message) => WarningsBefore(at, r) + [StructuredError(message, Error, ManyPapers(q))]
    case Unreported =>
      WarningsBefore(Report, r) + [StructuredError(r.report.message, Error, ManyPapers(q))] + [StructuredError(NO_REPORT, Fatal, false)]
    case Done => WarningsBefore(Report, r) + ReportNotes(r) + CriticNotes(r)
  }

  /** A pass that is finalized before any slot is recorded has nothing to index. */
  predicate NothingToIndex(q: Request, i: int, r: Reply) {
    PassVerdict(q, i, r).Unreported? && i == 0
  }

  predicate GoesToIndexing(q: Request, i: int, r: Reply) {
    PassVerdict(q, i, r).Done? || PassVerdict(q, i, r).Unreported?
  }

  /** What indexing adds after that. */
  function IndexErrors(q: Request, i: int, r: Reply): seq<StructuredError> {
    if !GoesToIndexing(q, i, r) then []
    else if NothingToIndex(q, i, r) then Warned([NO_SLOT])
    else match r.index
      case NoChunks => []
      case Indexed(_, Marked) => []
      case Indexed(_, NoSuchSession(message)) => [StructuredError(message, Error, false)]
      case Indexed(_, NotMarked(message)) => Warned([message])
      case IndexError(message) => Warned([message])
  }

  /** The status of indexing after such a pass. */
  function IndexingAfter(q: Request, i: int, r: Reply, before: IndexingStatus): IndexingStatus {
    if !GoesToIndexing(q, i, r) then before
    else if NothingToIndex(q, i, r) then IndexingFailed(NO_SLOT)
    else match r.index
      case NoChunks => IndexingSkipped
      case Indexed(count, _) => IndexingSucceeded(count)
      case IndexError(message) => IndexingFailed(message)
  }

  /** All errors of the passes before p. */
  function ErrorsBefore(q: Request, oracle: nat -> Reply, p: nat): seq<StructuredError> {
    if p == 0 then []
    else match ReadBy(q, oracle, p - 1)
      case None => ErrorsBefore(q, oracle, p - 1)
      case Some(i) =>
        var r := oracle(p - 1);
        ErrorsBefore(q, oracle, p - 1) + OwnErrors(q, i, r) + IndexErrors(q, i, r)
  }

  /** The status of indexing after the passes before p. */
  function IndexingBefore(q: Request, oracle: nat -> Reply, p: nat): IndexingStatus {
    if p == 0 then NotIndexed
    else match ReadBy(q, oracle, p - 1)
      case None => IndexingBefore(q, oracle, p - 1)
      case Some(i) => IndexingAfter(q, i, oracle(p - 1), IndexingBefore(q, oracle, p - 1))
  }

  /** The error list of a slot recorded after the errors `before`. */
  function SlotMessages(q: Request, k: int, r: Reply, before: seq<StructuredError>): seq<string> {
    var messages := Messages(before + OwnErrors(q, k, r));
    var v := PassVerdict(q, k, r);
    if v.Broken? && FailedAt(v.at) !in messages then messages + [FailedAt(v.at)] else messages
  }

  // ----- the invariant -----

  /** What the current pass, over paper i, has said on arrival at a node. */
  function SaidUpTo(q: Request, node: Node, errored: bool, i: int, r: Reply): seq<StructuredError> {
    match node
    case Supervisor => []
    case Ingestion => []
    case Comparator => []
    case EvidenceCritic => WarningsBefore(Report, r) + AfterReportCall(q, r)
    case ReportFinalize => WarningsBefore(Report, r) + AfterReportCall(q, r) + AfterCritic(r)
    case ChunkAndIndex => OwnErrors(q, i, r)
    case PaperFailureFinalize => OwnErrors(q, i, r)
    case ErrorNode => OwnErrors(q, i, r)
    case End => if errored then OwnErrors(q, i, r) else []
    case _ => WarningsBefore(node, r)
  }

  function SoFar(q: Request, c: Config, r: Reply): seq<StructuredError> {
    SaidUpTo(q, c.node, c.errored, c.reading, r)
  }

  function AfterReportCall(q: Request, r: Reply): seq<StructuredError> {
    if r.report.NotReported? then [StructuredError(r.report.message, Error, ManyPapers(q))]
    else if r.ingestion.Ingested? && r.extraction.Extracted? && r.readiness.Assessed? then ReportNotes(r)
    else []
  }

  function AfterCritic(r: Reply): seq<StructuredError> {
    if r.report.Reported? && r.readiness.Assessed? then CriticNotes(r) else []
  }

  lemma {:induction false} WarningsAreWarned(messages: seq<string>)
    ensures Warnings(messages) == Warned(messages)
  {}

  lemma {:induction false} BatchHasManyPapers(q: Request)
    ensures IsBatch(InputOf(q)) <==> ManyPapers(q)
  {}

  /** Within a pass: an update says what is missing up to the next node. */
  predicate Continues(q: Request, c: Config, u: Update, r: Reply) {
    SoFar(q, Advance(c, u, r), r) == SoFar(q, c, r) + u.errors && u.indexing.Keep?
  }

  lemma {:induction false} AtErrorOrFailure(q: Request, d: Config, r: Reply)
    requires d.node.PaperFailureFinalize? || d.node.ErrorNode?
    ensures SoFar(q, d, r) == OwnErrors(q, d.reading, r)
  {}

  lemma {:induction false} BreakSays(q: Request, c: Config, r: Reply, at: Node, message: string)
    requires c.node == at && at in {Ingestion, Extraction, Benchmark, Readiness}
    requires InStep(q, c) && MoreToRead(c.state) && (at.Ingestion? || c.state.index == c.reading)
    requires PassVerdict(q, c.state.index, r) == Broken(at, message) && WhenBroken(r, at) == Some(c.state.scratch)
    ensures Continues(q, c, PaperError(c.state, message, at), r)
  {
    var u := PaperError(c.state, message, at);
    var d := Advance(c, u, r);
    PassBreaks(q, c, r, at, message);
    PaperErrorStops(c, r, at, message);
    AtErrorOrFailure(q, d, r);
    BatchHasManyPapers(q);
    assert SoFar(q, c, r) == WarningsBefore(at, r);
  }

  lemma {:induction false} IngestionSays(q: Request, c: Config, r: Reply)
    requires c.node.Ingestion? && InStep(q, c) && BeforeReading(c.state)
    ensures Continues(q, c, IngestionNode(c.state, r.ingestion), r)
  {
    var v := PassVerdict(q, c.state.index, r);
    if v.Rejected? {
      RejectionSays(q, c, r);
    } else if r.ingestion.NotIngested? {
      BreakSays(q, c, r, Ingestion, r.ingestion.message);
    } else {
      InputIngested(q, c, r);
      WarningsAreWarned(r.ingestion.warnings);
    }
  }

  lemma {:induction false} RejectionSays(q: Request, c: Config, r: Reply)
    requires c.node.Ingestion? && InStep(q, c) && BeforeReading(c.state) && PassVerdict(q, c.state.index, r).Rejected?
    ensures Continues(q, c, IngestionNode(c.state, r.ingestion), r)
  {
    var u := IngestionNode(c.state, r.ingestion);
    InputRejected(q, c, r);
    AtErrorOrFailure(q, Advance(c, u, r), r);
  }

  lemma {:induction false} ExtractionSays(q: Request, c: Config, r: Reply)
    requires c.node.Extraction? && InStep(q, c) && AtExtractionNode(q, c, r)
    ensures Continues(q, c, ExtractionNode(c.state, r.extraction), r)
  {
    if IsBlank(r.ingestion.rawText) {
      BreakSays(q, c, r, Extraction, NO_TEXT);
    } else if r.extraction.NotExtracted? {
      BreakSays(q, c, r, Extraction, r.extraction.message);
    } else {
      ExtractionSucceeds(q, c, r);
      assert ExtractionNode(c.state, r.extraction).errors == [];
    }
  }

  lemma {:induction false} BenchmarkSays(q: Request, c: Config, r: Reply)
    requires c.node.Benchmark? && InStep(q, c) && AtBenchmarkNode(q, c, r)
    ensures Continues(q, c, BenchmarkNode(c.state, r.benchmark), r)
  {
    if r.benchmark.NotBenchmarked? {
      BreakSays(q, c, r, Benchmark, r.benchmark.message);
    } else {
      BenchmarkSucceeds(q, c, r);
      WarningsAreWarned(r.benchmark.warnings);
    }
  }

  lemma {:induction false} ReadinessSays(q: Request, c: Config, r: Reply)
    requires c.node.Readiness? && InStep(q, c) && AtReadinessNode(q, c, r)
    ensures Continues(q, c, ReadinessNode(c.state, r.readiness), r)
  {
    if r.readiness.NotAssessed? {
      BreakSays(q, c, r, Readiness, r.readiness.message);
    } else {
      ReadinessSucceeds(q, c, r);
    }
  }

  lemma {:induction false} ReportSays(q: Request, c: Config, r: Reply)
    requires c.node.Report? && InStep(q, c) && AtReportNode(q, c, r)
    ensures Continues(q, c, ReportNode(c.state, r.report), r)
  {
    BatchHasManyPapers(q);
    WarningsAreWarned(DegradationNotes(c.state.scratch));
  }

  lemma {:induction false} CriticSaysWhy(
    report: EngineerReport, benchmarks: seq<BenchmarkResult>, readiness: ProductionReadiness)
    ensures Warnings(NoteTexts(Downgrade.Critic(report, benchmarks, Some(readiness)).1))
      == WhyLowered(report.action, benchmarks, readiness)
  {}

  lemma {:induction false} CriticUpdate(s: State)
    requires s.scratch.written.report.Some? && s.scratch.readiness.Some?
    ensures var (report, notes) :=
        Downgrade.Critic(s.scratch.written.report.value, s.scratch.measures.benchmarks, s.scratch.readiness);
      EvidenceCriticNode(s).errors == Warnings(NoteTexts(notes)) && EvidenceCriticNode(s).indexing.Keep?
  {}

  lemma {:induction false} CriticSays(q: Request, c: Config, r: Reply)
    requires c.node.EvidenceCritic? && InStep(q, c) && AtEvidenceCritic(q, c, r)
    ensures Continues(q, c, EvidenceCriticNode(c.state), r)
  {
    var u := EvidenceCriticNode(c.state);
    assert u.errors == AfterCritic(r) && u.indexing.Keep? by { CriticNodeSays(q, c, r); }
    CriticContinues(q, c, u, r);
  }

  lemma {:induction false} CriticNodeSays(q: Request, c: Config, r: Reply)
    requires c.node.EvidenceCritic? && InStep(q, c) && AtEvidenceCritic(q, c, r)
    ensures EvidenceCriticNode(c.state).errors == AfterCritic(r) && EvidenceCriticNode(c.state).indexing.Keep?
  {
    if r.report.Reported? {
      CriticUpdate(c.state);
      CriticSaysWhy(r.report.report, FinalBenchmarks(r), r.readiness.readiness);
    }
  }

  lemma {:induction false} CriticContinues(q: Request, c: Config, u: Update, r: Reply)
    requires c.node.EvidenceCritic? && u.errors == AfterCritic(r) && u.indexing.Keep?
    ensures Continues(q, c, u, r)
  {
    assert Advance(c, u, r).node.ReportFinalize? && Advance(c, u, r).reading == c.reading;
  }

  /** A pass that is about to be finalized has said all of its own. */
  lemma {:induction false} AllSaid(q: Request, c: Config, r: Reply)
    requires c.node.ReportFinalize? && InStep(q, c) && AtReportFinalizeNode(q, c, r)
    ensures OwnErrors(q, c.reading, r)
      == if r.report.Reported? then SoFar(q, c, r) else SoFar(q, c, r) + [StructuredError(NO_REPORT, Fatal, false)]
  {
    assert PassVerdict(q, c.reading, r) == if r.report.Reported? then Done else Unreported;
  }

  lemma {:induction false} FinalizeSays(q: Request, c: Config, r: Reply)
    requires c.node.ReportFinalize? && InStep(q, c) && AtReportFinalizeNode(q, c, r)
    ensures Continues(q, c, ReportFinalizeNode(c.state), r)
  {
    AllSaid(q, c, r);
    if r.report.Reported? { ReportedSays(q, c, r); } else { UnreportedSays(q, c, r); }
  }

  lemma {:induction false} AfterFinalize(q: Request, c: Config, u: Update, r: Reply)
    requires c.node.ReportFinalize?
    ensures SoFar(q, Advance(c, u, r), r) == OwnErrors(q, c.reading, r)
  {
    var d := Advance(c, u, r);
    assert d.node == ChunkAndIndex && d.reading == c.reading;
    assert SaidUpTo(q, ChunkAndIndex, d.errored, c.reading, r) == OwnErrors(q, c.reading, r);
  }

  lemma {:induction false} ReportedSays(q: Request, c: Config, r: Reply)
    requires c.node.ReportFinalize? && InStep(q, c) && AtReportFinalizeNode(q, c, r) && r.report.Reported?
    requires OwnErrors(q, c.reading, r) == SoFar(q, c, r)
    ensures Continues(q, c, ReportFinalizeNode(c.state), r)
  {
    var u := ReportFinalizeNode(c.state);
    assert u.errors == [] by { assert CurrentUrl(c.state.input, c.state.index) == Ok(UrlOf(q, c.state.index)); }
    AfterFinalize(q, c, u, r);
  }

  lemma {:induction false} UnreportedSays(q: Request, c: Config, r: Reply)
    requires c.node.ReportFinalize? && InStep(q, c) && AtReportFinalizeNode(q, c, r) && r.report.NotReported?
    requires OwnErrors(q, c.reading, r) == SoFar(q, c, r) + [StructuredError(NO_REPORT, Fatal, false)]
    ensures Continues(q, c, ReportFinalizeNode(c.state), r)
  {
    var u := ReportFinalizeNode(c.state);
    assert u.errors == [StructuredError(NO_REPORT, Fatal, false)];
    AfterFinalize(q, c, u, r);
  }

  lemma {:induction false} IndexSays(q: Request, c: Config, r: Reply)
    requires c.node.ChunkAndIndex? && InStep(q, c) && AtChunkAndIndexNode(q, c, r) && c.reading >= 0
    ensures ChunkAndIndexNode(c.state, r.index).errors == IndexErrors(q, c.reading, r)
    ensures ChunkAndIndexNode(c.state, r.index).indexing == Set(IndexingAfter(q, c.reading, r, c.state.indexing))
  {
    ChunksVerdict(q, c, r);
    assert c.state.papers == [] <==> NothingToIndex(q, c.reading, r);
  }

  lemma {:induction false} SupervisorSays(q: Request, c: Config, r: Reply)
    requires c.node.Supervisor? && c.state.stage == AtIngestion
    ensures Continues(q, c, SupervisorNode(c.state), r)
  {
    assert Advance(c, SupervisorNode(c.state), r).node.Ingestion?;
  }

  lemma {:induction false} ReviewSays(q: Request, c: Config, r: Reply)
    requires c.node.HumanReview?
    ensures Continues(q, c, HumanReviewNode(c.state, r.review), r)
  {}

  lemma {:induction false} ComparatorSays(q: Request, c: Config, r: Reply)
    requires c.node.Comparator? && |c.state.papers| >= 2 && !c.errored
    ensures Continues(q, c, ComparatorNode(c.state, r.comparison), r)
  {}

  lemma {:induction false} ErrorNodeSays(q: Request, c: Config, r: Reply)
    requires c.node.ErrorNode?
    ensures Continues(q, c, NO_UPDATE.(stage := Set(Failed)), r)
  {}

  lemma {:induction false} NodeSays(q: Request, oracle: nat -> Reply, c: Config)
    requires Tracks(q, oracle, c) && !c.node.End? && !Between(c.node)
    ensures Continues(q, c, NodeUpdate(c.node, c.state, oracle(c.pass)), oracle(c.pass))
  {
    var r := oracle(c.pass);
    match c.node
    case Ingestion => IngestionSays(q, c, r);
    case Extraction => ExtractionSays(q, c, r);
    case Benchmark => BenchmarkSays(q, c, r);
    case Readiness => ReadinessSays(q, c, r);
    case Report => ReportSays(q, c, r);
    case EvidenceCritic => CriticSays(q, c, r);
    case ReportFinalize => FinalizeSays(q, c, r);
    case Supervisor => SupervisorSays(q, c, r);
    case HumanReview => ReviewSays(q, c, r);
    case Comparator => ComparatorSays(q, c, r);
    case ErrorNode => ErrorNodeSays(q, c, r);
  }

  /** The error list is made of the errors of the passes before and of this one so far. */
  ghost predicate Told(q: Request, oracle: nat -> Reply, c: Config) {
    && c.state.errors == ErrorsBefore(q, oracle, c.pass) + SoFar(q, c, oracle(c.pass))
    && c.state.indexing == IndexingBefore(q, oracle, c.pass)
  }

  /** When slot k was recorded the list held the messages before its pass and the pass's own. */
  ghost predicate MarksTold(q: Request, oracle: nat -> Reply, errors: seq<StructuredError>, marks: seq<nat>, slotPass: seq<nat>) {
    EveryMark(MarkCheck(q, oracle, errors), marks, slotPass)
  }

  ghost function MarkCheck(q: Request, oracle: nat -> Reply, errors: seq<StructuredError>): (int, nat, nat) -> bool {
    (k: int, mark: nat, p: nat) =>
      && mark <= |errors|
      && errors[..mark] == ErrorsBefore(q, oracle, p) + OwnErrors(q, k, oracle(p))
  }

  predicate EveryMark(check: (int, nat, nat) -> bool, marks: seq<nat>, slotPass: seq<nat>) {
    |marks| == |slotPass| && forall k :: 0 <= k < |marks| ==> check(k, marks[k], slotPass[k])
  }

  lemma {:induction false} MarksSnoc(check: (int, nat, nat) -> bool, marks: seq<nat>, slotPass: seq<nat>, mark: nat, p: nat)
    requires EveryMark(check, marks, slotPass) && check(|marks|, mark, p)
    ensures EveryMark(check, marks + [mark], slotPass + [p])
  {}

  lemma {:induction false} MarksKept(
    q: Request, oracle: nat -> Reply, errors: seq<StructuredError>, more: seq<StructuredError>, marks: seq<nat>, slotPass: seq<nat>)
    requires MarksTold(q, oracle, errors, marks, slotPass)
    ensures MarksTold(q, oracle, errors + more, marks, slotPass)
  {
    forall k | 0 <= k < |marks| ensures MarkCheck(q, oracle, errors + more)(k, marks[k], slotPass[k]) {
      assert MarkCheck(q, oracle, errors)(k, marks[k], slotPass[k]);
      assert (errors + more)[..marks[k]] == errors[..marks[k]];
    }
  }

  lemma {:induction false} MarkAdded(
    q: Request, oracle: nat -> Reply, errors: seq<StructuredError>, more: seq<StructuredError>, marks: seq<nat>, slotPass: seq<nat>, p: nat)
    requires MarksTold(q, oracle, errors, marks, slotPass)
    requires errors == ErrorsBefore(q, oracle, p) + OwnErrors(q, |marks|, oracle(p))
    ensures MarksTold(q, oracle, errors + more, marks + [|errors|], slotPass + [p])
  {
    MarksKept(q, oracle, errors, more, marks, slotPass);
    assert MarkCheck(q, oracle, errors + more)(|marks|, |errors|, p) by {
      assert (errors + more)[..|errors|] == errors;
    }
    MarksSnoc(MarkCheck(q, oracle, errors + more), marks, slotPass, |errors|, p);
  }

  ghost predicate Recounts(q: Request, oracle: nat -> Reply, c: Config) {
    Told(q, oracle, c) && MarksTold(q, oracle, c.state.errors, c.errorMark, c.slotPass)
  }

  // ----- one step -----

  lemma {:induction false} SaidSoFar(before: seq<StructuredError>, said: seq<StructuredError>, more: seq<StructuredError>)
    ensures (before + said) + more == before + (said + more)
  {}

  lemma {:induction false} TellsWithinPass(q: Request, oracle: nat -> Reply, c: Config, u: Update)
    requires !Between(c.node) && Told(q, oracle, c) && Continues(q, c, u, oracle(c.pass))
    ensures Told(q, oracle, Advance(c, u, oracle(c.pass)))
  {
    var d := Advance(c, u, oracle(c.pass));
    assert d.pass == c.pass && d.state.errors == c.state.errors + u.errors;
    SaidSoFar(ErrorsBefore(q, oracle, c.pass), SoFar(q, c, oracle(c.pass)), u.errors);
  }

  lemma {:induction false} ErrorsNext(q: Request, oracle: nat -> Reply, p: nat, i: nat)
    requires ReadBy(q, oracle, p) == Some(i)
    ensures ErrorsBefore(q, oracle, p + 1)
      == ErrorsBefore(q, oracle, p) + OwnErrors(q, i, oracle(p)) + IndexErrors(q, i, oracle(p))
  {}

  lemma {:induction false} IndexingNext(q: Request, oracle: nat -> Reply, p: nat, i: nat)
    requires ReadBy(q, oracle, p) == Some(i)
    ensures IndexingBefore(q, oracle, p + 1) == IndexingAfter(q, i, oracle(p), IndexingBefore(q, oracle, p))
  {}

  lemma {:induction false} TellsNextPass(
    q: Request, oracle: nat -> Reply, p: nat, i: nat, errors: seq<StructuredError>, more: seq<StructuredError>)
    requires ReadBy(q, oracle, p) == Some(i)
    requires errors == ErrorsBefore(q, oracle, p) + OwnErrors(q, i, oracle(p))
    requires more == IndexErrors(q, i, oracle(p))
    ensures errors + more == ErrorsBefore(q, oracle, p + 1)
  {
    ErrorsNext(q, oracle, p, i);
  }

  lemma {:induction false} ToldWithNothing(q: Request, oracle: nat -> Reply, d: Config)
    requires !d.errored && d.node in {Ingestion, Comparator, End}
    requires d.state.errors == ErrorsBefore(q, oracle, d.pass) && d.state.indexing == IndexingBefore(q, oracle, d.pass)
    ensures Told(q, oracle, d)
  {
    assert ErrorsBefore(q, oracle, d.pass) + [] == ErrorsBefore(q, oracle, d.pass);
  }

  lemma {:induction false} PassBefore(c: Config, u: Update, r: Reply)
    requires Between(c.node) && !c.errored
    ensures var d := Advance(c, u, r);
      && d.pass == c.pass + 1 && d.state.errors == c.state.errors + u.errors
      && !d.errored && d.node in {Ingestion, Comparator, End}
  {}

  lemma {:induction false} TellsBetween(q: Request, oracle: nat -> Reply, c: Config, u: Update, i: nat)
    requires Between(c.node) && !c.errored && ReadBy(q, oracle, c.pass) == Some(i)
    requires c.state.errors == ErrorsBefore(q, oracle, c.pass) + OwnErrors(q, i, oracle(c.pass))
    requires u.errors == IndexErrors(q, i, oracle(c.pass))
    requires Merge(c.state.indexing, u.indexing) == IndexingBefore(q, oracle, c.pass + 1)
    ensures Told(q, oracle, Advance(c, u, oracle(c.pass)))
  {
    TellsNextPass(q, oracle, c.pass, i, c.state.errors, u.errors);
    PassBefore(c, u, oracle(c.pass));
    ToldWithNothing(q, oracle, Advance(c, u, oracle(c.pass)));
  }

  lemma {:induction false} FailureSaysNothing(q: Request, c: Config, r: Reply)
    requires c.node.PaperFailureFinalize? && InStep(q, c) && AtPaperFailure(q, c, r)
    ensures PaperFailureFinalizeNode(c.state).errors == [] && PaperFailureFinalizeNode(c.state).indexing.Keep?
    ensures !GoesToIndexing(q, c.reading, r)
  {
    assert CurrentUrl(c.state.input, c.state.index) == Ok(UrlOf(q, c.state.index));
  }

  lemma {:induction false} StepTells(q: Request, oracle: nat -> Reply, c: Config, u: Update)
    requires Tracks(q, oracle, c) && Reads(q, oracle, c) && Told(q, oracle, c)
    requires !c.node.End? && u == NodeUpdate(c.node, c.state, oracle(c.pass))
    ensures Told(q, oracle, Advance(c, u, oracle(c.pass)))
  {
    if c.node.ChunkAndIndex? {
      IndexSays(q, c, oracle(c.pass));
      IndexingNext(q, oracle, c.pass, c.reading);
      TellsBetween(q, oracle, c, u, c.reading);
    } else if c.node.PaperFailureFinalize? {
      FailureSaysNothing(q, c, oracle(c.pass));
      IndexingNext(q, oracle, c.pass, c.reading);
      TellsBetween(q, oracle, c, u, c.reading);
    } else {
      NodeSays(q, oracle, c);
      TellsWithinPass(q, oracle, c, u);
    }
  }

  lemma {:induction false} StepMarks(q: Request, oracle: nat -> Reply, c: Config, u: Update, d: Config)
    requires Moves(q, oracle, c, u, d) && Recounts(q, oracle, c)
    ensures MarksTold(q, oracle, d.state.errors, d.errorMark, d.slotPass)
  {
    if u.papers == [] {
      MarksKept(q, oracle, c.state.errors, u.errors, c.errorMark, c.slotPass);
    } else {
      if c.node.ReportFinalize? { AllSaid(q, c, oracle(c.pass)); }
      assert SoFar(q, c, oracle(c.pass)) == OwnErrors(q, |c.errorMark|, oracle(c.pass));
      MarkAdded(q, oracle, c.state.errors, u.errors, c.errorMark, c.slotPass, c.pass);
    }
  }

  lemma {:induction false} NextRecounts(q: Request, oracle: nat -> Reply, c: Config)
    requires Tracks(q, oracle, c) && Reads(q, oracle, c) && Recounts(q, oracle, c)
    ensures Recounts(q, oracle, Step(c, oracle))
  {
    if !c.node.End? {
      var u := NodeUpdate(c.node, c.state, oracle(c.pass));
      StepMoves(q, oracle, c);
      StepTells(q, oracle, c, u);
      StepMarks(q, oracle, c, u, Step(c, oracle));
    }
  }

  lemma {:induction false} StartRecounts(q: Request, oracle: nat -> Reply)
    ensures Inv(q, oracle, Start(q)) && Follows(q, oracle, Start(q)) && Recounts(q, oracle, Start(q))
  {
    StartFollows(q, oracle);
  }

  /** At every moment of every run the error list, and its part at each recorded slot, are those
      that the replies spell out. */
  lemma {:induction false} RunRecounts(q: Request, oracle: nat -> Reply, n: nat)
    ensures Recounts(q, oracle, Run(q, oracle, n))
  {
    var p := c => Inv(q, oracle, c) && Follows(q, oracle, c) && Recounts(q, oracle, c);
    StartRecounts(q, oracle);
    forall c | p(c) ensures p(Step(c, oracle)) {
      StepKeepsInv(q, oracle, c);
      NextFollows(q, oracle, c);
      NextRecounts(q, oracle, c);
    }
    Throughout(p, q, oracle, n);
  }

  // ----- the error lists of the slots -----

  /** `errors: []` clears nothing: the list only grows, and every slot starts with all the
      messages that any earlier slot was recorded with. A finished paper holds exactly those. */
  lemma {:induction false} ErrorListsAccumulate(q: Request, oracle: nat -> Reply, n: nat)
    ensures var c := Run(q, oracle, n);
      && |c.errorMark| == |c.state.papers|
      && (forall k :: 0 <= k < |c.errorMark| ==> c.errorMark[k] <= |c.state.errors|)
      && (forall j, k :: 0 <= j <= k < |c.errorMark| ==>
            Messages(c.state.errors[..c.errorMark[j]]) <= c.state.papers[k].errors)
      && (forall k :: 0 <= k < |c.errorMark| && c.state.papers[k].completed ==>
            c.state.papers[k].errors == Messages(c.state.errors[..c.errorMark[k]]))
      && c.state.errors <= Run(q, oracle, n + 1).state.errors
  {
    RunKeepsInv(q, oracle, n);
    StepKeepsInv(q, oracle, Run(q, oracle, n));
    AccumulatedErrors(q, oracle, Run(q, oracle, n));
  }

  lemma {:induction false} AccumulatedErrors(q: Request, oracle: nat -> Reply, c: Config)
    requires Recorded(q, oracle, c)
    ensures |c.errorMark| == |c.state.papers|
    ensures forall k :: 0 <= k < |c.errorMark| ==> c.errorMark[k] <= |c.state.errors|
    ensures forall j, k :: 0 <= j <= k < |c.errorMark| ==>
      Messages(c.state.errors[..c.errorMark[j]]) <= c.state.papers[k].errors
    ensures forall k :: 0 <= k < |c.errorMark| && c.state.papers[k].completed ==>
      c.state.papers[k].errors == Messages(c.state.errors[..c.errorMark[k]])
  {
    forall j, k | 0 <= j <= k < |c.errorMark|
      ensures Messages(c.state.errors[..c.errorMark[j]]) <= c.state.papers[k].errors
    {
      AccumulatedPair(q, oracle, c, j, k);
    }
    forall k | 0 <= k < |c.errorMark|
      ensures c.errorMark[k] <= |c.state.errors|
      ensures c.state.papers[k].completed ==> c.state.papers[k].errors == Messages(c.state.errors[..c.errorMark[k]])
    {
      ErrorsOfSlot(q, oracle, c, k);
    }
  }

  lemma {:induction false} AccumulatedPair(q: Request, oracle: nat -> Reply, c: Config, j: nat, k: nat)
    requires Recorded(q, oracle, c) && j <= k < |c.errorMark|
    ensures Messages(c.state.errors[..c.errorMark[j]]) <= c.state.papers[k].errors
  {
    ErrorsOfSlot(q, oracle, c, k);
    PrefixMessages(c.state.errors, c.errorMark[j], c.errorMark[k]);
  }

  lemma {:induction false} ErrorsOfSlot(q: Request, oracle: nat -> Reply, c: Config, k: nat)
    requires Recorded(q, oracle, c) && k < |c.errorMark|
    ensures |c.errorMark| == |c.state.papers| && c.errorMark[k] <= |c.state.errors|
    ensures var messages := Messages(c.state.errors[..c.errorMark[k]]); var slot := c.state.papers[k];
      messages <= slot.errors && (slot.completed ==> slot.errors == messages)
  {
    SlotKeepsMessages(q, k, oracle(c.slotPass[k]), Messages(c.state.errors[..c.errorMark[k]]), c.state.papers[k]);
  }

  lemma {:induction false} SlotKeepsMessages(q: Request, k: int, r: Reply, messages: seq<string>, slot: PaperSlot)
    requires SlotCheck(q)(k, r, messages, slot)
    ensures messages <= slot.errors
    ensures slot.completed ==> slot.errors == messages
  {
    assert slot.(errors := []).completed == slot.completed;
  }

  lemma {:induction false} PrefixMessages(errors: seq<StructuredError>, i: nat, j: nat)
    requires i <= j <= |errors|
    ensures Messages(errors[..i]) <= Messages(errors[..j])
  {
    assert forall k :: 0 <= k < i ==> Messages(errors[..i])[k] == Messages(errors[..j])[k];
  }

  /** The error list of a slot, from the replies: all messages of the earlier passes, the pass's
      own, and for a failed paper the node it failed at. */
  lemma {:induction false} SlotErrorsFromReplies(q: Request, oracle: nat -> Reply, n: nat, k: nat)
    requires k < |Run(q, oracle, n).state.papers|
    ensures var c := Run(q, oracle, n);
      && k < |c.slotPass| && ReadBy(q, oracle, c.slotPass[k]) == Some(k)
      && c.state.papers[k].errors == SlotMessages(q, k, oracle(c.slotPass[k]), ErrorsBefore(q, oracle, c.slotPass[k]))
  {
    RunKeepsInv(q, oracle, n);
    RunFollows(q, oracle, n);
    RunRecounts(q, oracle, n);
    ErrorsOfMark(q, oracle, Run(q, oracle, n), k);
  }

  lemma {:induction false} ErrorsOfMark(q: Request, oracle: nat -> Reply, c: Config, k: nat)
    requires Inv(q, oracle, c) && SlotReads(q, oracle, c.slotPass) && Recounts(q, oracle, c) && k < |c.state.papers|
    ensures && k < |c.slotPass| && ReadBy(q, oracle, c.slotPass[k]) == Some(k)
            && c.state.papers[k].errors == SlotMessages(q, k, oracle(c.slotPass[k]), ErrorsBefore(q, oracle, c.slotPass[k]))
  {
    SlotsMatch(q, oracle, c);
    assert MarkCheck(q, oracle, c.state.errors)(k, c.errorMark[k], c.slotPass[k]);
  }

  /** No pass before p says anything. */
  predicate SilentBefore(q: Request, oracle: nat -> Reply, p: nat) {
    AllBefore(SilentPasses(q, oracle), p)
  }

  function SilentPasses(q: Request, oracle: nat -> Reply): nat -> bool {
    (r: nat) => SilentPass(q, oracle, r)
  }

  predicate AllBefore(f: nat -> bool, p: nat) {
    forall r: nat :: r < p ==> f(r)
  }

  predicate SilentPass(q: Request, oracle: nat -> Reply, r: nat) {
    match ReadBy(q, oracle, r)
    case None => true
    case Some(i) => OwnErrors(q, i, oracle(r)) == [] && IndexErrors(q, i, oracle(r)) == []
  }

  lemma {:induction false} AllBeforeNext(f: nat -> bool, p: nat)
    ensures AllBefore(f, p + 1) <==> AllBefore(f, p) && f(p)
  {
    if AllBefore(f, p) && f(p) {
      forall r: nat | r < p + 1 ensures f(r) { assert r < p || r == p; }
    }
  }

  /** A list that grows by nothing exactly at the passes where f holds. */
  lemma {:induction false} EmptyIff(list: nat -> seq<StructuredError>, f: nat -> bool, p: nat)
    requires list(0) == [] && forall r: nat :: list(r + 1) == [] <==> list(r) == [] && f(r)
    ensures list(p) == [] <==> AllBefore(f, p)
  {
    if p > 0 {
      EmptyIff(list, f, p - 1);
      AllBeforeNext(f, p - 1);
      assert list((p - 1) + 1) == [] <==> list(p - 1) == [] && f(p - 1);
    }
  }

  lemma {:induction false} SilentIff(q: Request, oracle: nat -> Reply, p: nat)
    ensures ErrorsBefore(q, oracle, p) == [] <==> SilentBefore(q, oracle, p)
  {
    var list := (r: nat) => ErrorsBefore(q, oracle, r);
    forall r: nat ensures list(r + 1) == [] <==> list(r) == [] && SilentPasses(q, oracle)(r) {
      SilentNext(q, oracle, r);
    }
    EmptyIff(list, SilentPasses(q, oracle), p);
  }

  lemma {:induction false} SilentNext(q: Request, oracle: nat -> Reply, p: nat)
    ensures ErrorsBefore(q, oracle, p + 1) == [] <==> ErrorsBefore(q, oracle, p) == [] && SilentPass(q, oracle, p)
  {
    match ReadBy(q, oracle, p)
    case None =>
    case Some(i) => ErrorsNext(q, oracle, p, i);
  }

  lemma {:induction false} LastIsMarker(own: seq<StructuredError>, before: seq<StructuredError>, marker: string)
    requires own != [] && marker !in Messages(own)
    ensures Messages(before + own) != Messages(own) + [marker]
  {
    var longer := Messages(before + own);
    assert longer[|longer| - 1] == Messages(own)[|own| - 1] && Messages(own)[|own| - 1] in Messages(own);
    assert (Messages(own) + [marker])[|own|] == marker;
  }

  lemma {:induction false} OwnListIff(q: Request, k: nat, r: Reply, before: seq<StructuredError>)
    ensures SlotMessages(q, k, r, before) == SlotMessages(q, k, r, []) <==> before == []
  {
    var own, v := OwnErrors(q, k, r), PassVerdict(q, k, r);
    assert [] + own == own;
    if before != [] && v.Broken? && FailedAt(v.at) !in Messages(own) {
      LastIsMarker(own, before, FailedAt(v.at));
    }
  }

  /** So a slot holds nothing but its own pass's messages exactly when every earlier pass of the
      run was silent: no warning, no failed call, no failed indexing. */
  lemma {:induction false} OwnMessagesOnlyIff(q: Request, oracle: nat -> Reply, n: nat, k: nat)
    requires k < |Run(q, oracle, n).state.papers|
    ensures var c := Run(q, oracle, n);
      && k < |c.slotPass|
      && (c.state.papers[k].errors == SlotMessages(q, k, oracle(c.slotPass[k]), [])
          <==> SilentBefore(q, oracle, c.slotPass[k]))
  {
    var c := Run(q, oracle, n);
    SlotErrorsFromReplies(q, oracle, n, k);
    OwnListIff(q, k, oracle(c.slotPass[k]), ErrorsBefore(q, oracle, c.slotPass[k]));
    SilentIff(q, oracle, c.slotPass[k]);
  }

  // ----- runs in which lists pile up -----

  function IngestionFailures(oracle: nat -> Reply, n: nat): (r: seq<StructuredError>)
    requires forall p: nat :: oracle(p).ingestion.NotIngested?
    ensures |r| == n
    ensures forall p :: 0 <= p < n ==> r[p] == IngestionFailure(oracle(p))
  {
    seq(n, p requires 0 <= p < n => IngestionFailure(oracle(p)))
  }

  /** The error of an ingestion that fails in a batch, which goes on. */
  function IngestionFailure(r: Reply): StructuredError
    requires r.ingestion.NotIngested?
  {
    StructuredError(r.ingestion.message, Error, true)
  }

  lemma {:induction false} FailuresBefore(urls: seq<string>, oracle: nat -> Reply, p: nat)
    requires p <= |urls| && |urls| >= 2 && forall j :: 0 <= j < p ==> GoodUrl(urls[j])
    requires forall p: nat :: oracle(p).ingestion.NotIngested?
    ensures ErrorsBefore(Urls(urls), oracle, p) == IngestionFailures(oracle, p)
  {
    if p > 0 {
      FailuresBefore(urls, oracle, p - 1);
      FailedPapersAreRead(urls, oracle, p - 1);
      FailuresNext(urls, oracle, p - 1);
    }
  }

  lemma {:induction false} FailuresNext(urls: seq<string>, oracle: nat -> Reply, p: nat)
    requires |urls| >= 2 && p < |urls| && GoodUrl(urls[p]) && forall p: nat :: oracle(p).ingestion.NotIngested?
    requires ReadBy(Urls(urls), oracle, p) == Some(p)
    requires ErrorsBefore(Urls(urls), oracle, p) == IngestionFailures(oracle, p)
    ensures ErrorsBefore(Urls(urls), oracle, p + 1) == IngestionFailures(oracle, p + 1)
  {
    FailureSays(urls, oracle, p);
    ErrorsNext(Urls(urls), oracle, p, p);
    FailuresSnoc(oracle, p);
    assert IngestionFailures(oracle, p + 1) + [] == IngestionFailures(oracle, p + 1);
  }

  lemma {:induction false} FailureSays(urls: seq<string>, oracle: nat -> Reply, k: nat)
    requires |urls| >= 2 && k < |urls| && GoodUrl(urls[k]) && oracle(k).ingestion.NotIngested?
    ensures PassVerdict(Urls(urls), k, oracle(k)) == Broken(Ingestion, oracle(k).ingestion.message)
    ensures OwnErrors(Urls(urls), k, oracle(k)) == [IngestionFailure(oracle(k))]
    ensures IndexErrors(Urls(urls), k, oracle(k)) == []
  {
    GoodUnlessRejected(urls, k, oracle(k));
  }

  /** When every ingestion fails, slot k holds the failures of papers 0 to k. */
  lemma {:induction false} FailuresPileUp(urls: seq<string>, oracle: nat -> Reply, n: nat, k: nat)
    requires |urls| >= 2 && forall j :: 0 <= j < |urls| ==> GoodUrl(urls[j])
    requires forall p: nat :: oracle(p).ingestion.NotIngested?
    requires k < |Run(Urls(urls), oracle, n).state.papers|
    ensures Messages(IngestionFailures(oracle, k + 1)) <= Run(Urls(urls), oracle, n).state.papers[k].errors
  {
    var q, c := Urls(urls), Run(Urls(urls), oracle, n);
    SlotErrorsFromReplies(q, oracle, n, k);
    BatchSize(q, oracle, n);
    PassOfFailure(urls, oracle, c.slotPass[k], k);
    FailureList(urls, oracle, k, c.state.papers[k].errors);
  }

  lemma {:induction false} FailureList(urls: seq<string>, oracle: nat -> Reply, k: nat, errors: seq<string>)
    requires |urls| >= 2 && k < |urls| && forall j :: 0 <= j < |urls| ==> GoodUrl(urls[j])
    requires forall p: nat :: oracle(p).ingestion.NotIngested?
    requires errors == SlotMessages(Urls(urls), k, oracle(k), ErrorsBefore(Urls(urls), oracle, k))
    ensures Messages(IngestionFailures(oracle, k + 1)) <= errors
  {
    assert ErrorsBefore(Urls(urls), oracle, k) == IngestionFailures(oracle, k) by { FailuresBefore(urls, oracle, k); }
    assert OwnErrors(Urls(urls), k, oracle(k)) == [IngestionFailure(oracle(k))] by { FailureSays(urls, oracle, k); }
    SlotStartsWith(Urls(urls), k, oracle(k), IngestionFailures(oracle, k));
    FailuresSnoc(oracle, k);
  }

  lemma {:induction false} FailuresSnoc(oracle: nat -> Reply, n: nat)
    requires forall p: nat :: oracle(p).ingestion.NotIngested?
    ensures IngestionFailures(oracle, n + 1) == IngestionFailures(oracle, n) + [IngestionFailure(oracle(n))]
  {}

  lemma {:induction false} SlotStartsWith(q: Request, k: nat, r: Reply, before: seq<StructuredError>)
    ensures Messages(before + OwnErrors(q, k, r)) <= SlotMessages(q, k, r, before)
  {}

  lemma {:induction false} BatchSize(q: Request, oracle: nat -> Reply, n: nat)
    ensures |Run(q, oracle, n).state.papers| <= InputOf(q).totalPapers
  {
    RunKeepsInv(q, oracle, n);
  }

  lemma {:induction false} PassOfFailure(urls: seq<string>, oracle: nat -> Reply, p: nat, k: nat)
    requires |urls| >= 2 && forall j :: 0 <= j < |urls| ==> GoodUrl(urls[j])
    requires forall p: nat :: oracle(p).ingestion.NotIngested?
    requires ReadBy(Urls(urls), oracle, p) == Some(k)
    ensures p == k
  {
    if p <= |urls| {
      FailedPapersAreRead(urls, oracle, p);
    } else {
      FailedPapersAreRead(urls, oracle, |urls|);
      ReadsInOrder(Urls(urls), oracle, |urls|, p);
    }
  }

  // ----- which papers are rejected -----

  predicate Accepts(q: Request, i: nat)
    requires ManyPapers(q) ==> i < |q.urls|
  {
    match q
    case Urls(urls) => if |urls| >= 2 then GoodUrl(urls[i]) else |urls| == 1 && GoodUrl(urls[0])
    case Single(inputType, value) => (inputType.Url? && GoodUrl(value)) || (inputType.Pdf? && !IsBlank(value))
  }

  lemma {:induction false} RejectionIsInputs(q: Request, i: nat, r: Reply)
    ensures PassVerdict(q, i, r).Rejected? <==>
      ValidateInput(InputOf(q), i).Some? || InputOf(q).inputType.TopicQuery?
    ensures PassVerdict(q, i, r).Rejected? ==>
      PassVerdict(q, i, r).problem == if ValidateInput(InputOf(q), i).Some? then ValidateInput(InputOf(q), i).value else TopicRoute
  {}

  lemma {:induction false} BatchProblem(urls: seq<string>, i: nat)
    requires |urls| >= 2 && i < |urls|
    ensures ValidateInput(InputOf(Urls(urls)), i)
      == if IsBlank(urls[i]) then Some(BlankUrl) else if GoodUrl(urls[i]) then None else Some(BadUrl)
  {}

  lemma {:induction false} FewUrlsProblem(urls: seq<string>, i: nat)
    requires |urls| < 2
    ensures ValidateInput(InputOf(Urls(urls)), i)
      == if urls == [] || IsBlank(urls[0]) then Some(BlankInput) else if GoodUrl(urls[0]) then None else Some(BadInput)
  {
    assert IsBlank("");
  }

  lemma {:induction false} SingleProblem(inputType: InputType, value: string, i: nat)
    ensures ValidateInput(InputOf(Single(inputType, value)), i)
      == match inputType
         case Missing => Some(NoInputType)
         case Unknown(_) => Some(UnknownInputType)
         case Url => if IsBlank(value) then Some(BlankInput) else if GoodUrl(value) then None else Some(BadInput)
         case _ => if IsBlank(value) then Some(BlankInput) else None
  {}

  /** Which problem a rejected paper is rejected for. */
  function Objection(q: Request, i: nat): InputProblem
    requires ManyPapers(q) ==> i < |q.urls|
  {
    match q
    case Urls(urls) =>
      if |urls| < 2 then if urls == [] || IsBlank(urls[0]) then BlankInput else BadInput
      else if IsBlank(urls[i]) then BlankUrl else BadUrl
    case Single(inputType, value) =>
      match inputType
      case Missing => NoInputType
      case Unknown(_) => UnknownInputType
      case Url => if IsBlank(value) then BlankInput else BadInput
      case _ => if IsBlank(value) then BlankInput else TopicRoute
  }

  /** A paper is accepted exactly if its URL is not blank and names a scheme, or it is a file
      and not blank; what is wrong with a rejected one. */
  lemma {:induction false} RejectedIff(q: Request, i: nat, r: Reply)
    requires ManyPapers(q) ==> i < |q.urls|
    ensures PassVerdict(q, i, r).Rejected? <==> !Accepts(q, i)
    ensures PassVerdict(q, i, r).Rejected? ==> PassVerdict(q, i, r).problem == Objection(q, i)
  {
    RejectionIsInputs(q, i, r);
    match q
    case Urls(urls) => if |urls| >= 2 { BatchProblem(urls, i); } else { FewUrlsProblem(urls, i); }
    case Single(inputType, value) => SingleProblem(inputType, value, i);
  }
}
