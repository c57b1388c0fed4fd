/** Which papers are reviewed, and what is recorded of them, in terms of the replies and of the
    numbers in agents/extraction.py:180-257. */
module AnalysisReview {
  import opened Wrappers
  import opened Schemas
  import opened Text
  import opened AnalysisGraph
  import opened AnalysisRuns
  import opened AnalysisTheorems

  /** After the extraction of any pass of any run: the paper goes on exactly if it had text and the
      call went well, and is then reviewed exactly if only its abstract was read or the confidence is below 0.7. */
  lemma {:induction false} ReviewedIff(q: Request, oracle: nat -> Reply, n: nat)
    requires Run(q, oracle, n).node.Extraction?
    ensures var r := oracle(Run(q, oracle, n).pass); var next := Run(q, oracle, n + 1).node;
      && r.ingestion.Ingested?
      && (next.HumanReview? || next.Benchmark? <==> !IsBlank(r.ingestion.rawText) && r.extraction.Extracted?)
      && (next.HumanReview? || next.Benchmark? ==> (next.HumanReview? <==> NeedsReview(r)))
  {
    var c := Run(q, oracle, n);
    RunKeepsInv(q, oracle, n);
    ExtractionLeads(q, c, oracle(c.pass));
    assert Run(q, oracle, n + 1) == Step(c, oracle);
  }

  lemma {:induction false} ExtractionLeads(q: Request, c: Config, r: Reply)
    requires c.node.Extraction? && InStep(q, c) && AtExtractionNode(q, c, r)
    ensures var next := Advance(c, ExtractionNode(c.state, r.extraction), r).node;
      && (next.HumanReview? || next.Benchmark? <==> !IsBlank(r.ingestion.rawText) && r.extraction.Extracted?)
      && (next.HumanReview? || next.Benchmark? ==> (next.HumanReview? <==> NeedsReview(r)))
  {
    if IsBlank(r.ingestion.rawText) {
      PassBreaks(q, c, r, Extraction, NO_TEXT);
    } else if r.extraction.NotExtracted? {
      PassBreaks(q, c, r, Extraction, r.extraction.message);
    } else {
      ExtractionSucceeds(q, c, r);
    }
  }

  /** The score kept for an extraction is the model's, at most 1, and at most 0.5 for an abstract;
      a paper under review gives that score as the reason. */
  lemma {:induction false} ScoreIsCapped(q: Request, oracle: nat -> Reply, n: nat)
    requires Run(q, oracle, n).node.HumanReview? || Run(q, oracle, n).node.Benchmark?
    ensures var c := Run(q, oracle, n); var r := oracle(c.pass); var approach := c.state.scratch.approach;
      && r.ingestion.Ingested? && r.extraction.Extracted?
      && approach.confidenceScores == map[Extraction := Score(r)]
      && approach.needsHumanReview == c.node.HumanReview?
      && approach.reviewReason == if c.node.HumanReview? then Some(LowConfidence(Score(r))) else None
  {
    RunKeepsInv(q, oracle, n);
    ScoreAt(q, Run(q, oracle, n), oracle(Run(q, oracle, n).pass));
  }

  lemma {:induction false} ScoreAt(q: Request, c: Config, r: Reply)
    requires (c.node.HumanReview? && AtHumanReview(q, c, r)) || (c.node.Benchmark? && AtBenchmarkNode(q, c, r))
    ensures var approach := c.state.scratch.approach;
      && r.ingestion.Ingested? && r.extraction.Extracted?
      && approach.confidenceScores == map[Extraction := Score(r)]
      && approach.needsHumanReview == c.node.HumanReview?
      && approach.reviewReason == if c.node.HumanReview? then Some(LowConfidence(Score(r))) else None
  {}

  /** What a completed slot holds of the replies of its pass: the reviewer's extraction exactly
      where the paper was doubtful and he replaced it, and everything else as the models gave it. */
  predicate HoldsReplies(slot: PaperSlot, r: Reply) {
    && r.ingestion.Ingested? && r.extraction.Extracted? && r.readiness.Assessed? && r.report.Reported?
    && slot.metadata == Some(r.ingestion.metadata)
    && slot.methodExtraction
       == (if NeedsReview(r) && r.review.Set? then r.review.value else Some(r.extraction.extraction))
    && slot.benchmarks == (if r.benchmark.Benchmarked? then r.benchmark.benchmarks else [])
    && |slot.candidates| == |slot.benchmarks|
    && (forall i :: 0 <= i < |slot.benchmarks| ==> Mirrors(slot.candidates[i], slot.benchmarks[i]))
    && slot.extractorVersion == Some("legacy_mirror_v1")
    && slot.readiness == Some(r.readiness.readiness)
    && slot.report == Some(Supported(r.report.report, slot.benchmarks, r.readiness.readiness.maturity))
    && slot.markdown == Some(r.report.markdown)
  }

  /** The report as far as the evidence supports building: not on a research-only paper, and
      without benchmarks at most a prototype. */
  function Supported(report: EngineerReport, benchmarks: seq<BenchmarkResult>, maturity: Maturity): EngineerReport {
    if maturity == ResearchOnly && report.action in {ImplementNow, Prototype}
    then EngineerReport(report.executiveSummary, ResearchOnlyDifficulty, Watch)
    else if benchmarks == [] && report.action == ImplementNow
    then EngineerReport(report.executiveSummary, report.difficulty, Prototype)
    else report
  }

  predicate Mirrors(c: BenchmarkCandidate, b: BenchmarkResult) {
    c.task == b.task && c.metric == b.metric && c.value == b.value && c.unit == b.unit && c.methodOrModel == b.conditions
  }

  lemma {:induction false} CompletedSlotHolds(q: Request, oracle: nat -> Reply, n: nat, k: nat)
    requires k < |Run(q, oracle, n).state.papers| && Run(q, oracle, n).state.papers[k].completed
    ensures var c := Run(q, oracle, n);
      k < |c.slotPass| && HoldsReplies(c.state.papers[k], oracle(c.slotPass[k]))
  {
    var c := Run(q, oracle, n);
    RunKeepsInv(q, oracle, n);
    SlotsMatch(q, oracle, c);
    DoneSlotHolds(q, k, oracle(c.slotPass[k]), c.state.papers[k]);
  }

  lemma {:induction false} DoneSlotHolds(q: Request, k: int, r: Reply, slot: PaperSlot)
    requires SlotFromPass(q, k, r, slot) && slot.completed
    ensures HoldsReplies(slot, r)
  {
    var bare := slot.(errors := []);
    assert bare.completed && bare.metadata == slot.metadata && bare.methodExtraction == slot.methodExtraction;
    assert bare.benchmarks == slot.benchmarks && bare.candidates == slot.candidates && bare.report == slot.report;
    assert bare.readiness == slot.readiness && bare.markdown == slot.markdown && bare.extractorVersion == slot.extractorVersion;
  }

  /** What a failed slot keeps: everything that was found before the call that failed. */
  predicate HoldsFindings(slot: PaperSlot, r: Reply) {
    var extracted := r.ingestion.Ingested? && !IsBlank(r.ingestion.rawText) && r.extraction.Extracted?;
    && slot.metadata == (if r.ingestion.Ingested? then Some(r.ingestion.metadata) else None)
    && slot.methodExtraction
       == (if !extracted then None
           else if NeedsReview(r) && r.review.Set? then r.review.value else Some(r.extraction.extraction))
    && slot.benchmarks == (if extracted && r.benchmark.Benchmarked? then r.benchmark.benchmarks else [])
    && slot.candidates == [] && slot.extractorVersion == None
    && slot.readiness == None && slot.report == None && slot.markdown == None
  }

  lemma {:induction false} FailedSlotHolds(q: Request, oracle: nat -> Reply, n: nat, k: nat)
    requires k < |Run(q, oracle, n).state.papers| && !Run(q, oracle, n).state.papers[k].completed
    ensures var c := Run(q, oracle, n);
      k < |c.slotPass| && HoldsFindings(c.state.papers[k], oracle(c.slotPass[k]))
  {
    var c := Run(q, oracle, n);
    RunKeepsInv(q, oracle, n);
    SlotsMatch(q, oracle, c);
    BrokenSlotHolds(q, k, oracle(c.slotPass[k]), c.state.papers[k]);
  }

  lemma {:induction false} BrokenSlotHolds(q: Request, k: int, r: Reply, slot: PaperSlot)
    requires SlotFromPass(q, k, r, slot) && !slot.completed
    ensures HoldsFindings(slot, r)
  {
    var bare := slot.(errors := []);
    assert !bare.completed && bare.metadata == slot.metadata && bare.methodExtraction == slot.methodExtraction;
    assert bare.benchmarks == slot.benchmarks && bare.candidates == slot.candidates && bare.report == slot.report;
    assert bare.readiness == slot.readiness && bare.markdown == slot.markdown && bare.extractorVersion == slot.extractorVersion;
  }

  /** Slot k is of paper k: the k-th URL of a list, or the one input. */
  lemma {:induction false} SlotIsOfPaper(q: Request, oracle: nat -> Reply, n: nat, k: nat)
    requires k < |Run(q, oracle, n).state.papers|
    ensures var slot := Run(q, oracle, n).state.papers[k];
      && slot.paperIndex == k
      && (q.Urls? ==> k < |q.urls| && slot.inputUrl == q.urls[k])
      && (q.Single? ==> k == 0 && slot.inputUrl == q.inputValue)
  {
    var c := Run(q, oracle, n);
    RunKeepsInv(q, oracle, n);
    SlotsMatch(q, oracle, c);
    NamedAfterPaper(q, k, oracle(c.slotPass[k]), c.state.papers[k]);
  }

  lemma {:induction false} NamedAfterPaper(q: Request, k: nat, r: Reply, slot: PaperSlot)
    requires SlotFromPass(q, k, r, slot) && k < InputOf(q).totalPapers
    ensures slot.paperIndex == k
    ensures q.Urls? ==> k < |q.urls| && slot.inputUrl == q.urls[k]
    ensures q.Single? ==> k == 0 && slot.inputUrl == q.inputValue
  {
    var bare := slot.(errors := []);
    assert bare.paperIndex == slot.paperIndex && bare.inputUrl == slot.inputUrl;
  }
}
