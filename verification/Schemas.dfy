/** The records that several components exchange (models/schemas.py, models/errors.py).
    Fields that no modelled branch reads or copies are dropped. */
module Schemas {
  import opened Wrappers

  datatype PaperMetadata = PaperMetadata(title: string, abstractText: string, arxivId: Option<string>)

  datatype MethodExtraction = MethodExtraction(methodName: string, description: string)

  datatype BenchmarkResult = BenchmarkResult(
    task: string, metric: string, value: real,
    unit: Option<string>, conditions: Option<string>)

  datatype BenchmarkCandidate = BenchmarkCandidate(
    task: string, metric: string, value: real,
    unit: Option<string>, methodOrModel: Option<string>)

  datatype Maturity = ResearchOnly | Experimental | ProductionReady

  datatype Difficulty = Trivial | Moderate | Significant | ResearchOnlyDifficulty

  datatype Action = ImplementNow | Prototype | Watch | Skip

  datatype ProductionReadiness = ProductionReadiness(
    hasOpenCode: bool, codeUrl: Option<string>, huggingfaceModel: Option<string>,
    maturity: Maturity)

  datatype EngineerReport = EngineerReport(
    executiveSummary: string, difficulty: Difficulty, action: Action)

  /** One finished paper of a run. */
  datatype PaperSlot = PaperSlot(
    paperIndex: int, inputUrl: string,
    metadata: Option<PaperMetadata>, methodExtraction: Option<MethodExtraction>,
    benchmarks: seq<BenchmarkResult>, candidates: seq<BenchmarkCandidate>,
    extractorVersion: Option<string>, readiness: Option<ProductionReadiness>,
    report: Option<EngineerReport>, markdown: Option<string>,
    errors: seq<string>, completed: bool)

  datatype Severity = Warning | Error | Fatal

  datatype StructuredError = StructuredError(
    message: string, severity: Severity, recoverable: bool)

  /** The message column of an error list. */
  function Messages(errors: seq<StructuredError>): (r: seq<string>)
    ensures |r| == |errors|
    ensures forall i :: 0 <= i < |r| ==> r[i] == errors[i].message
  {
    seq(|errors|, i requires 0 <= i < |errors| => errors[i].message)
  }
}
