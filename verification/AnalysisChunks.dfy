/** The chunker calls of the analysis graph (agents/chunk_and_index.py) and the ids under which
    chunks are stored (services/chunking.py:80-218). */
module AnalysisChunks {
  import opened Wrappers
  import opened Schemas
  import opened Text
  import opened AnalysisGraph
  import opened AnalysisRuns
  import opened AnalysisPasses
  import opened AnalysisHalting
  import opened AnalysisTheorems
  import Retrieval

  /** The id under which chunks are stored; versions are cut and URLs are hashed by parameters. */
  function PaperId(metadata: Option<PaperMetadata>, url: string, index: int,
                   versionless: string -> string, digest: string -> string): string {
    if HasArxivId(metadata) then versionless(metadata.value.arxivId.value)
    else if !IsBlank(url) then "url:" + digest(Strip(url))
    else "paper-index:" + if index < 0 then "-" + Decimal(-index) else Decimal(index)
  }

  predicate HasArxivId(metadata: Option<PaperMetadata>) {
    metadata.Some? && metadata.value.arxivId.Some? && metadata.value.arxivId.value != ""
  }

  /** Two papers without arXiv ids share an id exactly if their URLs, stripped, have the same digest,
      or both are blank and they have the same index. */
  lemma {:induction false} SharedIdIff(
    a: Option<PaperMetadata>, u: string, i: int, b: Option<PaperMetadata>, v: string, j: int,
    versionless: string -> string, digest: string -> string)
    requires !HasArxivId(a) && !HasArxivId(b)
    ensures PaperId(a, u, i, versionless, digest) == PaperId(b, v, j, versionless, digest)
      <==> if IsBlank(u) then IsBlank(v) && i == j else !IsBlank(v) && digest(Strip(u)) == digest(Strip(v))
  {
    var x, y := PaperId(a, u, i, versionless, digest), PaperId(b, v, j, versionless, digest);
    if IsBlank(u) && IsBlank(v) {
      assert x[12..] == SignedDecimal(i) && y[12..] == SignedDecimal(j);
      SignedDecimalTells(i, j);
    } else if !IsBlank(u) && !IsBlank(v) {
      assert x[4..] == digest(Strip(u)) && y[4..] == digest(Strip(v));
    } else {
      assert x[0] != y[0];
    }
  }

  function SignedDecimal(i: int): string { if i < 0 then "-" + Decimal(-i) else Decimal(i) }

  lemma {:induction false} DecimalTells(m: nat, n: nat)
    ensures Decimal(m) == Decimal(n) ==> m == n
  {
    ValueOfDecimal(m);
    ValueOfDecimal(n);
  }

  lemma {:induction false} SignShows(i: int)
    ensures SignedDecimal(i) != "" && (SignedDecimal(i)[0] == '-' <==> i < 0)
    ensures i < 0 ==> SignedDecimal(i)[1..] == Decimal(-i)
  {
    if i >= 0 { assert IsDigit(Decimal(i)[0]); }
  }

  lemma {:induction false} SignedDecimalTells(i: int, j: int)
    ensures SignedDecimal(i) == SignedDecimal(j) ==> i == j
  {
    SignShows(i);
    SignShows(j);
    if i < 0 && j < 0 { DecimalTells(-i, -j); } else if i >= 0 && j >= 0 { DecimalTells(i, j); }
  }

  /** The chunker is called exactly once for each pass that is reported, and for each that is
      not if a slot exists; in order. */
  lemma {:induction false} ChunkerCallsOfRun(q: Request, oracle: nat -> Reply, n: nat)
    ensures Run(q, oracle, n).chunked == CallsBefore(q, oracle, Run(q, oracle, n).pass)
  {
    RunFollows(q, oracle, n);
  }

  /** The text and metadata are those of the paper that the pass read; the slot is that
      paper's exactly if its report succeeded, and the one before otherwise. */
  predicate ComesFromPass(q: Request, oracle: nat -> Reply, call: ChunkCall) {
    var r := oracle(call.pass);
    && ReadBy(q, oracle, call.pass) == Some(call.owner)
    && r.ingestion.Ingested? && call.rawText == Some(r.ingestion.rawText) && call.metadata == Some(r.ingestion.metadata)
    && (call.paperIndex == call.owner <==> r.report.Reported?)
    && (r.report.NotReported? ==> call.paperIndex == call.owner - 1)
    && call.inputUrl == UrlOf(q, call.paperIndex)
  }

  /** The chunker files text under the paper it was read from exactly when that pass's report
      succeeded. After a failed report the text of paper i is filed under the index and the URL
      of slot i - 1. */
  lemma {:induction false} ChunkAttribution(q: Request, oracle: nat -> Reply, n: nat)
    ensures forall call :: call in Run(q, oracle, n).chunked ==> ComesFromPass(q, oracle, call)
  {
    ChunkerCallsOfRun(q, oracle, n);
    AllComeFromPasses(q, oracle, Run(q, oracle, n).pass);
  }

  lemma {:induction false} AllComeFromPasses(q: Request, oracle: nat -> Reply, p: nat)
    ensures forall call :: call in CallsBefore(q, oracle, p) ==> ComesFromPass(q, oracle, call)
  {
    if p > 0 {
      AllComeFromPasses(q, oracle, p - 1);
      match ReadBy(q, oracle, p - 1)
      case None =>
      case Some(i) => PassCalls(q, oracle, p - 1, i);
    }
  }

  lemma {:induction false} PassCalls(q: Request, oracle: nat -> Reply, p: nat, i: nat)
    requires ReadBy(q, oracle, p) == Some(i)
    ensures forall call :: call in CallsOf(q, p, i, oracle(p)) ==> ComesFromPass(q, oracle, call)
  {}

  /** Stored chunks keep their paper's id through that detour exactly as far as an arXiv id
      carries it; otherwise they get the id that slot i - 1 has without one. */
  lemma {:induction false} ChunkIds(
    q: Request, oracle: nat -> Reply, n: nat, call: ChunkCall, versionless: string -> string, digest: string -> string)
    requires call in Run(q, oracle, n).chunked
    ensures PaperId(call.metadata, call.inputUrl, call.paperIndex, versionless, digest)
      == if oracle(call.pass).report.Reported? || HasArxivId(call.metadata)
         then PaperId(call.metadata, UrlOf(q, call.owner), call.owner, versionless, digest)
         else PaperId(None, UrlOf(q, call.owner - 1), call.owner - 1, versionless, digest)
  {
    ChunkAttribution(q, oracle, n);
    assert ComesFromPass(q, oracle, call);
  }

  /** The first pass has these replies, and in every later one the report fails. */
  function ReportedOnce(r: Reply): nat -> Reply {
    p => if p == 0 then r else r.(report := NotReported(""))
  }

  /** Such calls: of two papers the first is completed, the second never reported. */
  lemma {:induction false} MisfiledCall(
    metadata: PaperMetadata, extraction: MethodExtraction, readiness: ProductionReadiness, report: EngineerReport)
    ensures var oracle := ReportedOnce(CompleteReply(metadata, extraction, readiness, report));
      exists n: nat :: FirstTwoCalls(Urls([FIRST_URL, SECOND_URL]), oracle, Run(Urls([FIRST_URL, SECOND_URL]), oracle, n).chunked)
  {
    var r := CompleteReply(metadata, extraction, readiness, report);
    SomeUrlsAreGood();
    assert "text"[0] == 't';
    CompletesOrNot([FIRST_URL, SECOND_URL], 0, r);
    CompletesOrNot([FIRST_URL, SECOND_URL], 1, r.(report := NotReported("")));
    SecondFilesUnderFirst(Urls([FIRST_URL, SECOND_URL]), ReportedOnce(r));
  }

  lemma {:induction false} SecondFilesUnderFirst(q: Request, oracle: nat -> Reply)
    requires InputOf(q).totalPapers >= 2
    requires PassVerdict(q, 0, oracle(0)).Done? && PassVerdict(q, 1, oracle(1)).Unreported?
    ensures exists n: nat :: FirstTwoCalls(q, oracle, Run(q, oracle, n).chunked)
  {
    ReadsNext(q, oracle, 0, 0);
    ReadsNext(q, oracle, 1, 1);
    EveryPassIsMade(q, oracle, 2);
    var n := 36;
    ChunkerCallsOfRun(q, oracle, n);
    CallsStay(q, oracle, CallUnder(q, 0, 0, 0, oracle(0)), 2, Run(q, oracle, n).pass);
    CallsStay(q, oracle, CallUnder(q, 0, 1, 1, oracle(1)), 2, Run(q, oracle, n).pass);
  }

  /** Text of the first paper under slot 0, and text of the second under slot 0 as well. */
  predicate FirstTwoCalls(q: Request, oracle: nat -> Reply, calls: seq<ChunkCall>) {
    && oracle(0).ingestion.Ingested? && CallUnder(q, 0, 0, 0, oracle(0)) in calls
    && oracle(1).ingestion.Ingested? && CallUnder(q, 0, 1, 1, oracle(1)) in calls
  }

  lemma {:induction false} CallStays(q: Request, oracle: nat -> Reply, call: ChunkCall, p: nat)
    requires call in CallsBefore(q, oracle, p)
    ensures call in CallsBefore(q, oracle, p + 1)
  {
    match ReadBy(q, oracle, p)
    case None =>
    case Some(i) => ReadsNext(q, oracle, p, i);
  }

  lemma {:induction false} CallsStay(q: Request, oracle: nat -> Reply, call: ChunkCall, p: nat, r: nat)
    requires p <= r && call in CallsBefore(q, oracle, p)
    ensures call in CallsBefore(q, oracle, r)
    decreases r - p
  {
    if p < r {
      CallStays(q, oracle, call, p);
      CallsStay(q, oracle, call, p + 1, r);
    }
  }

  // ----- what a misfiled call does to the store -----

  function ChunkId(paperId: string, n: nat): string { paperId + ":chunk:" + Decimal(n) }

  /** The chunks of a call that yields these texts, with their ids. */
  function ChunksUnder(paperId: string, texts: seq<string>, session: Option<string>): (r: seq<Retrieval.PaperChunk>)
    ensures |r| == |texts|
    ensures forall n :: 0 <= n < |r| ==> r[n].id == ChunkId(paperId, n) && r[n].text == texts[n]
  {
    seq(|texts|, n requires 0 <= n < |texts| =>
      Retrieval.PaperChunk(ChunkId(paperId, n), paperId, n, texts[n], session, Retrieval.Location(None, None, None)))
  }

  lemma {:induction false} ChunkIdsDiffer(paperId: string, m: nat, n: nat)
    ensures ChunkId(paperId, m) == ChunkId(paperId, n) ==> m == n
  {
    var front := paperId + ":chunk:";
    if ChunkId(paperId, m) == ChunkId(paperId, n) {
      assert (front + Decimal(m))[|front|..] == Decimal(m) && (front + Decimal(n))[|front|..] == Decimal(n);
      ValueOfDecimal(m);
      ValueOfDecimal(n);
    }
  }

  /** A chunk with text is the last one written under its id. */
  lemma {:induction false} LastWriteAt(before: Option<Retrieval.PaperChunk>, chunks: seq<Retrieval.PaperChunk>, n: nat)
    requires n < |chunks| && !IsBlank(chunks[n].text)
    requires forall m :: n < m < |chunks| ==> chunks[m].id != chunks[n].id
    ensures Retrieval.LastWrite(before, chunks, chunks[n].id) == Some(chunks[n])
  {
    if n < |chunks| - 1 { LastWriteAt(before, chunks[..|chunks| - 1], n); }
  }

  /** Two calls under one paper id: every chunk of the first that the second has a counterpart
      for is overwritten by it. */
  lemma {:induction false} SameIdOverwrites(
    store: seq<Retrieval.PaperChunk>, paperId: string, earlier: seq<string>, later: seq<string>, session: Option<string>, n: nat)
    requires Retrieval.DistinctIds(store) && n < |later| && !IsBlank(later[n])
    ensures var after := Retrieval.PutAll(Retrieval.PutAll(store, ChunksUnder(paperId, earlier, session)), ChunksUnder(paperId, later, session));
      Retrieval.Lookup(after, ChunkId(paperId, n)) == Some(ChunksUnder(paperId, later, session)[n])
  {
    var between := Retrieval.PutAll(store, ChunksUnder(paperId, earlier, session));
    var added := ChunksUnder(paperId, later, session);
    Retrieval.UpsertIsLastWriteWins(between, added, ChunkId(paperId, n));
    forall m | n < m < |added| ensures added[m].id != added[n].id { ChunkIdsDiffer(paperId, m, n); }
    LastWriteAt(Retrieval.Lookup(between, ChunkId(paperId, n)), added, n);
  }

  /** After a failed report, the chunks of a paper without an arXiv id replace those of the paper
      before, if that has none either: they are stored under the same ids. */
  lemma {:induction false} MisfiledChunksOverwrite(
    q: Request, oracle: nat -> Reply, n: nat, earlier: ChunkCall, later: ChunkCall,
    versionless: string -> string, digest: string -> string,
    store: seq<Retrieval.PaperChunk>, earlierTexts: seq<string>, laterTexts: seq<string>, session: Option<string>, k: nat)
    requires earlier in Run(q, oracle, n).chunked && later in Run(q, oracle, n).chunked
    requires earlier.owner == earlier.paperIndex == later.paperIndex && later.owner == earlier.owner + 1
    requires !HasArxivId(earlier.metadata) && !HasArxivId(later.metadata)
    requires Retrieval.DistinctIds(store) && k < |laterTexts| && !IsBlank(laterTexts[k])
    ensures var own := PaperId(earlier.metadata, earlier.inputUrl, earlier.paperIndex, versionless, digest);
      && PaperId(later.metadata, later.inputUrl, later.paperIndex, versionless, digest) == own
      && var after := Retrieval.PutAll(Retrieval.PutAll(store, ChunksUnder(own, earlierTexts, session)), ChunksUnder(own, laterTexts, session));
         Retrieval.Lookup(after, ChunkId(own, k)) == Some(ChunksUnder(own, laterTexts, session)[k])
  {
    ChunkAttribution(q, oracle, n);
    assert ComesFromPass(q, oracle, earlier) && ComesFromPass(q, oracle, later);
    SameIdOverwrites(store, PaperId(earlier.metadata, earlier.inputUrl, earlier.paperIndex, versionless, digest),
                     earlierTexts, laterTexts, session, k);
  }
}
