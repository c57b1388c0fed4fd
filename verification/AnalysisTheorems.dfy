/** The main results about runs of the analysis graph. */
module AnalysisTheorems {
  import opened Wrappers
  import opened Schemas
  import opened Text
  import opened AnalysisGraph
  import opened AnalysisRuns
  import opened AnalysisPasses
  import opened AnalysisHalting

  /** Isolation: in every reachable configuration slot k sits at index k, carries URL k, and is,
      apart from its errors, determined by that URL and the replies of one pass, a pass over
      paper k that no other slot has; whenever a paper is about to be read, nothing of the
      paper before is left. */
  lemma {:induction false} BatchIsolation(q: Request, oracle: nat -> Reply, n: nat)
    ensures var c := Run(q, oracle, n);
      && |c.state.papers| == |c.slotPass| == c.state.index <= c.state.input.totalPapers
      && (c.node.Ingestion? ==> c.state.scratch == SCRATCH_RESET)
      && (forall k :: 0 <= k < |c.state.papers| ==>
            && ReadBy(q, oracle, c.slotPass[k]) == Some(k)
            && c.slotPass[k] < PassesSoFar(c)
            && c.state.papers[k].(errors := []) == ReferenceSlot(q, k, oracle(c.slotPass[k])))
      && (forall j, k :: 0 <= j < k < |c.slotPass| ==> c.slotPass[j] < c.slotPass[k])
  {
    RunKeepsInv(q, oracle, n);
    RunFollows(q, oracle, n);
    Isolated(q, oracle, Run(q, oracle, n));
  }

  lemma {:induction false} Isolated(q: Request, oracle: nat -> Reply, c: Config)
    requires Inv(q, oracle, c) && Follows(q, oracle, c)
    ensures |c.state.papers| == |c.slotPass| == c.state.index <= c.state.input.totalPapers
    ensures c.node.Ingestion? ==> c.state.scratch == SCRATCH_RESET
    ensures forall k :: 0 <= k < |c.state.papers| ==>
      && ReadBy(q, oracle, c.slotPass[k]) == Some(k)
      && c.slotPass[k] < PassesSoFar(c)
      && c.state.papers[k].(errors := []) == ReferenceSlot(q, k, oracle(c.slotPass[k]))
    ensures forall j, k :: 0 <= j < k < |c.slotPass| ==> c.slotPass[j] < c.slotPass[k]
  {
    SlotsMatch(q, oracle, c);
    forall j, k | 0 <= j < k < |c.slotPass| ensures c.slotPass[j] < c.slotPass[k] {
      assert ReadBy(q, oracle, c.slotPass[j]) == Some(j) && ReadBy(q, oracle, c.slotPass[k]) == Some(k);
      if c.slotPass[k] <= c.slotPass[j] { ReadsInOrder(q, oracle, c.slotPass[k], c.slotPass[j]); }
    }
  }

  lemma {:induction false} SlotsMatch(q: Request, oracle: nat -> Reply, c: Config)
    requires Inv(q, oracle, c)
    ensures |c.state.papers| == |c.slotPass| == |c.errorMark| == c.state.index <= c.state.input.totalPapers
    ensures c.state.input == InputOf(q)
    ensures c.node.Ingestion? ==> c.state.scratch == SCRATCH_RESET
    ensures forall k :: 0 <= k < |c.state.papers| ==>
      && SlotFromPass(q, k, oracle(c.slotPass[k]), c.state.papers[k])
      && c.errorMark[k] <= |c.state.errors|
      && SlotErrorsOf(q, k, oracle(c.slotPass[k]), Messages(c.state.errors[..c.errorMark[k]]), c.state.papers[k])
  {
    forall k | 0 <= k < |c.state.papers|
      ensures && SlotFromPass(q, k, oracle(c.slotPass[k]), c.state.papers[k])
              && c.errorMark[k] <= |c.state.errors|
              && SlotErrorsOf(q, k, oracle(c.slotPass[k]), Messages(c.state.errors[..c.errorMark[k]]), c.state.papers[k])
    {
      assert SlotCheck(q)(k, oracle(c.slotPass[k]), Messages(c.state.errors[..c.errorMark[k]]), c.state.papers[k]);
    }
  }

  /** How runs end: outside the error node with one slot per paper; in it only because the
      paper being read was rejected, or broke off in a run that is not a batch, and then that
      failure is what is left of it. They compared exactly if they end outside it with two slots
      or more. */
  lemma {:induction false} EndStates(q: Request, oracle: nat -> Reply, n: nat)
    requires Run(q, oracle, n).node.End?
    ensures var c := Run(q, oracle, n);
      && c.state.comparison == (if !c.errored && |c.state.papers| >= 2 then Some(oracle(c.pass).comparison) else None)
      && (c.state.stage == if c.errored then Failed else if |c.state.papers| >= 2 then ComparisonCompleted else AtChunkAndIndex)
      && (if c.errored then
            var v := PassVerdict(q, c.state.index, oracle(c.pass));
            && (v.Rejected? || (v.Broken? && !IsBatch(InputOf(q))))
            && c.state.scratch.failure == if v.Rejected? then Failure(false, None, Some(Ingestion))
                                          else Failure(true, Some(v.message), Some(v.at))
          else && |c.state.papers| == InputOf(q).totalPapers
               && c.state.scratch == Scratch(Source(None, None, None, None, None), Approach(None, map[], false, None),
                    Measures([], [], None), None, Written(None, None), Failure(false, None, None)))
  {
    RunKeepsInv(q, oracle, n);
    EndOf(q, oracle, Run(q, oracle, n));
  }

  lemma {:induction false} EndOf(q: Request, oracle: nat -> Reply, c: Config)
    requires Inv(q, oracle, c) && c.node.End?
    ensures c.state.comparison == if !c.errored && |c.state.papers| >= 2 then Some(oracle(c.pass).comparison) else None
    ensures c.state.stage == if c.errored then Failed else if |c.state.papers| >= 2 then ComparisonCompleted else AtChunkAndIndex
    ensures if c.errored then
        var v := PassVerdict(q, c.state.index, oracle(c.pass));
        && (v.Rejected? || (v.Broken? && !IsBatch(InputOf(q))))
        && c.state.scratch.failure == if v.Rejected? then Failure(false, None, Some(Ingestion))
                                      else Failure(true, Some(v.message), Some(v.at))
      else |c.state.papers| == c.state.index == InputOf(q).totalPapers && c.state.scratch == SCRATCH_RESET
    ensures c.errored ==> 0 <= c.state.index && (c.state.index < InputOf(q).totalPapers || InputOf(q).totalPapers <= 0)
  {
  }

  predicate GoodUrl(url: string) {
    !IsBlank(url) && (Contains(url, "http://") || Contains(url, "https://"))
  }

  /** A batch is given up exactly at its first malformed URL, whatever fails before: when it
      ends, the slots are those of the URLs before that one, and of all URLs if there is none. */
  lemma {:induction false} BatchSurvivesFailures(urls: seq<string>, oracle: nat -> Reply, n: nat)
    requires |urls| >= 2
    requires Run(Urls(urls), oracle, n).node.End?
    ensures var c := Run(Urls(urls), oracle, n);
      && |c.state.papers| <= |urls|
      && (forall k :: 0 <= k < |c.state.papers| ==> GoodUrl(urls[k]))
      && (|c.state.papers| < |urls| ==> !GoodUrl(urls[|c.state.papers|]))
      && ((forall u :: u in urls ==> GoodUrl(u)) <==> |c.state.papers| == |urls|)
      && (c.errored <==> |c.state.papers| < |urls|)
  {
    RunKeepsInv(Urls(urls), oracle, n);
    FirstBadUrl(urls, oracle, Run(Urls(urls), oracle, n));
  }

  lemma {:induction false} FirstBadUrl(urls: seq<string>, oracle: nat -> Reply, c: Config)
    requires |urls| >= 2 && Inv(Urls(urls), oracle, c) && c.node.End?
    ensures |c.state.papers| <= |urls|
    ensures forall k :: 0 <= k < |c.state.papers| ==> GoodUrl(urls[k])
    ensures |c.state.papers| < |urls| ==> !GoodUrl(urls[|c.state.papers|])
    ensures (forall u :: u in urls ==> GoodUrl(u)) <==> |c.state.papers| == |urls|
    ensures c.errored <==> |c.state.papers| < |urls|
  {
    SlotsMatch(Urls(urls), oracle, c);
    EndOf(Urls(urls), oracle, c);
    forall k | 0 <= k < |c.state.papers| ensures GoodUrl(urls[k]) {
      assert SlotFromPass(Urls(urls), k, oracle(c.slotPass[k]), c.state.papers[k]);
      GoodUnlessRejected(urls, k, oracle(c.slotPass[k]));
    }
    if c.errored { GoodUnlessRejected(urls, c.state.index, oracle(c.pass)); }
  }

  lemma {:induction false} GoodUnlessRejected(urls: seq<string>, k: nat, r: Reply)
    requires |urls| >= 2 && k < |urls|
    ensures GoodUrl(urls[k]) <==> !PassVerdict(Urls(urls), k, r).Rejected?
  {}

  const FIRST_URL := "http://a"
  const SECOND_URL := "http://b"
  const MALFORMED_URL := "a.pdf"

  /** The malformed one is not blank. */
  lemma {:induction false} SomeUrlsAreGood()
    ensures GoodUrl(FIRST_URL) && GoodUrl(SECOND_URL) && !GoodUrl(MALFORMED_URL) && !IsBlank(MALFORMED_URL)
  {
    assert MatchesAt(FIRST_URL, "http://", 0) && FIRST_URL[0] == 'h';
    assert MatchesAt(SECOND_URL, "http://", 0) && SECOND_URL[0] == 'h';
    assert |MALFORMED_URL| < |"http://"| && MALFORMED_URL[0] == 'a';
  }

  /** Such batches: if every ingestion fails, the papers before the malformed URL are failed
      papers that the batch survives, and those after it are never read. */
  lemma {:induction false} BadUrlEndsBatch(urls: seq<string>, oracle: nat -> Reply, k: nat, n: nat)
    requires |urls| >= 2 && k < |urls| && !GoodUrl(urls[k]) && forall j :: 0 <= j < k ==> GoodUrl(urls[j])
    requires forall p: nat :: oracle(p).ingestion.NotIngested?
    ensures Halts(Urls(urls), oracle)
    ensures var c := Run(Urls(urls), oracle, n); c.node.End? ==> c.errored && |c.state.papers| == k
  {
    FailedPapersAreRead(urls, oracle, k);
    GoodUnlessRejected(urls, k, oracle(k));
    ReadsNext(Urls(urls), oracle, k, k);
    NoFurtherPass(Urls(urls), oracle, k + 1);
    if Run(Urls(urls), oracle, n).node.End? { BatchSurvivesFailures(urls, oracle, n); }
  }

  /** Comparisons of papers none of which was completed: every ingestion fails. */
  lemma {:induction false} FailedPapersAreCompared(urls: seq<string>, oracle: nat -> Reply, n: nat)
    requires |urls| >= 2 && forall j :: 0 <= j < |urls| ==> GoodUrl(urls[j])
    requires forall p: nat :: oracle(p).ingestion.NotIngested?
    ensures Halts(Urls(urls), oracle)
    ensures var c := Run(Urls(urls), oracle, n);
      c.node.End? ==>
        && c.state.comparison.Some? && |c.state.papers| == |urls|
        && forall k :: 0 <= k < |c.state.papers| ==> !c.state.papers[k].completed
  {
    FailedPapersAreRead(urls, oracle, |urls|);
    NoFurtherPass(Urls(urls), oracle, |urls|);
    RunKeepsInv(Urls(urls), oracle, n);
    if Run(Urls(urls), oracle, n).node.End? { FailedPapersAtEnd(urls, oracle, Run(Urls(urls), oracle, n)); }
  }

  lemma {:induction false} FailedPapersAreRead(urls: seq<string>, oracle: nat -> Reply, p: nat)
    requires p <= |urls| && |urls| >= 2 && forall j :: 0 <= j < p ==> GoodUrl(urls[j])
    requires forall p: nat :: oracle(p).ingestion.NotIngested?
    ensures ReadBy(Urls(urls), oracle, p) == if p < |urls| then Some(p) else None
  {
    if p > 0 {
      FailedPapersAreRead(urls, oracle, p - 1);
      FailedPaperIsRead(urls, oracle, p - 1);
    }
  }

  lemma {:induction false} FailedPaperIsRead(urls: seq<string>, oracle: nat -> Reply, k: nat)
    requires k < |urls| && |urls| >= 2 && GoodUrl(urls[k]) && oracle(k).ingestion.NotIngested?
    requires ReadBy(Urls(urls), oracle, k) == Some(k)
    ensures ReadBy(Urls(urls), oracle, k + 1) == if k + 1 < |urls| then Some(k + 1) else None
  {
    GoodUnlessRejected(urls, k, oracle(k));
    assert PassVerdict(Urls(urls), k, oracle(k)).Broken?;
    ReadsNext(Urls(urls), oracle, k, k);
  }

  lemma {:induction false} FailedPapersAtEnd(urls: seq<string>, oracle: nat -> Reply, c: Config)
    requires |urls| >= 2 && forall j :: 0 <= j < |urls| ==> GoodUrl(urls[j])
    requires forall p: nat :: oracle(p).ingestion.NotIngested?
    requires Inv(Urls(urls), oracle, c) && c.node.End?
    ensures c.state.comparison.Some? && |c.state.papers| == |urls|
    ensures forall k :: 0 <= k < |c.state.papers| ==> !c.state.papers[k].completed
  {
    FirstBadUrl(urls, oracle, c);
    EndOf(Urls(urls), oracle, c);
    forall k | 0 <= k < |c.state.papers| ensures !c.state.papers[k].completed {
      UningestedSlot(Urls(urls), oracle, c, k);
    }
  }

  lemma {:induction false} UningestedSlot(q: Request, oracle: nat -> Reply, c: Config, k: nat)
    requires Inv(q, oracle, c) && k < |c.state.papers|
    requires forall p: nat :: oracle(p).ingestion.NotIngested?
    ensures !c.state.papers[k].completed
  {
    SlotsMatch(q, oracle, c);
    assert SlotFromPass(q, k, oracle(c.slotPass[k]), c.state.papers[k]);
    assert c.state.papers[k].(errors := []).completed == c.state.papers[k].completed;
  }

  // ----- a paper on its own -----

  /** What a batch records of a paper is what running it on its own records, index and errors
      aside: with the same replies the run of the single URL ends within 12 steps, with that
      slot if the paper was completed, and otherwise in the error node with no slot. */
  lemma {:induction false} AloneEqualsBatch(urls: seq<string>, oracle: nat -> Reply, n: nat, k: nat, m: nat)
    requires m >= 12
    requires k < |Run(Urls(urls), oracle, n).state.papers|
    ensures var c := Run(Urls(urls), oracle, n);
      k < |urls| && k < |c.slotPass| &&
      var alone := Run(Urls([urls[k]]), _ => oracle(c.slotPass[k]), m);
      && alone.node.End?
      && (if c.state.papers[k].completed then
            && !alone.errored && |alone.state.papers| == 1
            && alone.state.papers[0].(paperIndex := k, errors := []) == c.state.papers[k].(errors := [])
          else alone.errored && alone.state.papers == [])
  {
    var c := Run(Urls(urls), oracle, n);
    RunKeepsInv(Urls(urls), oracle, n);
    SlotsMatch(Urls(urls), oracle, c);
    var r := oracle(c.slotPass[k]);
    assert SlotFromPass(Urls(urls), k, r, c.state.papers[k]);
    SameVerdictAlone(urls, k, r, c.state.papers[k]);
    AloneEnds(urls[k], r, _ => r, m);
  }

  /** A recorded slot has the verdict that its URL gets alone, and the same contents. */
  lemma {:induction false} SameVerdictAlone(urls: seq<string>, k: nat, r: Reply, slot: PaperSlot)
    requires k < |urls| && SlotFromPass(Urls(urls), k, r, slot)
    ensures var v := PassVerdict(Urls([urls[k]]), 0, r);
      v == PassVerdict(Urls(urls), k, r) && (v.Done? || v.Broken?) && (slot.completed <==> v.Done?)
    ensures slot.completed ==>
      ReferenceSlot(Urls([urls[k]]), 0, r).(paperIndex := k) == slot.(errors := [])
  {
    assert slot.(errors := []).completed == slot.completed;
  }

  lemma {:induction false} AloneEnds(url: string, r: Reply, oracle: nat -> Reply, m: nat)
    requires m >= 12
    requires var v := PassVerdict(Urls([url]), 0, r); v.Done? || v.Broken?
    requires forall p: nat :: oracle(p) == r
    ensures var alone := Run(Urls([url]), oracle, m);
      && alone.node.End?
      && (if PassVerdict(Urls([url]), 0, r).Done? then
            && !alone.errored && |alone.state.papers| == 1
            && alone.state.papers[0].(errors := []) == ReferenceSlot(Urls([url]), 0, r)
          else alone.errored && alone.state.papers == [])
  {
    var q := Urls([url]);
    RunKeepsInv(q, oracle, m);
    StepsAreVisits(q, oracle, m);
    NoFailures(url, r, oracle, m);
    AloneRecords(url, r, oracle, Run(q, oracle, m));
  }

  lemma {:induction false} AloneRecords(url: string, r: Reply, oracle: nat -> Reply, c: Config)
    requires Inv(Urls([url]), oracle, c) && c.failedReports == 0
    requires c.visits >= 12 || c.node.End?
    requires var v := PassVerdict(Urls([url]), 0, r); v.Done? || v.Broken?
    requires forall p: nat :: oracle(p) == r
    ensures c.node.End?
    ensures if PassVerdict(Urls([url]), 0, r).Done? then
        && !c.errored && |c.state.papers| == 1
        && c.state.papers[0].(errors := []) == ReferenceSlot(Urls([url]), 0, r)
      else c.errored && c.state.papers == []
  {
    var q := Urls([url]);
    AllowanceBound(q, oracle, c);
    SlotsMatch(q, oracle, c);
    EndOf(q, oracle, c);
    assert oracle(c.pass) == r;
    if c.state.papers != [] {
      assert SlotFromPass(q, 0, oracle(c.slotPass[0]), c.state.papers[0]);
    }
  }

  lemma {:induction false} NoFailures(url: string, r: Reply, oracle: nat -> Reply, n: nat)
    requires !PassVerdict(Urls([url]), 0, r).Unreported?
    requires forall p: nat :: oracle(p) == r
    ensures Run(Urls([url]), oracle, n).failedReports == 0
  {
    var q := Urls([url]);
    var p := c => Tracks(q, oracle, c) && c.failedReports == 0;
    forall c | p(c) ensures p(Step(c, oracle)) {
      if !c.node.End? {
        StepTracks(q, oracle, c);
        StepWithoutFailure(url, r, oracle, c);
      }
    }
    Throughout(p, q, oracle, n);
  }

  lemma {:induction false} StepWithoutFailure(url: string, r: Reply, oracle: nat -> Reply, c: Config)
    requires !PassVerdict(Urls([url]), 0, r).Unreported?
    requires oracle(c.pass) == r && Tracks(Urls([url]), oracle, c)
    ensures Step(c, oracle).failedReports == c.failedReports
  {
  }

  // ----- replies that complete a paper -----

  /** Replies that complete a paper, whatever the models say in them. */
  function CompleteReply(
    metadata: PaperMetadata, extraction: MethodExtraction, readiness: ProductionReadiness, report: EngineerReport): Reply
  {
    Reply(Ingested(metadata, "text", None, None, FromPdf, []), Extracted(extraction, 1.0), Keep,
          Unparsed([]), Assessed(readiness), Reported(report, ""), NoChunks, "")
  }

  lemma {:induction false} CompletesOrNot(urls: seq<string>, k: nat, r: Reply)
    requires |urls| >= 2 && k < |urls| && GoodUrl(urls[k])
    requires r.ingestion.Ingested? && !IsBlank(r.ingestion.rawText) && r.extraction.Extracted?
    requires !r.benchmark.NotBenchmarked? && r.readiness.Assessed?
    ensures PassVerdict(Urls(urls), k, r) == if r.report.Reported? then Done else Unreported
  {
    GoodUnlessRejected(urls, k, r);
  }
}
