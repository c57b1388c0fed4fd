/** When a batch is compared, and when that is what the documentation says (docs/ARCHITECTURE.md:101):
    for several successfully completed papers. */
module AnalysisComparison {
  import opened Wrappers
  import opened Schemas
  import opened Text
  import opened AnalysisGraph
  import opened AnalysisRuns
  import opened AnalysisPasses
  import opened AnalysisHalting
  import opened AnalysisTheorems

  predicate AllGood(urls: seq<string>) { forall j :: 0 <= j < |urls| ==> GoodUrl(urls[j]) }

  /** A batch that ends was compared exactly when all its URLs are well formed, whatever failed. */
  lemma {:induction false} BatchComparedIff(urls: seq<string>, oracle: nat -> Reply, n: nat)
    requires |urls| >= 2 && Run(Urls(urls), oracle, n).node.End?
    ensures Run(Urls(urls), oracle, n).state.comparison.Some? <==> AllGood(urls)
  {
    RunKeepsInv(Urls(urls), oracle, n);
    ComparedIff(urls, oracle, Run(Urls(urls), oracle, n));
  }

  lemma {:induction false} ComparedIff(urls: seq<string>, oracle: nat -> Reply, c: Config)
    requires |urls| >= 2 && Inv(Urls(urls), oracle, c) && c.node.End?
    ensures c.state.comparison.Some? <==> AllGood(urls)
  {
    FirstBadUrl(urls, oracle, c);
    EndOf(Urls(urls), oracle, c);
  }

  // ----- the documented rule -----

  predicate SeveralCompleted(papers: seq<PaperSlot>) {
    exists i, j :: 0 <= i < j < |papers| && papers[i].completed && papers[j].completed
  }

  /** Whatever the replies, a batch that ends with several completed papers was compared. */
  ghost predicate CompletedAreCompared(urls: seq<string>) {
    forall oracle: nat -> Reply, n: nat :: var c := Run(Urls(urls), oracle, n);
      c.node.End? && SeveralCompleted(c.state.papers) ==> c.state.comparison.Some?
  }

  /** Whatever the replies, a batch that was compared has several completed papers. */
  ghost predicate ComparedAreCompleted(urls: seq<string>) {
    forall oracle: nat -> Reply, n: nat :: var c := Run(Urls(urls), oracle, n);
      c.node.End? && c.state.comparison.Some? ==> SeveralCompleted(c.state.papers)
  }

  /** The first direction of the rule holds exactly if all URLs are well formed or a malformed
      one is among the first two; the other exactly if some URL is malformed. */
  lemma {:induction false} RuleHoldsIff(urls: seq<string>)
    requires |urls| >= 2
    ensures CompletedAreCompared(urls) <==> AllGood(urls) || !GoodUrl(urls[0]) || !GoodUrl(urls[1])
    ensures ComparedAreCompleted(urls) <==> !AllGood(urls)
  {
    if AllGood(urls) || !GoodUrl(urls[0]) || !GoodUrl(urls[1]) {
      EarlyOrNoneIsCompared(urls);
    } else {
      LateIsNotCompared(urls);
    }
    if AllGood(urls) { FailuresAreCompared(urls); } else { NoneIsCompared(urls); }
  }

  lemma {:induction false} EarlyOrNoneIsCompared(urls: seq<string>)
    requires |urls| >= 2 && (AllGood(urls) || !GoodUrl(urls[0]) || !GoodUrl(urls[1]))
    ensures CompletedAreCompared(urls)
  {
    forall oracle: nat -> Reply, n: nat | var c := Run(Urls(urls), oracle, n); c.node.End? && SeveralCompleted(c.state.papers)
      ensures Run(Urls(urls), oracle, n).state.comparison.Some?
    {
      BatchSurvivesFailures(urls, oracle, n);
      BatchComparedIff(urls, oracle, n);
    }
  }

  lemma {:induction false} NoneIsCompared(urls: seq<string>)
    requires |urls| >= 2 && !AllGood(urls)
    ensures ComparedAreCompleted(urls)
  {
    forall oracle: nat -> Reply, n: nat | Run(Urls(urls), oracle, n).node.End?
      ensures Run(Urls(urls), oracle, n).state.comparison.None?
    {
      BatchComparedIff(urls, oracle, n);
    }
  }

  // ----- runs in which it fails -----

  /** Some replies that fail every ingestion, and some that complete every paper. */
  function FailingReply(): Reply {
    CompletingReply().(ingestion := NotIngested("unavailable"))
  }

  function CompletingReply(): Reply {
    CompleteReply(PaperMetadata("", "", None), MethodExtraction("", ""),
                  ProductionReadiness(false, None, None, ResearchOnly), EngineerReport("", Trivial, Skip))
  }

  lemma {:induction false} FailuresAreCompared(urls: seq<string>)
    requires |urls| >= 2 && AllGood(urls)
    ensures !ComparedAreCompleted(urls)
  {
    var oracle := (p: nat) => FailingReply();
    FailedPapersAreCompared(urls, oracle, 0);
    var n: nat :| Run(Urls(urls), oracle, n).node.End?;
    FailedPapersAreCompared(urls, oracle, n);
  }

  /** If every call succeeds, the papers before a malformed URL are completed, and not compared. */
  lemma {:induction false} CompletedBeforeMalformed(urls: seq<string>, oracle: nat -> Reply, k: nat, n: nat)
    requires |urls| >= 2 && k < |urls| && !GoodUrl(urls[k]) && GoodBefore(urls, k) && Completing(oracle)
    ensures Halts(Urls(urls), oracle)
    ensures var c := Run(Urls(urls), oracle, n);
      c.node.End? ==>
        && c.state.comparison.None? && |c.state.papers| == k
        && forall j :: 0 <= j < k ==> c.state.papers[j].completed
  {
    CompletedAreRead(urls, oracle, k);
    MalformedIsLast(urls, oracle, k, k);
    RunKeepsInv(Urls(urls), oracle, n);
    if Run(Urls(urls), oracle, n).node.End? { CompletedAtEnd(urls, oracle, k, Run(Urls(urls), oracle, n)); }
  }

  lemma {:induction false} MalformedIsLast(urls: seq<string>, oracle: nat -> Reply, p: nat, k: nat)
    requires |urls| >= 2 && k < |urls| && !GoodUrl(urls[k]) && ReadBy(Urls(urls), oracle, p) == Some(k)
    ensures Halts(Urls(urls), oracle)
  {
    GoodUnlessRejected(urls, k, oracle(p));
    ReadsNext(Urls(urls), oracle, p, k);
    NoFurtherPass(Urls(urls), oracle, p + 1);
  }

  predicate Completes(r: Reply) {
    && r.ingestion.Ingested? && !IsBlank(r.ingestion.rawText) && r.extraction.Extracted?
    && !r.benchmark.NotBenchmarked? && r.readiness.Assessed? && r.report.Reported?
  }

  ghost predicate Completing(oracle: nat -> Reply) { forall p: nat :: Completes(oracle(p)) }

  predicate GoodBefore(urls: seq<string>, k: nat) { k <= |urls| && forall j :: 0 <= j < k ==> GoodUrl(urls[j]) }

  lemma {:induction false} CompletedFrom(urls: seq<string>, oracle: nat -> Reply, p: nat, k: nat)
    requires p <= k < |urls| && GoodBefore(urls, k) && Completing(oracle)
    requires ReadBy(Urls(urls), oracle, p) == Some(p)
    ensures ReadBy(Urls(urls), oracle, k) == Some(k)
    decreases k - p
  {
    if p < k {
      CompletedIsRead(urls, oracle, p);
      CompletedFrom(urls, oracle, p + 1, k);
    }
  }

  lemma {:induction false} CompletedAreRead(urls: seq<string>, oracle: nat -> Reply, k: nat)
    requires k < |urls| && GoodBefore(urls, k) && Completing(oracle)
    ensures ReadBy(Urls(urls), oracle, k) == Some(k)
  {
    CompletedFrom(urls, oracle, 0, k);
  }

  lemma {:induction false} CompletedIsRead(urls: seq<string>, oracle: nat -> Reply, k: nat)
    requires k + 1 < |urls| && GoodUrl(urls[k]) && Completes(oracle(k)) && ReadBy(Urls(urls), oracle, k) == Some(k)
    ensures ReadBy(Urls(urls), oracle, k + 1) == Some(k + 1)
  {
    CompletesOrNot(urls, k, oracle(k));
    ReadsNext(Urls(urls), oracle, k, k);
  }

  lemma {:induction false} CompletedAtEnd(urls: seq<string>, oracle: nat -> Reply, k: nat, c: Config)
    requires |urls| >= 2 && k < |urls| && !GoodUrl(urls[k]) && GoodBefore(urls, k) && Completing(oracle)
    requires Inv(Urls(urls), oracle, c) && c.node.End?
    ensures c.state.comparison.None? && |c.state.papers| == k
    ensures forall j :: 0 <= j < k ==> c.state.papers[j].completed
  {
    FirstBadUrl(urls, oracle, c);
    ComparedIff(urls, oracle, c);
    forall j | 0 <= j < k ensures c.state.papers[j].completed {
      CompletedSlot(urls, oracle, c, j);
    }
  }

  lemma {:induction false} CompletedSlot(urls: seq<string>, oracle: nat -> Reply, c: Config, k: nat)
    requires |urls| >= 2 && Inv(Urls(urls), oracle, c) && k < |c.state.papers| && k < |urls| && GoodUrl(urls[k])
    requires Completing(oracle)
    ensures c.state.papers[k].completed
  {
    SlotsMatch(Urls(urls), oracle, c);
    assert SlotFromPass(Urls(urls), k, oracle(c.slotPass[k]), c.state.papers[k]);
    CompletesOrNot(urls, k, oracle(c.slotPass[k]));
    assert c.state.papers[k].(errors := []).completed == c.state.papers[k].completed;
  }

  lemma {:induction false} CompletingReplyCompletes()
    ensures Completes(CompletingReply())
  {
    assert "text"[0] == 't';
  }

  lemma {:induction false} LateIsNotCompared(urls: seq<string>)
    requires |urls| >= 2 && !AllGood(urls) && GoodUrl(urls[0]) && GoodUrl(urls[1])
    ensures !CompletedAreCompared(urls)
  {
    var k := FirstMalformed(urls);
    var oracle := (p: nat) => CompletingReply();
    CompletingReplyCompletes();
    CompletedBeforeMalformed(urls, oracle, k, 0);
    var n: nat :| Run(Urls(urls), oracle, n).node.End?;
    CompletedBeforeMalformed(urls, oracle, k, n);
    var papers := Run(Urls(urls), oracle, n).state.papers;
    assert papers[0].completed && papers[1].completed;
  }

  lemma {:induction false} FirstMalformed(urls: seq<string>) returns (k: nat)
    requires !AllGood(urls)
    ensures k < |urls| && !GoodUrl(urls[k]) && forall j :: 0 <= j < k ==> GoodUrl(urls[j])
  {
    k := 0;
    while GoodUrl(urls[k])
      invariant k < |urls| && forall j :: 0 <= j < k ==> GoodUrl(urls[j])
      decreases |urls| - k
    {
      k := k + 1;
    }
  }

  /** With a malformed third URL two papers are completed and nothing is compared. */
  lemma {:induction false} TwoCompletedNotCompared(urls: seq<string>, oracle: nat -> Reply, n: nat)
    requires |urls| >= 3 && GoodUrl(urls[0]) && GoodUrl(urls[1]) && !GoodUrl(urls[2])
    requires Completing(oracle)
    ensures Halts(Urls(urls), oracle)
    ensures var c := Run(Urls(urls), oracle, n);
      c.node.End? ==>
        && c.errored && c.state.comparison.None?
        && |c.state.papers| == 2 && c.state.papers[0].completed && c.state.papers[1].completed
  {
    CompletedBeforeMalformed(urls, oracle, 2, n);
    if Run(Urls(urls), oracle, n).node.End? { BatchSurvivesFailures(urls, oracle, n); }
  }

  /** There are such URLs and replies. */
  lemma {:induction false} RuleFails()
    ensures !CompletedAreCompared([FIRST_URL, SECOND_URL, MALFORMED_URL])
    ensures !ComparedAreCompleted([FIRST_URL, SECOND_URL])
  {
    var urls := [FIRST_URL, SECOND_URL, MALFORMED_URL];
    SomeUrlsAreGood();
    assert !AllGood(urls) by { assert !GoodUrl(urls[2]); }
    RuleHoldsIff(urls);
    RuleHoldsIff([FIRST_URL, SECOND_URL]);
  }
}
