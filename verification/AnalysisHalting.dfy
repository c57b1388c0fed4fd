/** How long runs of the analysis graph are, and which never end. */
module AnalysisHalting {
  import opened Wrappers
  import opened Basics
  import opened Schemas
  import opened Text
  import opened AnalysisGraph
  import opened AnalysisRuns
  import opened AnalysisPasses

  /** Every run makes at most 9 visits for each paper and each failed report, and two more. */
  lemma {:induction false} VisitBound(q: Request, oracle: nat -> Reply, n: nat)
    ensures var c := Run(q, oracle, n);
      && c.visits <= 9 * (Max(c.state.input.totalPapers, 1) + c.failedReports) + 2
      && (c.node.End? || c.visits == n)
  {
    RunKeepsInv(q, oracle, n);
    StepsAreVisits(q, oracle, n);
    AllowanceBound(q, oracle, Run(q, oracle, n));
  }

  lemma {:induction false} AllowanceBound(q: Request, oracle: nat -> Reply, c: Config)
    requires Inv(q, oracle, c)
    ensures Allowance(c) <= 9 * (Max(c.state.input.totalPapers, 1) + c.failedReports) + 2
  {
  }

  /** The `max` in the bound is needed: a request for no papers at all is rejected at its third visit. */
  lemma {:induction false} NoPapersTakeThreeVisits(oracle: nat -> Reply)
    ensures var c := Run(Urls([]), oracle, 3);
      c.visits == 3 && c.node.End? && c.errored && c.state.input.totalPapers == 0 && c.failedReports == 0
  {
    var q := Urls([]);
    var c1, c2 := Run(q, oracle, 1), Run(q, oracle, 2);
    assert c1 == Step(Start(q), oracle) && c1.node.Ingestion?;
    assert IsBlank(c1.state.input.inputValue);
    assert c2 == Step(c1, oracle) && c2.node.ErrorNode?;
    assert Run(q, oracle, 3) == Step(c2, oracle);
  }

  // ----- the end, in terms of the run -----

  ghost predicate Halts(q: Request, oracle: nat -> Reply) {
    exists n: nat :: Run(q, oracle, n).node.End?
  }

  ghost predicate FailsAtMost(q: Request, oracle: nat -> Reply, r: nat) {
    forall n: nat :: Run(q, oracle, n).failedReports <= r
  }

  /** Later in a run: at least as many failed reports, and nothing changes after the end. */
  predicate Later(c: Config, d: Config) {
    c.failedReports <= d.failedReports && (c.node.End? ==> d == c)
  }

  lemma {:induction false} StepIsLater(c: Config, oracle: nat -> Reply)
    ensures Later(c, Step(c, oracle))
  {}

  lemma {:induction false} LaterChain(run: nat -> Config, m: nat, n: nat)
    requires m <= n && forall k: nat :: Later(run(k), run(k + 1))
    ensures Later(run(m), run(n))
    decreases n
  {
    if m < n {
      LaterChain(run, m, n - 1);
      assert Later(run(n - 1), run((n - 1) + 1));
    }
  }

  lemma {:induction false} FailuresGrow(q: Request, oracle: nat -> Reply, m: nat, n: nat)
    requires m <= n
    ensures Later(Run(q, oracle, m), Run(q, oracle, n))
  {
    var run := (k: nat) => Run(q, oracle, k);
    forall k: nat ensures Later(run(k), run(k + 1)) {
      StepIsLater(run(k), oracle);
    }
    LaterChain(run, m, n);
  }

  lemma {:induction false} HaltedFailsNoMore(q: Request, oracle: nat -> Reply, m: nat)
    requires Run(q, oracle, m).node.End?
    ensures FailsAtMost(q, oracle, Run(q, oracle, m).failedReports)
  {
    forall n: nat ensures Run(q, oracle, n).failedReports <= Run(q, oracle, m).failedReports {
      if n <= m { FailuresGrow(q, oracle, n, m); } else { FailuresGrow(q, oracle, m, n); }
    }
  }

  lemma {:induction false} FewFailuresHalt(q: Request, oracle: nat -> Reply, r: nat)
    requires FailsAtMost(q, oracle, r)
    ensures Halts(q, oracle)
  {
    var n: nat := 9 * (Max(InputOf(q).totalPapers, 1) + r) + 3;
    VisitBound(q, oracle, n);
    InputStays(q, oracle, n);
    assert Run(q, oracle, n).failedReports <= r;
    assert Run(q, oracle, n).node.End?;
  }

  lemma {:induction false} InputStays(q: Request, oracle: nat -> Reply, n: nat)
    ensures Run(q, oracle, n).state.input == InputOf(q)
  {
    RunKeepsInv(q, oracle, n);
  }

  /** A run ends exactly when its report calls fail finitely often. A failed report returns to
      the same paper, so nothing else can keep a run going. */
  lemma {:induction false} HaltsIffReportsFailFinitelyOften(q: Request, oracle: nat -> Reply)
    ensures Halts(q, oracle) <==> exists r: nat :: FailsAtMost(q, oracle, r)
  {
    if Halts(q, oracle) {
      var m: nat :| Run(q, oracle, m).node.End?;
      HaltedFailsNoMore(q, oracle, m);
    }
    if r: nat :| FailsAtMost(q, oracle, r) {
      FewFailuresHalt(q, oracle, r);
    }
  }

  // ----- the end, in terms of the replies -----

  /** From pass p on every pass reads paper i and fails to report it. */
  ghost predicate Stuck(q: Request, oracle: nat -> Reply, p: nat, i: nat) {
    forall r: nat :: p <= r ==> ReadBy(q, oracle, r) == Some(i) && PassVerdict(q, i, oracle(r)).Unreported?
  }

  /** Papers are read in order, none is skipped, and a run that is over stays so. */
  lemma {:induction false} ReadsInOrder(q: Request, oracle: nat -> Reply, p: nat, r: nat)
    requires p <= r
    ensures ReadBy(q, oracle, p).None? ==> ReadBy(q, oracle, r).None?
    ensures ReadBy(q, oracle, r).Some? ==> ReadBy(q, oracle, p).Some? && ReadBy(q, oracle, p).value <= ReadBy(q, oracle, r).value
    decreases r
  {
    if p < r { ReadsInOrder(q, oracle, p, r - 1); }
  }

  lemma {:induction false} ReadsBelow(q: Request, oracle: nat -> Reply, p: nat)
    requires ReadBy(q, oracle, p).Some?
    ensures ReadBy(q, oracle, p).value < Max(InputOf(q).totalPapers, 1)
  {
    if p > 0 { ReadsBelow(q, oracle, p - 1); }
  }

  /** The visits made so far, counted in passes. */
  lemma {:induction false} VisitsByPass(q: Request, oracle: nat -> Reply, c: Config)
    requires Tracks(q, oracle, c) && Counts(c) && c.visits <= Allowance(c)
    ensures c.visits <= 9 * c.pass + 17
  {
  }

  lemma {:induction false} PassesGoOn(q: Request, oracle: nat -> Reply, n: nat)
    ensures var c := Run(q, oracle, n); Reads(q, oracle, c) && (c.node.End? || n <= 9 * c.pass + 17)
  {
    RunFollows(q, oracle, n);
    RunKeepsInv(q, oracle, n);
    StepsAreVisits(q, oracle, n);
    VisitsByPass(q, oracle, Run(q, oracle, n));
  }

  /** The run makes every pass that the replies call for. */
  lemma {:induction false} EveryPassIsMade(q: Request, oracle: nat -> Reply, p: nat)
    requires ReadBy(q, oracle, p).Some?
    ensures Run(q, oracle, 9 * p + 18).pass >= p
  {
    PassesGoOn(q, oracle, 9 * p + 18);
    PassReached(q, oracle, Run(q, oracle, 9 * p + 18), p);
  }

  lemma {:induction false} PassReached(q: Request, oracle: nat -> Reply, c: Config, p: nat)
    requires Reads(q, oracle, c) && (c.node.End? || 9 * p + 18 <= 9 * c.pass + 17)
    requires ReadBy(q, oracle, p).Some?
    ensures c.pass >= p
  {
    if c.pass < p { ReadsInOrder(q, oracle, c.pass + 1, p); }
  }

  /** And no other: once the replies call for no further pass, it ends. */
  lemma {:induction false} NoFurtherPass(q: Request, oracle: nat -> Reply, p: nat)
    requires ReadBy(q, oracle, p).None?
    ensures Run(q, oracle, 9 * p + 10).node.End?
  {
    var n := 9 * p + 9;
    PassesGoOn(q, oracle, n);
    var c := Run(q, oracle, n);
    if !c.node.End? {
      ReadsInOrder(q, oracle, p, c.pass);
      LastSteps(q, oracle, c);
    }
    assert Run(q, oracle, n + 1) == Step(c, oracle);
  }

  lemma {:induction false} LastSteps(q: Request, oracle: nat -> Reply, c: Config)
    requires Reads(q, oracle, c) && ReadBy(q, oracle, c.pass).None?
    ensures Step(c, oracle).node.End?
  {}

  lemma {:induction false} EndedRunIsOver(q: Request, oracle: nat -> Reply, n: nat)
    requires Run(q, oracle, n).node.End?
    ensures exists p: nat :: ReadBy(q, oracle, p).None?
  {
    RunFollows(q, oracle, n);
    ReadsAtEnd(q, oracle, Run(q, oracle, n));
  }

  lemma {:induction false} ReadsAtEnd(q: Request, oracle: nat -> Reply, c: Config)
    requires Follows(q, oracle, c) && c.node.End?
    ensures exists p: nat :: ReadBy(q, oracle, p).None?
  {}

  lemma {:induction false} HaltsIffReadsEnd(q: Request, oracle: nat -> Reply)
    ensures Halts(q, oracle) <==> exists p: nat :: ReadBy(q, oracle, p).None?
  {
    if Halts(q, oracle) {
      var n: nat :| Run(q, oracle, n).node.End?;
      EndedRunIsOver(q, oracle, n);
    }
    if p: nat :| ReadBy(q, oracle, p).None? {
      NoFurtherPass(q, oracle, p);
    }
  }

  /** A run that never ends settles on one paper: at most total - 1 times does the paper change. */
  lemma {:induction false} Settles(q: Request, oracle: nat -> Reply, p: nat) returns (r: nat, i: nat)
    requires forall p: nat :: ReadBy(q, oracle, p).Some?
    ensures Stuck(q, oracle, r, i)
    decreases Max(InputOf(q).totalPapers, 1) - ReadBy(q, oracle, p).value
  {
    i := ReadBy(q, oracle, p).value;
    if s: nat :| p <= s && ReadBy(q, oracle, s) != Some(i) {
      ReadsInOrder(q, oracle, p, s);
      ReadsBelow(q, oracle, s);
      r, i := Settles(q, oracle, s);
    } else {
      r := p;
      forall s: nat | p <= s
        ensures ReadBy(q, oracle, s) == Some(i) && PassVerdict(q, i, oracle(s)).Unreported?
      {
        assert ReadBy(q, oracle, s + 1) == Some(i);
      }
    }
  }

  /** A run never ends exactly when from some pass on it reads one paper only, whose report
      call fails in every pass: a condition on the replies, not on the run. */
  lemma {:induction false} NeverEndsIffStuck(q: Request, oracle: nat -> Reply)
    ensures !Halts(q, oracle) <==> exists p: nat, i: nat :: Stuck(q, oracle, p, i)
  {
    HaltsIffReadsEnd(q, oracle);
    if !Halts(q, oracle) {
      var p, i := Settles(q, oracle, 0);
    }
    if p: nat, i: nat :| Stuck(q, oracle, p, i) {
      forall s: nat ensures ReadBy(q, oracle, s).Some? {
        if s < p { ReadsInOrder(q, oracle, s, p); }
      }
    }
  }

  lemma {:induction false} SameReadForever(q: Request, oracle: nat -> Reply, p: nat)
    requires forall p: nat :: PassVerdict(q, 0, oracle(p)).Unreported?
    ensures ReadBy(q, oracle, p) == Some(0)
  {
    if p > 0 { SameReadForever(q, oracle, p - 1); }
  }

  /** If every report call for the first paper fails, the run never ends and never records it. */
  lemma {:induction false} FailedReportsStutterForever(q: Request, oracle: nat -> Reply, n: nat)
    requires forall p: nat :: PassVerdict(q, 0, oracle(p)).Unreported?
    ensures !Run(q, oracle, n).node.End? && Run(q, oracle, n).state.index == 0
  {
    if Run(q, oracle, n).node.End? {
      EndedRunIsOver(q, oracle, n);
      var p: nat :| ReadBy(q, oracle, p).None?;
      SameReadForever(q, oracle, p);
      assert false;
    }
    if Run(q, oracle, n).state.index != 0 { FirstSlotReported(q, oracle, n); }
  }

  lemma {:induction false} FirstSlotReported(q: Request, oracle: nat -> Reply, n: nat)
    requires Run(q, oracle, n).state.index != 0
    ensures exists p: nat :: !PassVerdict(q, 0, oracle(p)).Unreported?
  {
    var c := Run(q, oracle, n);
    RunKeepsInv(q, oracle, n);
    assert SlotCheck(q)(0, oracle(c.slotPass[0]), Messages(c.state.errors[..c.errorMark[0]]), c.state.papers[0]);
  }
}
