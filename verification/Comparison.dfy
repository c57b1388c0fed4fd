/** The comparison report (agents/comparator.py:472-786), the request-driven analyst that reuses
    it (agents/comparison_analyst.py, services/paperintel_service.py:1149-1228), and the structural
    check of its output (evaluation/ca_structural_checks.py). */
module Comparison {
  import opened Wrappers
  import opened Schemas
  import opened Rows
  import opened Matrix
  import opened MatrixTheorems
  import opened Standings
  import opened StandingsTheorems
  import opened Recommendations
  import opened Text
  import Names

  /** The normalisers the program uses. */
  function PaperNaming(): Naming {
    Naming(Names.NormalizeTask, Names.NormalizeMetric, Names.NormalizeCondition, Names.NormalizeUnit, Names.IsHigherBetter)
  }

  // ----- the report -----

  datatype Basis = ReadinessDominant | BenchmarkDominant | Mixed | NoClearWinner

  /** What a model's reply amounts to: a basis it names that is a known one, an integer it gives as
      the winner, its recommendations and its two texts. An absent, unparsable or unknown value is
      None, or empty. */
  datatype Claims = Claims(
    basis: Option<Basis>, winner: Option<int>, recommendations: seq<RawItem>, tradeOffs: string, reasoning: string)

  /** A text of the report: the model's, or one that the program makes from these numbers. */
  datatype TradeOffs =
    | ClaimedTradeOffs(text: string)
    | NothingCompleted
    | NothingAligned(completed: nat)
    | RowsCompared(completed: nat, rows: nat, comparable: nat, notComparable: nat)

  datatype Reasoning =
    | ClaimedReasoning(text: string)
    | NoReliableWinner
    | NoClearReason(completed: nat, maturities: map<Option<Maturity>, nat>, rows: nat)

  datatype Producer = BatchComparator | ComparisonAnalyst

  datatype Summary = Summary(paperIndex: int, arxivId: Option<string>)

  datatype ComparisonReport = ComparisonReport(
    summaries: seq<Summary>, producer: Producer, rows: seq<Row>,
    uniqueTasks: map<int, seq<string>>, uniqueRows: map<int, seq<string>>,
    stats: Stats, overlap: real, basis: Basis, tradeOffs: TradeOffs,
    recommendations: seq<Recommendation>, winner: Option<int>, reasoning: Reasoning)

  function SummaryOf(p: PaperSlot): Summary {
    Summary(p.paperIndex, if p.metadata.Some? then p.metadata.value.arxivId else None)
  }

  function Summaries(papers: seq<PaperSlot>): (r: seq<Summary>)
    ensures |r| == |papers|
    ensures forall i :: 0 <= i < |papers| ==> r[i] == SummaryOf(papers[i])
  {
    seq(|papers|, i requires 0 <= i < |papers| => SummaryOf(papers[i]))
  }

  /** Completed papers, or all of them when none is. */
  function EligibleIndexes(papers: seq<PaperSlot>): set<int> {
    var completed := set p | p in papers && p.completed :: p.paperIndex;
    if completed != {} then completed else set p | p in papers :: p.paperIndex
  }

  function MaturityRank(p: PaperSlot): nat {
    if p.readiness == None then 0
    else match p.readiness.value.maturity
      case ProductionReady => 3
      case Experimental => 2
      case ResearchOnly => 1
  }

  /** The first paper with the index. */
  function FindPaper(papers: seq<PaperSlot>, index: int): Option<PaperSlot> {
    if papers == [] then None
    else if papers[0].paperIndex == index then Some(papers[0])
    else FindPaper(papers[1..], index)
  }

  predicate TopWins(wins: map<int, nat>, index: int) {
    index in wins && forall i :: i in wins ==> wins[i] <= wins[index]
  }

  predicate TopMaturity(papers: seq<PaperSlot>, p: PaperSlot) {
    forall q :: q in papers ==> MaturityRank(q) <= MaturityRank(p)
  }

  function WinnerBasis(claims: Claims, papers: seq<PaperSlot>, winner: Option<int>, stats: Stats): Basis {
    if winner == None then NoClearWinner
    else if claims.basis.Some? && claims.basis != Some(NoClearWinner) then claims.basis.value
    else if stats.rowsWithWinner == 0 || winner.value !in stats.wins || stats.wins[winner.value] == 0 then ReadinessDominant
    else
      match FindPaper(papers, winner.value)
      case None => NoClearWinner
      case Some(p) =>
        if TopWins(stats.wins, winner.value) && !TopMaturity(papers, p) then BenchmarkDominant
        else if TopWins(stats.wins, winner.value) then Mixed
        else ReadinessDominant
  }

  function OverallWinner(claims: Claims, papers: seq<PaperSlot>): Option<int> {
    if claims.winner.Some? && claims.winner.value in EligibleIndexes(papers) then claims.winner else None
  }

  // ----- the texts -----

  function CompletedPapers(papers: seq<PaperSlot>): (r: seq<PaperSlot>)
    ensures forall p :: p in r <==> p in papers && p.completed
    ensures |r| <= |papers|
  {
    if papers == [] then []
    else
      var n := |papers| - 1;
      assert papers == papers[..n] + [papers[n]];
      CompletedPapers(papers[..n]) + if papers[n].completed then [papers[n]] else []
  }

  /** How many papers have each maturity, None where it is unknown. */
  function MaturityCounts(papers: seq<PaperSlot>): map<Option<Maturity>, nat> {
    if papers == [] then map[]
    else
      var before, last := MaturityCounts(papers[..|papers| - 1]), papers[|papers| - 1];
      var level := if last.readiness.Some? then Some(last.readiness.value.maturity) else None;
      before[level := (if level in before then before[level] else 0) + 1]
  }

  function TradeOffsOf(claims: Claims, papers: seq<PaperSlot>, rows: seq<Row>): TradeOffs {
    var n := |CompletedPapers(papers)|;
    if Strip(claims.tradeOffs) != "" then ClaimedTradeOffs(Strip(claims.tradeOffs))
    else if n == 0 then NothingCompleted
    else if rows == [] then NothingAligned(n)
    else RowsCompared(n, |rows|, CountRows(rows, Comparable), CountRows(rows, Incomparable))
  }

  function ReasoningOf(claims: Claims, papers: seq<PaperSlot>, rows: seq<Row>): Reasoning {
    var completed := CompletedPapers(papers);
    if Strip(claims.reasoning) != "" then ClaimedReasoning(Strip(claims.reasoning))
    else if completed == [] then NoReliableWinner
    else NoClearReason(|completed|, MaturityCounts(completed), |rows|)
  }

  predicate Incomparable(row: Row) { !row.comparable }

  lemma {:induction false} ComplementAddsUp(rows: seq<Row>)
    ensures CountRows(rows, Comparable) + CountRows(rows, Incomparable) == |rows|
  {
    if rows != [] { ComplementAddsUp(rows[..|rows| - 1]); }
  }

  /** The numbers of the fallback text: the rows divide into comparable and other ones, and papers
      are said to be completed only when they are. */
  lemma {:induction false} TradeOffsAddUp(claims: Claims, papers: seq<PaperSlot>, rows: seq<Row>)
    ensures var t := TradeOffsOf(claims, papers, rows);
      && (t.RowsCompared? ==> t.comparable + t.notComparable == t.rows == |rows| && 0 < t.completed <= |papers|)
      && (t.NothingCompleted? ==> forall p :: p in papers ==> !p.completed)
  {
    ComplementAddsUp(rows);
  }

  /** rows_with_overlap / len(matrix), before it is rounded */
  function OverlapRatio(rows: seq<Row>): real {
    if rows == [] then 0.0 else CountRows(rows, Overlaps) as real / |rows| as real
  }

  lemma {:induction false} OverlapIsAFraction(rows: seq<Row>)
    ensures 0.0 <= OverlapRatio(rows) <= 1.0
    ensures OverlapRatio(rows) > 0.0 <==> exists n :: 0 <= n < |rows| && Overlaps(rows[n])
  {
    CountPositive(rows, Overlaps);
  }

  lemma {:induction false} CountPositive(rows: seq<Row>, p: Row -> bool)
    ensures CountRows(rows, p) <= |rows|
    ensures CountRows(rows, p) > 0 <==> exists n :: 0 <= n < |rows| && p(rows[n])
  {
    if rows != [] {
      var n := |rows| - 1;
      CountPositive(rows[..n], p);
      assert forall i :: 0 <= i < n ==> rows[..n][i] == rows[i];
    }
  }

  /** The counts are those of the rows. */
  ghost predicate Tallies(stats: Stats, rows: seq<Row>) {
    && stats.rowsWithWinner == CountRows(rows, HasWinner) && stats.comparableRows == CountRows(rows, Comparable)
    && stats.rowsWithOverlap == CountRows(rows, Overlaps) && stats.rows == |rows|
    && forall i :: CountRows(rows, WonBy(i)) == if i in stats.wins then stats.wins[i] else 0
  }

  /** The lists and counts derived from the matrix of some papers. */
  method Derive(nm: Naming, papers: seq<PaperSlot>)
    returns (rows: seq<Row>, uniqueTasks: map<int, seq<string>>, uniqueRows: map<int, seq<string>>, stats: Stats)
    ensures rows == MatrixOf(nm, papers) && Tallies(stats, rows)
    ensures uniqueRows == map i | i in IndexesOf(papers) :: SortedSet(SoleLabels(rows, i))
    ensures uniqueTasks == map i | i in IndexesOf(papers) :: UniqueTasksOf(rows, i)
  {
    rows := BuildComparisonMatrix(nm, papers);
    var indexes := set i | i in IndexesOf(papers);
    forall n | 0 <= n < |rows| ensures Present(rows[n]) <= indexes { MatrixRowsPresent(nm, papers, n); }
    uniqueTasks := BuildUniqueTasks(indexes, rows);
    uniqueRows := BuildUniqueRows(indexes, rows);
    stats := BuildMatrixStats(indexes, rows);
  }

  /** The report: the matrix and what is derived from it, and the normalised claims. */
  method BuildReport(nm: Naming, papers: seq<PaperSlot>, claims: Claims, producer: Producer)
    returns (report: ComparisonReport)
    ensures report.rows == MatrixOf(nm, papers) && Tallies(report.stats, report.rows)
    ensures report.uniqueRows == map i | i in IndexesOf(papers) :: SortedSet(SoleLabels(report.rows, i))
    ensures report.uniqueTasks == map i | i in IndexesOf(papers) :: UniqueTasksOf(report.rows, i)
    ensures report.summaries == Summaries(papers) && report.producer == producer
    ensures report.winner == OverallWinner(claims, papers)
    ensures report.basis == WinnerBasis(claims, papers, report.winner, report.stats)
    ensures report.recommendations == Taken(ReadAll(claims.recommendations), EligibleIndexes(papers))
    ensures report.overlap == OverlapRatio(report.rows)
    ensures report.tradeOffs == TradeOffsOf(claims, papers, report.rows)
    ensures report.reasoning == ReasoningOf(claims, papers, report.rows)
  {
    var rows, uniqueTasks, uniqueRows, stats := Derive(nm, papers);
    var winner := OverallWinner(claims, papers);
    var recommendations := NormalizeRecommendations(claims.recommendations, EligibleIndexes(papers));
    var overlap := if stats.rows == 0 then 0.0 else stats.rowsWithOverlap as real / stats.rows as real;
    report := ComparisonReport(
      Summaries(papers), producer, rows, uniqueTasks, uniqueRows, stats, overlap,
      WinnerBasis(claims, papers, winner, stats), TradeOffsOf(claims, papers, rows),
      recommendations, winner, ReasoningOf(claims, papers, rows));
  }

  /** Without a usable claim the basis follows the matrix: it rests on benchmarks exactly when
      the winner won a row and no paper won more rows, and is mixed when no paper is more mature. */
  lemma {:induction false} UnclaimedBasis(claims: Claims, papers: seq<PaperSlot>, w: int, stats: Stats, rows: seq<Row>)
    requires Tallies(stats, rows) && claims.basis in {None, Some(NoClearWinner)}
    requires OverallWinner(claims, papers) == Some(w)
    ensures var basis := WinnerBasis(claims, papers, Some(w), stats);
      && (basis in {BenchmarkDominant, Mixed} <==>
           CountRows(rows, WonBy(w)) > 0 && forall i :: CountRows(rows, WonBy(i)) <= CountRows(rows, WonBy(w)))
      && FindPaper(papers, w).Some?
      && (basis == Mixed ==> TopMaturity(papers, FindPaper(papers, w).value))
      && (basis == BenchmarkDominant ==> !TopMaturity(papers, FindPaper(papers, w).value))
  {
    BasisIff(claims, papers, stats);
    FindPaperFinds(papers, w);
    var p := FindPaper(papers, w).value;
    if CountRows(rows, WonBy(w)) > 0 {
      WinsNeedWinners(rows, w);
      assert TopWins(stats.wins, w) <==> forall i :: CountRows(rows, WonBy(i)) <= CountRows(rows, WonBy(w));
    }
  }

  lemma {:induction false} WinsNeedWinners(rows: seq<Row>, w: int)
    ensures CountRows(rows, WonBy(w)) <= CountRows(rows, HasWinner)
  {
    CountMonotone(rows, WonBy(w), HasWinner);
  }

  lemma {:induction false} FindPaperFinds(papers: seq<PaperSlot>, index: int)
    requires exists p :: p in papers && p.paperIndex == index
    ensures FindPaper(papers, index).Some?
  {
    if papers[0].paperIndex != index {
      var p :| p in papers && p.paperIndex == index;
      assert p in papers[1..];
      FindPaperFinds(papers[1..], index);
    }
  }

  predicate Eligible(papers: seq<PaperSlot>, p: PaperSlot, index: int) {
    p.paperIndex == index && (p.completed || forall q :: q in papers ==> !q.completed)
  }

  /** Whatever the model claims, the basis is "no clear winner" exactly when no overall winner
      is left; and an overall winner is an eligible paper of the comparison. */
  lemma {:induction false} BasisIff(claims: Claims, papers: seq<PaperSlot>, stats: Stats)
    ensures var winner := OverallWinner(claims, papers);
      && (WinnerBasis(claims, papers, winner, stats) == NoClearWinner <==> winner == None)
      && (winner.Some? ==> winner == claims.winner && exists p :: p in papers && Eligible(papers, p, winner.value))
  {
    var winner := OverallWinner(claims, papers);
    if winner.Some? {
      var completed := set p | p in papers && p.completed :: p.paperIndex;
      assert forall p :: p in papers && p.completed ==> p.paperIndex in completed;
      FindPaperFinds(papers, winner.value);
    }
  }

  // ----- facts about the concrete matrix -----

  /** A task is unique to paper i exactly when it occurs and all its rows are unique rows of i. */
  lemma {:induction false} MatrixUniqueTaskIff(papers: seq<PaperSlot>, i: int, t: string)
    ensures var rows := MatrixOf(PaperNaming(), papers);
      t in UniqueTasksOf(rows, i) <==>
        && (exists n :: 0 <= n < |rows| && rows[n].key.task == t)
        && (forall n :: 0 <= n < |rows| && rows[n].key.task == t ==> Label(rows[n]) in SortedSet(SoleLabels(rows, i)))
  {
    var nm := PaperNaming();
    var rows := MatrixOf(nm, papers);
    RowsAreSorted(nm, papers);
    forall n | 0 <= n < |rows| ensures Present(rows[n]) != {} && SlashFree(rows[n].key.task) {
      MatrixRowsPresent(nm, papers, n);
      KeysMember(nm, Reports(papers), rows[n].key);
      var r :| r in Reports(papers) && KeyOf(nm, r.benchmark) == rows[n].key;
      Names.TaskHasNoSlash(r.benchmark.task);
    }
    forall m, n | 0 <= m < n < |rows| ensures rows[m].key != rows[n].key {
      assert KeyBefore(MatrixKeys(nm, Reports(papers))[m], MatrixKeys(nm, Reports(papers))[n]);
    }
    UniqueTaskIff(rows, i, t);
  }
}
