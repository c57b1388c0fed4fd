/** What a comparison report says (agents/comparator.py:472-786), in terms of the rows, the papers
    and the claims it is made of. */
module ReportReading {
  import opened Wrappers
  import opened Basics
  import opened Schemas
  import opened Sorting
  import opened Text
  import opened Rows
  import opened Matrix
  import opened MatrixTheorems
  import opened Standings
  import opened StandingsTheorems
  import opened Recommendations
  import opened Comparison
  import opened NameForms

  // ----- recommendations -----

  const CONSTRAINTS: set<(string, string)> :=
    {("highest accuracy", "best accuracy"), ("top accuracy", "best accuracy"),
     ("best reasoning prototype", "best prototype for reasoning quality"),
     ("strongest reasoning prototype", "best prototype for reasoning quality"),
     ("best prototype for reasoning", "best prototype for reasoning quality"),
     ("best benchmark", "best benchmark evidence"), ("best benchmarks", "best benchmark evidence"),
     ("easiest deployment", "easiest to deploy"), ("deployment ease", "easiest to deploy")}

  lemma {:induction false} ConstraintTable(n: string, v: string)
    ensures ConstraintAlias(n) == Some(v) <==> Has(CONSTRAINTS, n, v)
  {}

  lemma {:induction false} ConstraintIs(constraint: string)
    ensures Given(CONSTRAINTS, Form(constraint), Form(constraint), NormalizeConstraint(constraint))
    ensures forall v :: Given(CONSTRAINTS, Form(constraint), Form(constraint), v) ==> v == NormalizeConstraint(constraint)
  {
    var n := Form(constraint);
    NameIsForm(constraint);
    forall w ensures ConstraintAlias(n) == Some(w) <==> Has(CONSTRAINTS, n, w) { ConstraintTable(n, w); }
  }

  /** The item recommends a valid paper, for a constraint that is not blank and with a reason. */
  ghost predicate Offers(item: RawItem, valid: set<int>, r: Recommendation) {
    && item.Fields? && item.paperIndex == Some(r.paperIndex) && r.paperIndex in valid
    && r.reasoning == Strip(item.reasoning) && !IsBlank(item.reasoning)
    && r.constraint != ""
    && Given(CONSTRAINTS, Form(Strip(item.constraint)), Form(Strip(item.constraint)), r.constraint)
  }

  /** No earlier item offers anything for its constraint. */
  ghost predicate FirstOffer(raw: seq<RawItem>, valid: set<int>, i: int, r: Recommendation) {
    0 <= i < |raw| && Offers(raw[i], valid, r)
    && forall j, s :: 0 <= j < i && Offers(raw[j], valid, s) ==> s.constraint != r.constraint
  }

  /** The first offers in order, from these positions, up to five. */
  ghost predicate FirstOffers(raw: seq<RawItem>, valid: set<int>, rs: seq<Recommendation>, at: seq<int>) {
    && |at| == |rs| <= 5
    && (forall k :: 0 <= k < |rs| ==> FirstOffer(raw, valid, at[k], rs[k]))
    && (forall k, l :: 0 <= k < l < |at| ==> at[k] < at[l])
    && (forall i, r :: FirstOffer(raw, valid, i, r) ==> i in at || (|rs| == 5 && Later(at, i)))
  }

  lemma {:induction false} OffersIff(item: RawItem, valid: set<int>, r: Recommendation)
    ensures Offers(item, valid, r) <==> Accepted(Read(item), valid) && Read(item).value == r
  {
    if item.Fields? {
      ConstraintIs(Strip(item.constraint));
      StripOfBlank(item.reasoning);
    }
  }

  lemma {:induction false} FirstOfferIff(raw: seq<RawItem>, valid: set<int>, i: int, r: Recommendation)
    ensures FirstOffer(raw, valid, i, r) <==> FirstIs(ReadAll(raw), valid, i, r)
  {
    var items := ReadAll(raw);
    forall j, s | 0 <= j < |raw|
      ensures Offers(raw[j], valid, s) <==> Accepted(items[j], valid) && items[j].value == s
    {
      OffersIff(raw[j], valid, s);
    }
    if FirstOffer(raw, valid, i, r) {
      forall j | 0 <= j < i ensures !AcceptedFor(items, valid, j, r.constraint) {
        if Accepted(items[j], valid) { assert Offers(raw[j], valid, items[j].value); }
      }
    }
    if FirstIs(items, valid, i, r) {
      forall j, s | 0 <= j < i && Offers(raw[j], valid, s) ensures s.constraint != r.constraint {
        assert !AcceptedFor(items, valid, j, r.constraint);
      }
    }
  }

  /** Where the kept items stand. */
  lemma {:induction false} KeptPositions(items: seq<Option<Recommendation>>, valid: set<int>) returns (at: seq<int>)
    ensures |at| == |Kept(items, valid)|
    ensures forall k :: 0 <= k < |at| ==> FirstIs(items, valid, at[k], Kept(items, valid)[k])
    ensures forall k, l :: 0 <= k < l < |at| ==> at[k] < at[l]
    ensures forall i :: FirstFor(items, valid, i) ==> i in at
  {
    if items == [] {
      at := [];
    } else {
      var n := |items| - 1;
      at := KeptPositions(items[..n], valid);
      FirstSnoc(items, valid, n);
      forall k | 0 <= k < |at| ensures at[k] < n && FirstIs(items, valid, at[k], Kept(items[..n], valid)[k]) {
        assert FirstIs(items[..n], valid, at[k], Kept(items[..n], valid)[k]);
        assert items[..n][at[k]] == items[at[k]];
      }
      forall i | FirstFor(items, valid, i) ensures i in at || i == n {
        if i != n { assert FirstFor(items[..n], valid, i); }
      }
      if FirstFor(items, valid, n) { at := at + [n]; }
    }
  }

  predicate Later(at: seq<int>, i: int) { forall k :: 0 <= k < |at| ==> at[k] < i }

  /** The recommendations taken are the first offers. */
  lemma {:induction false} TakenAreFirstOffers(raw: seq<RawItem>, valid: set<int>) returns (at: seq<int>)
    ensures FirstOffers(raw, valid, Taken(ReadAll(raw), valid), at)
  {
    var all := KeptPositions(ReadAll(raw), valid);
    var rs := Taken(ReadAll(raw), valid);
    at := all[..|rs|];
    forall k | 0 <= k < |rs| ensures FirstOffer(raw, valid, at[k], rs[k]) { FirstOfferIff(raw, valid, at[k], rs[k]); }
    forall i, r | FirstOffer(raw, valid, i, r) ensures i in at || (|rs| == 5 && Later(at, i)) {
      FirstOfferIff(raw, valid, i, r);
      assert FirstFor(ReadAll(raw), valid, i);
      CutFromLater(all, |rs|, i);
    }
  }

  lemma {:induction false} CutFromLater(all: seq<int>, n: nat, i: int)
    requires n <= |all| && i in all && forall k, l :: 0 <= k < l < |all| ==> all[k] < all[l]
    ensures i in all[..n] || (n < |all| && Later(all[..n], i))
  {
    var l :| 0 <= l < |all| && all[l] == i;
    if l < n { assert all[..n][l] == i; }
  }

  // ----- counts -----

  function Places(rows: seq<Row>, p: Row -> bool): set<int> {
    set n | 0 <= n < |rows| && p(rows[n])
  }

  lemma {:induction false} CountIsSize(rows: seq<Row>, p: Row -> bool)
    ensures CountRows(rows, p) == |Places(rows, p)|
  {
    if rows != [] {
      var n := |rows| - 1;
      CountIsSize(rows[..n], p);
      assert Places(rows, p) == Places(rows[..n], p) + if p(rows[n]) then {n} else {};
    }
  }

  predicate Both(row: Row, i: int, j: int) {
    i in row.cells && j in row.cells && i != j && row.cells[i].value.Some? && row.cells[j].value.Some?
  }

  function EvenRows(rows: seq<Row>, even: bool): set<int> { set n | 0 <= n < |rows| && rows[n].comparable == even }

  function WonRows(rows: seq<Row>): set<int> { set n | 0 <= n < |rows| && rows[n].winner.Some? }

  function RowsWon(rows: seq<Row>, i: int): set<int> { set n | 0 <= n < |rows| && rows[n].winner == Some(i) }

  ghost predicate Shared(row: Row) { exists i, j :: Both(row, i, j) }

  ghost function SharedRows(rows: seq<Row>): set<int> { set n | 0 <= n < |rows| && Shared(rows[n]) }

  /** How many rows there are, can be compared, were won, and were reported by two papers. */
  ghost predicate Counted(stats: Stats, rows: seq<Row>) {
    && stats.rows == |rows|
    && stats.comparableRows == |EvenRows(rows, true)| && stats.rowsWithWinner == |WonRows(rows)|
    && stats.rowsWithOverlap == |SharedRows(rows)|
    && forall i :: (if i in stats.wins then stats.wins[i] else 0) == |RowsWon(rows, i)|
  }

  lemma {:induction false} OverlapsIff(row: Row)
    ensures Overlaps(row) <==> Shared(row)
  {
    if Overlaps(row) {
      var i, j := TwoOf(Present(row));
      assert Both(row, i, j);
    }
    if i, j :| Both(row, i, j) {
      SizeTwo(Present(row), i, j);
    }
  }

  lemma {:induction false} TwoOf(s: set<int>) returns (i: int, j: int)
    requires |s| >= 2
    ensures i in s && j in s && i != j
  {
    assert (forall i :: i !in s) ==> s == {};
    i :| i in s;
    assert |s - {i}| == |s| - 1;
    var rest := s - {i};
    assert (forall j :: j !in rest) ==> rest == {};
    j :| j in rest;
  }

  lemma {:induction false} TalliesCount(stats: Stats, rows: seq<Row>)
    requires Tallies(stats, rows)
    ensures Counted(stats, rows)
  {
    CountIsSize(rows, Comparable);
    CountIsSize(rows, HasWinner);
    CountIsSize(rows, Overlaps);
    assert Places(rows, Comparable) == EvenRows(rows, true);
    assert Places(rows, HasWinner) == WonRows(rows);
    forall n | 0 <= n < |rows| ensures Overlaps(rows[n]) <==> Shared(rows[n]) { OverlapsIff(rows[n]); }
    assert Places(rows, Overlaps) == SharedRows(rows);
    forall i ensures (if i in stats.wins then stats.wins[i] else 0) == |RowsWon(rows, i)| {
      CountIsSize(rows, WonBy(i));
      assert Places(rows, WonBy(i)) == RowsWon(rows, i);
    }
  }

  // ----- the winner and the basis -----

  function Level(p: PaperSlot): Option<Maturity> {
    if p.readiness.Some? then Some(p.readiness.value.maturity) else None
  }

  /** q is further than p on the way from nothing over research and experiment to production. */
  predicate Riper(q: PaperSlot, p: PaperSlot) {
    match Level(q)
    case None => false
    case Some(ResearchOnly) => Level(p) == None
    case Some(Experimental) => Level(p) == None || Level(p) == Some(ResearchOnly)
    case Some(ProductionReady) => Level(p) != Some(ProductionReady)
  }

  ghost predicate FirstAt(papers: seq<PaperSlot>, index: int, k: int) {
    0 <= k < |papers| && papers[k].paperIndex == index && forall j :: 0 <= j < k ==> papers[j].paperIndex != index
  }

  /** A completed paper, or any if none is completed. */
  predicate MayWin(papers: seq<PaperSlot>, k: int) {
    0 <= k < |papers| && (papers[k].completed || forall j :: 0 <= j < |papers| ==> !papers[j].completed)
  }

  lemma {:induction false} EligibleIff(papers: seq<PaperSlot>, i: int)
    ensures i in EligibleIndexes(papers) <==> exists k :: MayWin(papers, k) && papers[k].paperIndex == i
  {
    var completed := set p | p in papers && p.completed :: p.paperIndex;
    assert completed == {} <==> forall j :: 0 <= j < |papers| ==> !papers[j].completed by {
      forall j | 0 <= j < |papers| && papers[j].completed ensures completed != {} { assert papers[j].paperIndex in completed; }
    }
    if i in EligibleIndexes(papers) {
      var p :| p in papers && p.paperIndex == i && (p.completed || completed == {});
      var k :| 0 <= k < |papers| && papers[k] == p;
      assert MayWin(papers, k);
    }
  }

  lemma {:induction false} FoundIsFirst(papers: seq<PaperSlot>, index: int, k: int)
    requires FirstAt(papers, index, k)
    ensures FindPaper(papers, index) == Some(papers[k])
  {
    if k > 0 {
      assert forall j :: 0 <= j < k - 1 ==> papers[1..][j].paperIndex == papers[j + 1].paperIndex != index;
      FoundIsFirst(papers[1..], index, k - 1);
    }
  }

  lemma {:induction false} TopIff(papers: seq<PaperSlot>, p: PaperSlot)
    ensures TopMaturity(papers, p) <==> forall q :: q in papers ==> !Riper(q, p)
  {
    forall q ensures MaturityRank(q) > MaturityRank(p) <==> Riper(q, p) {}
  }

  /** The basis: the claimed one if it is usable, and else whether the winner won rows, as many as
      any, without being riper or less ripe than the rest. */
  ghost predicate BasisReads(claims: Claims, papers: seq<PaperSlot>, rows: seq<Row>, winner: Option<int>, basis: Basis) {
    if winner == None then basis == NoClearWinner
    else if claims.basis.Some? && claims.basis.value != NoClearWinner then Some(basis) == claims.basis
    else exists k :: FirstAt(papers, winner.value, k) && basis == Computed(papers, rows, winner.value, papers[k])
  }

  ghost function Computed(papers: seq<PaperSlot>, rows: seq<Row>, w: int, p: PaperSlot): Basis {
    if RowsWon(rows, w) == {} || (exists i :: |RowsWon(rows, i)| > |RowsWon(rows, w)|) then ReadinessDominant
    else if exists q :: q in papers && Riper(q, p) then BenchmarkDominant
    else Mixed
  }

  lemma {:induction false} FirstExists(papers: seq<PaperSlot>, index: int) returns (k: int)
    requires exists p :: p in papers && p.paperIndex == index
    ensures FirstAt(papers, index, k)
  {
    if papers[0].paperIndex == index {
      k := 0;
    } else {
      assert exists p :: p in papers[1..] && p.paperIndex == index;
      k := FirstExists(papers[1..], index);
      assert forall j :: 0 < j < k + 1 ==> papers[j] == papers[1..][j - 1];
      k := k + 1;
    }
  }

  lemma {:induction false} WinnerReads(claims: Claims, papers: seq<PaperSlot>, stats: Stats, rows: seq<Row>)
    requires Tallies(stats, rows)
    ensures var winner := OverallWinner(claims, papers);
      && WinnerIs(claims, papers, winner) && BasisReads(claims, papers, rows, winner, WinnerBasis(claims, papers, winner, stats))
  {
    var winner := OverallWinner(claims, papers);
    forall w ensures winner == Some(w) <==> claims.winner == Some(w) && exists k :: MayWin(papers, k) && papers[k].paperIndex == w {
      EligibleIff(papers, w);
    }
    if winner.Some? && !(claims.basis.Some? && claims.basis.value != NoClearWinner) {
      BasisIff(claims, papers, stats);
      var k := FirstExists(papers, winner.value);
      FoundIsFirst(papers, winner.value, k);
      TopIff(papers, papers[k]);
      UnclaimedBasis(claims, papers, winner.value, stats, rows);
      forall i ensures CountRows(rows, WonBy(i)) == |RowsWon(rows, i)| {
        CountIsSize(rows, WonBy(i));
        assert Places(rows, WonBy(i)) == RowsWon(rows, i);
      }
      OtherBasis(claims, papers, winner, stats);
    }
  }

  lemma {:induction false} OtherBasis(claims: Claims, papers: seq<PaperSlot>, winner: Option<int>, stats: Stats)
    requires winner.Some? && FindPaper(papers, winner.value).Some? && claims.basis in {None, Some(NoClearWinner)}
    ensures WinnerBasis(claims, papers, winner, stats) in {BenchmarkDominant, Mixed, ReadinessDominant}
  {}

  // ----- the fallback texts -----

  function Finished(papers: seq<PaperSlot>): set<int> { set k | 0 <= k < |papers| && papers[k].completed }

  function FinishedAt(papers: seq<PaperSlot>, level: Option<Maturity>): set<int> {
    set k | 0 <= k < |papers| && papers[k].completed && Level(papers[k]) == level
  }

  lemma {:induction false} FinishedSnoc(before: seq<PaperSlot>, p: PaperSlot, level: Option<Maturity>)
    ensures Finished(before + [p]) == Finished(before) + if p.completed then {|before|} else {}
    ensures FinishedAt(before + [p], level) == FinishedAt(before, level) + if p.completed && Level(p) == level then {|before|} else {}
  {}

  lemma {:induction false} MaturitySnoc(before: seq<PaperSlot>, p: PaperSlot, level: Option<Maturity>)
    ensures var counts, after := MaturityCounts(before), MaturityCounts(before + [p]);
      && (level in after <==> level in counts || Level(p) == level)
      && (level in after ==> after[level] == (if level in counts then counts[level] else 0) + if Level(p) == level then 1 else 0)
  {
    assert (before + [p])[..|before|] == before;
  }

  lemma {:induction false} CompletedSize(papers: seq<PaperSlot>)
    ensures |CompletedPapers(papers)| == |Finished(papers)|
  {
    if papers != [] {
      var before, p := papers[..|papers| - 1], papers[|papers| - 1];
      assert papers == before + [p];
      CompletedSize(before);
      FinishedSnoc(before, p, None);
    }
  }

  lemma {:induction false} CompletedCounted(papers: seq<PaperSlot>, level: Option<Maturity>)
    ensures CountsOf(MaturityCounts(CompletedPapers(papers)), level, FinishedAt(papers, level))
  {
    if papers != [] {
      var before, p := papers[..|papers| - 1], papers[|papers| - 1];
      assert papers == before + [p];
      CompletedCounted(before, level);
      FinishedSnoc(before, p, level);
      if p.completed {
        CountsStep(CompletedPapers(before), p, level, FinishedAt(before, level), |before|);
      } else {
        assert CompletedPapers(before) + [] == CompletedPapers(before);
        assert FinishedAt(before, level) + {} == FinishedAt(before, level);
      }
    }
  }

  lemma {:induction false} CountsStep(papers: seq<PaperSlot>, p: PaperSlot, level: Option<Maturity>, places: set<int>, n: int)
    requires CountsOf(MaturityCounts(papers), level, places) && n !in places
    ensures CountsOf(MaturityCounts(papers + [p]), level, places + if Level(p) == level then {n} else {})
  {
    MaturitySnoc(papers, p, level);
    PlaceAdded(places, n);
  }

  lemma {:induction false} PlaceAdded(places: set<int>, n: int)
    ensures n !in places ==> |places + {n}| == |places| + 1
    ensures places + {} == places && places + {n} != {}
  {
    assert n in places + {n};
  }

  predicate CountsOf(counts: map<Option<Maturity>, nat>, level: Option<Maturity>, places: set<int>) {
    && (level in counts <==> places != {})
    && (level in counts ==> counts[level] == |places|)
  }

  predicate TradeOffsRead(claims: Claims, papers: seq<PaperSlot>, rows: seq<Row>, text: TradeOffs) {
    text == if !IsBlank(claims.tradeOffs) then ClaimedTradeOffs(Strip(claims.tradeOffs))
            else if Finished(papers) == {} then NothingCompleted
            else if rows == [] then NothingAligned(|Finished(papers)|)
            else RowsCompared(|Finished(papers)|, |rows|, |EvenRows(rows, true)|, |EvenRows(rows, false)|)
  }

  ghost predicate ReasoningReads(claims: Claims, papers: seq<PaperSlot>, rows: seq<Row>, text: Reasoning) {
    if !IsBlank(claims.reasoning) then text == ClaimedReasoning(Strip(claims.reasoning))
    else if Finished(papers) == {} then text == NoReliableWinner
    else && text.NoClearReason? && text.completed == |Finished(papers)| && text.rows == |rows|
         && forall level :: CountsOf(text.maturities, level, FinishedAt(papers, level))
  }

  /** The texts that the model did not give are made of the counts of completed papers and rows. */
  lemma {:induction false} TextsRead(claims: Claims, papers: seq<PaperSlot>, rows: seq<Row>)
    ensures TradeOffsRead(claims, papers, rows, TradeOffsOf(claims, papers, rows))
    ensures ReasoningReads(claims, papers, rows, ReasoningOf(claims, papers, rows))
  {
    StripOfBlank(claims.tradeOffs);
    StripOfBlank(claims.reasoning);
    CompletedSize(papers);
    CountIsSize(rows, Comparable);
    CountIsSize(rows, Incomparable);
    assert Places(rows, Comparable) == EvenRows(rows, true);
    assert Places(rows, Incomparable) == EvenRows(rows, false);
    forall level ensures CountsOf(MaturityCounts(CompletedPapers(papers)), level, FinishedAt(papers, level)) {
      CompletedCounted(papers, level);
    }
  }

  // ----- what only one paper reports -----

  /** Paper i alone shows a value in the row. */
  predicate OnlyBy(row: Row, i: int) {
    i in row.cells && row.cells[i].value.Some? && forall j :: j in row.cells && row.cells[j].value.Some? ==> j == i
  }

  ghost predicate OnlyRow(rows: seq<Row>, i: int, name: string, n: int) {
    0 <= n < |rows| && OnlyBy(rows[n], i) && name == rows[n].key.task + "/" + rows[n].key.metric
  }

  ghost predicate OnlyTask(rows: seq<Row>, i: int, t: string) {
    && (exists n :: 0 <= n < |rows| && rows[n].key.task == t)
    && (forall n :: 0 <= n < |rows| && rows[n].key.task == t ==> OnlyBy(rows[n], i))
  }

  lemma {:induction false} SoleIff(row: Row, i: int)
    ensures Sole(row, i) <==> OnlyBy(row, i)
  {
    if Sole(row, i) {
      assert i in Present(row);
      forall j | j in row.cells && row.cells[j].value.Some? ensures j == i { assert j in Present(row); }
    }
    if OnlyBy(row, i) {
      assert i in Present(row);
      assert forall j :: j in Present(row) ==> j == i;
      assert Present(row) == {i};
    }
  }

  lemma {:induction false} SortedOnce(xs: seq<string>)
    ensures NoDup(SortedSet(xs)) && Sorted(StrLe, SortedSet(xs)) && forall x :: x in SortedSet(xs) <==> x in xs
  {
    SortedSetFacts(xs);
    DedupFacts(xs);
    StrLeIsTotalPreorder();
    NoDupSort(Dedup(xs), StrLe);
  }

  /** The rows and the tasks that only paper i reports, each once and in order. */
  lemma {:induction false} UniquesRead(rows: seq<Row>, i: int)
    requires forall n :: 0 <= n < |rows| ==> Present(rows[n]) != {}
    ensures var names := SortedSet(SoleLabels(rows, i));
      && NoDup(names) && Sorted(StrLe, names) && forall name :: name in names <==> exists n :: OnlyRow(rows, i, name, n)
    ensures var tasks := UniqueTasksOf(rows, i);
      && NoDup(tasks) && Sorted(StrLe, tasks) && forall t :: t in tasks <==> OnlyTask(rows, i, t)
  {
    SortedOnce(SoleLabels(rows, i));
    SortedOnce(SoleTasks(rows, Dedup(TasksOf(rows)), i));
    forall n | 0 <= n < |rows| ensures Sole(rows[n], i) <==> OnlyBy(rows[n], i) { SoleIff(rows[n], i); }
    forall name ensures name in SoleLabels(rows, i) <==> exists n :: OnlyRow(rows, i, name, n) {
      SoleLabelsMember(rows, i, name);
      if n :| 0 <= n < |rows| && Sole(rows[n], i) && Label(rows[n]) == name { assert OnlyRow(rows, i, name, n); }
    }
    forall t ensures t in UniqueTasksOf(rows, i) <==> OnlyTask(rows, i, t) { TaskReads(rows, i, t); }
  }

  lemma {:induction false} TaskReads(rows: seq<Row>, i: int, t: string)
    requires forall n :: 0 <= n < |rows| ==> Present(rows[n]) != {}
    requires forall n :: 0 <= n < |rows| ==> (Sole(rows[n], i) <==> OnlyBy(rows[n], i))
    ensures t in UniqueTasksOf(rows, i) <==> OnlyTask(rows, i, t)
  {
    assert t in UniqueTasksOf(rows, i) <==> t in Dedup(TasksOf(rows)) && TaskOnlyOf(rows, t, i) by {
      SortedSetFacts(SoleTasks(rows, Dedup(TasksOf(rows)), i));
      SoleTasksMember(rows, Dedup(TasksOf(rows)), i, t);
      TaskPapersIff(rows, t, i);
    }
    assert TaskOnlyOf(rows, t, i) ==> t in Dedup(TasksOf(rows)) by { TaskListed(rows, t); }
  }

  lemma {:induction false} TaskListed(rows: seq<Row>, t: string)
    ensures t in Dedup(TasksOf(rows)) <==> exists n :: 0 <= n < |rows| && rows[n].key.task == t
  {
    DedupFacts(TasksOf(rows));
    if n :| 0 <= n < |rows| && rows[n].key.task == t { assert TasksOf(rows)[n] == t; }
  }

  // ----- the lists of the report -----

  ghost predicate WinnerIs(claims: Claims, papers: seq<PaperSlot>, winner: Option<int>) {
    forall w :: winner == Some(w) <==> claims.winner == Some(w) && exists k :: MayWin(papers, k) && papers[k].paperIndex == w
  }

  ghost predicate NamesOnce(names: seq<string>) { NoDup(names) && Sorted(StrLe, names) }

  ghost predicate Uniques(rows: seq<Row>, papers: seq<PaperSlot>, names: map<int, seq<string>>, tasks: map<int, seq<string>>) {
    && (forall i :: i in names <==> i in IndexesOf(papers)) && (forall i :: i in tasks <==> i in IndexesOf(papers))
    && (forall i :: i in names ==> NamesOnce(names[i]))
    && (forall i, name :: i in names ==> (name in names[i] <==> exists n :: OnlyRow(rows, i, name, n)))
    && (forall i :: i in tasks ==> NamesOnce(tasks[i]))
    && (forall i, t :: i in tasks ==> (t in tasks[i] <==> OnlyTask(rows, i, t)))
  }

  /** The overlap ratio is the part of the rows that two papers report. */
  lemma {:induction false} OverlapReads(rows: seq<Row>)
    ensures OverlapRatio(rows) * |rows| as real == |SharedRows(rows)| as real
  {
    CountIsSize(rows, Overlaps);
    forall n | 0 <= n < |rows| ensures Overlaps(rows[n]) <==> Shared(rows[n]) { OverlapsIff(rows[n]); }
    assert Places(rows, Overlaps) == SharedRows(rows);
  }

  /** The lists of what only one paper reports. */
  lemma {:induction false} UniquesHold(
    papers: seq<PaperSlot>, rows: seq<Row>, names: map<int, seq<string>>, tasks: map<int, seq<string>>)
    requires forall n :: 0 <= n < |rows| ==> Present(rows[n]) != {}
    requires names == map i | i in IndexesOf(papers) :: SortedSet(SoleLabels(rows, i))
    requires tasks == map i | i in IndexesOf(papers) :: UniqueTasksOf(rows, i)
    ensures Uniques(rows, papers, names, tasks)
  {
    forall i | i in names
      ensures NamesOnce(names[i]) && NamesOnce(tasks[i])
      ensures forall name :: name in names[i] <==> exists n :: OnlyRow(rows, i, name, n)
      ensures forall t :: t in tasks[i] <==> OnlyTask(rows, i, t)
    {
      UniquesRead(rows, i);
    }
  }
}
