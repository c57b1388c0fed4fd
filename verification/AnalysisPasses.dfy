/** Runs of the analysis graph read off the replies alone: which paper each pass reads, which
    slot it records, and how the chunker is called, without a state or a node in sight. */
module AnalysisPasses {
  import opened Wrappers
  import opened AnalysisGraph
  import opened AnalysisRuns

  /** The paper read after paper i ended with verdict v; none when the run is over. */
  function After(q: Request, i: nat, v: Verdict): Option<nat> {
    match v
    case Rejected(_) => None
    case Broken(_, _) => if IsBatch(InputOf(q)) then Following(q, i) else None
    case Unreported => Some(i)
    case Done => Following(q, i)
  }

  function Following(q: Request, i: nat): Option<nat> {
    if i + 1 < InputOf(q).totalPapers then Some(i + 1) else None
  }

  /** The paper that pass p reads; none when the run makes no pass p. */
  function ReadBy(q: Request, oracle: nat -> Reply, p: nat): Option<nat> {
    if p == 0 then Some(0)
    else match ReadBy(q, oracle, p - 1)
      case None => None
      case Some(i) => After(q, i, PassVerdict(q, i, oracle(p - 1)))
  }

  /** The chunker calls of pass p over paper i. After a failed report the slot is the one before. */
  function CallsOf(q: Request, p: nat, i: nat, r: Reply): seq<ChunkCall> {
    var v := PassVerdict(q, i, r);
    if v.Done? then [CallUnder(q, i, p, i, r)]
    else if v.Unreported? && i > 0 then [CallUnder(q, i - 1, p, i, r)]
    else []
  }

  function CallUnder(q: Request, slot: nat, p: nat, i: nat, r: Reply): ChunkCall
    requires r.ingestion.Ingested?
  {
    ChunkCall(slot, UrlOf(q, slot), Some(r.ingestion.metadata), Some(r.ingestion.rawText), p, i)
  }

  function CallsBefore(q: Request, oracle: nat -> Reply, p: nat): seq<ChunkCall> {
    if p == 0 then []
    else match ReadBy(q, oracle, p - 1)
      case None => CallsBefore(q, oracle, p - 1)
      case Some(i) => CallsBefore(q, oracle, p - 1) + CallsOf(q, p - 1, i, oracle(p - 1))
  }

  // ----- the invariant -----

  ghost predicate Reads(q: Request, oracle: nat -> Reply, c: Config) {
    match c.node
    case Supervisor => ReadBy(q, oracle, c.pass) == Some(c.state.index)
    case Ingestion => ReadBy(q, oracle, c.pass) == Some(c.state.index)
    case Comparator => ReadBy(q, oracle, c.pass).None?
    case ErrorNode => ReadBy(q, oracle, c.pass + 1).None?
    case End => ReadBy(q, oracle, c.pass + 1).None?
    case _ => ReadBy(q, oracle, c.pass) == Some(c.reading)
  }

  /** Slot k was recorded in a pass over paper k. */
  ghost predicate SlotReads(q: Request, oracle: nat -> Reply, slotPass: seq<nat>) {
    forall k :: 0 <= k < |slotPass| ==> ReadBy(q, oracle, slotPass[k]) == Some(k)
  }

  predicate AllBelow(passes: seq<nat>, p: nat) {
    forall k :: 0 <= k < |passes| ==> passes[k] < p
  }

  /** The passes that may have recorded a slot: this one only if chunks come next. */
  function PassesSoFar(c: Config): nat {
    if c.node.ChunkAndIndex? then c.pass + 1 else c.pass
  }

  /** Every finished pass recorded a slot or failed to report. */
  predicate Counts(c: Config) {
    c.pass + Pending(c) == c.state.index + c.failedReports
  }

  /** Whether the current pass has already recorded or failed to report. */
  function Pending(c: Config): int {
    match c.node
    case EvidenceCritic => if c.state.scratch.written.report.Some? then 0 else 1
    case ReportFinalize => if c.state.scratch.written.report.Some? then 0 else 1
    case ChunkAndIndex => 1
    case _ => 0
  }

  ghost predicate Follows(q: Request, oracle: nat -> Reply, c: Config) {
    && Reads(q, oracle, c)
    && SlotReads(q, oracle, c.slotPass) && AllBelow(c.slotPass, PassesSoFar(c))
    && c.chunked == CallsBefore(q, oracle, c.pass)
    && Counts(c)
  }

  // ----- one step -----

  lemma {:induction false} OverAfter(q: Request, oracle: nat -> Reply, p: nat)
    requires ReadBy(q, oracle, p).None?
    ensures ReadBy(q, oracle, p + 1).None?
  {}

  lemma {:induction false} ReadsNext(q: Request, oracle: nat -> Reply, p: nat, i: nat)
    requires ReadBy(q, oracle, p) == Some(i)
    ensures ReadBy(q, oracle, p + 1) == After(q, i, PassVerdict(q, i, oracle(p)))
    ensures CallsBefore(q, oracle, p + 1) == CallsBefore(q, oracle, p) + CallsOf(q, p, i, oracle(p))
  {}

  predicate Between(node: Node) { node.ChunkAndIndex? || node.PaperFailureFinalize? }

  /** How many slots the node of c is about to record. */
  function SlotsDue(c: Config): nat {
    match c.node
    case PaperFailureFinalize => 1
    case ReportFinalize => if c.state.scratch.written.report.Some? then 1 else 0
    case _ => 0
  }

  /** A step as far as the results below need it: an update that records what is due and
      keeps what is known. */
  ghost predicate Moves(q: Request, oracle: nat -> Reply, c: Config, u: Update, d: Config) {
    && !c.node.End? && d == Advance(c, u, oracle(c.pass)) && |u.papers| == SlotsDue(c)
    && Tracks(q, oracle, c) && Tracks(q, oracle, d)
  }

  lemma {:induction false} StepMoves(q: Request, oracle: nat -> Reply, c: Config)
    requires Tracks(q, oracle, c) && !c.node.End?
    ensures Moves(q, oracle, c, NodeUpdate(c.node, c.state, oracle(c.pass)), Step(c, oracle))
  {
    StepTracks(q, oracle, c);
    DueIsRecorded(q, c, oracle(c.pass));
  }

  lemma {:induction false} DueIsRecorded(q: Request, c: Config, r: Reply)
    requires InStep(q, c) && (Finalizes(c.node) ==> MoreToRead(c.state)) && (c.node.PaperFailureFinalize? ==> IsBatch(c.state.input))
    ensures |NodeUpdate(c.node, c.state, r).papers| == SlotsDue(c)
  {
    if Finalizes(c.node) {
      assert CurrentUrl(c.state.input, c.state.index) == Ok(UrlOf(q, c.state.index));
    }
  }

  predicate Finalizes(node: Node) { node.ReportFinalize? || node.PaperFailureFinalize? }

  /** Within a pass the paper read stays the same; the error node is for the last pass only. */
  lemma {:induction false} ReadsWithinPass(q: Request, oracle: nat -> Reply, c: Config, u: Update, d: Config)
    requires Moves(q, oracle, c, u, d) && Reads(q, oracle, c)
    requires !Between(c.node) && !c.node.Comparator? && !c.node.ErrorNode?
    ensures Reads(q, oracle, d)
  {
    assert d.pass == c.pass;
    if !c.node.Supervisor? {
      assert ReadBy(q, oracle, c.pass) == Some(d.reading);
      ReadsNext(q, oracle, c.pass, d.reading);
    }
  }

  lemma {:induction false} ReadsAtTheEnd(q: Request, oracle: nat -> Reply, c: Config, u: Update, d: Config)
    requires Moves(q, oracle, c, u, d) && Reads(q, oracle, c)
    requires c.node.Comparator? || c.node.ErrorNode?
    ensures Reads(q, oracle, d)
  {
    if c.node.Comparator? { OverAfter(q, oracle, c.pass); }
  }

  lemma {:induction false} ChunksVerdict(q: Request, c: Config, r: Reply)
    requires AtChunkAndIndexNode(q, c, r)
    ensures PassVerdict(q, c.reading, r) == if r.report.Reported? then Done else Unreported
  {}

  /** What follows a pass, as the replies have it. */
  lemma {:induction false} AfterChunks(q: Request, c: Config, r: Reply)
    requires InStep(q, c) && AtChunkAndIndexNode(q, c, r) && c.reading >= 0
    ensures After(q, c.reading, PassVerdict(q, c.reading, r))
      == if c.state.index < c.state.input.totalPapers then Some(c.state.index) else None
  {
    ChunksVerdict(q, c, r);
  }

  lemma {:induction false} AfterFailure(q: Request, c: Config, r: Reply)
    requires InStep(q, c) && AtPaperFailure(q, c, r) && c.reading >= 0
    ensures After(q, c.reading, PassVerdict(q, c.reading, r))
      == if c.state.index + 1 < c.state.input.totalPapers then Some(c.state.index + 1) else None
  {}

  lemma {:induction false} ReadsNextPass(q: Request, oracle: nat -> Reply, p: nat, i: nat, d: Config)
    requires ReadBy(q, oracle, p) == Some(i) && d.pass == p + 1
    requires After(q, i, PassVerdict(q, i, oracle(p))) == NextPaper(d.state)
    requires d.node == RouteAfterFinalize(d.state)
    ensures Reads(q, oracle, d)
  {
    ReadsNext(q, oracle, p, i);
    if ReadBy(q, oracle, d.pass).None? { OverAfter(q, oracle, d.pass); }
  }

  function NextPaper(s: State): Option<int> {
    if s.index < s.input.totalPapers then Some(s.index) else None
  }

  lemma {:induction false} StepReads(q: Request, oracle: nat -> Reply, c: Config, u: Update, d: Config)
    requires Moves(q, oracle, c, u, d) && Reads(q, oracle, c)
    ensures Reads(q, oracle, d)
  {
    if c.node.Comparator? || c.node.ErrorNode? {
      ReadsAtTheEnd(q, oracle, c, u, d);
    } else if Between(c.node) {
      if c.node.ChunkAndIndex? { AfterChunks(q, c, oracle(c.pass)); } else { AfterFailure(q, c, oracle(c.pass)); }
      assert d.state.index == c.state.index + SlotsDue(c);
      ReadsNextPass(q, oracle, c.pass, c.reading, d);
    } else {
      ReadsWithinPass(q, oracle, c, u, d);
    }
  }

  lemma {:induction false} RecordPass(q: Request, oracle: nat -> Reply, slotPass: seq<nat>, p: nat)
    requires SlotReads(q, oracle, slotPass) && AllBelow(slotPass, p) && ReadBy(q, oracle, p) == Some(|slotPass|)
    ensures SlotReads(q, oracle, slotPass + [p]) && AllBelow(slotPass + [p], p + 1)
  {}

  lemma {:induction false} StepSlotReads(q: Request, oracle: nat -> Reply, c: Config, u: Update, d: Config)
    requires Moves(q, oracle, c, u, d) && Reads(q, oracle, c)
    requires SlotReads(q, oracle, c.slotPass) && AllBelow(c.slotPass, PassesSoFar(c))
    ensures SlotReads(q, oracle, d.slotPass) && AllBelow(d.slotPass, PassesSoFar(d))
  {
    if u.papers != [] { RecordPass(q, oracle, c.slotPass, c.pass); }
  }

  lemma {:induction false} StepCalls(q: Request, oracle: nat -> Reply, c: Config, u: Update, d: Config)
    requires Moves(q, oracle, c, u, d) && Reads(q, oracle, c) && Recorded(q, oracle, c)
    requires c.chunked == CallsBefore(q, oracle, c.pass)
    ensures d.chunked == CallsBefore(q, oracle, d.pass)
  {
    if c.node.ChunkAndIndex? {
      StepCallsAtChunks(q, oracle, c, u);
    } else {
      CallsElsewhere(c, u, oracle(c.pass));
      if c.node.PaperFailureFinalize? { NoCalls(q, oracle, c.pass, c.reading); }
    }
  }

  lemma {:induction false} CallsElsewhere(c: Config, u: Update, r: Reply)
    requires !c.node.ChunkAndIndex?
    ensures Advance(c, u, r).chunked == c.chunked
    ensures Advance(c, u, r).pass == if c.node.PaperFailureFinalize? then c.pass + 1 else c.pass
  {}

  lemma {:induction false} StepCallsAtChunks(q: Request, oracle: nat -> Reply, c: Config, u: Update)
    requires InStep(q, c) && AtChunkAndIndexNode(q, c, oracle(c.pass)) && c.node.ChunkAndIndex? && c.reading >= 0
    requires Recorded(q, oracle, c) && ReadBy(q, oracle, c.pass) == Some(c.reading)
    requires c.chunked == CallsBefore(q, oracle, c.pass)
    ensures var d := Advance(c, u, oracle(c.pass)); d.chunked == CallsBefore(q, oracle, d.pass)
  {
    CallsNow(q, oracle, c);
    ReadsNext(q, oracle, c.pass, c.reading);
  }

  lemma {:induction false} NoCalls(q: Request, oracle: nat -> Reply, p: nat, i: nat)
    requires ReadBy(q, oracle, p) == Some(i) && PassVerdict(q, i, oracle(p)).Broken?
    ensures CallsBefore(q, oracle, p + 1) == CallsBefore(q, oracle, p)
  {}

  lemma {:induction false} CallsNow(q: Request, oracle: nat -> Reply, c: Config)
    requires InStep(q, c) && AtChunkAndIndexNode(q, c, oracle(c.pass)) && c.node.ChunkAndIndex? && c.reading >= 0
    requires Recorded(q, oracle, c)
    ensures ChunkCallOf(c) == CallsOf(q, c.pass, c.reading, oracle(c.pass))
  {
    var r, v := oracle(c.pass), PassVerdict(q, c.reading, oracle(c.pass));
    ChunksVerdict(q, c, r);
    if c.state.papers != [] {
      var last := |c.state.papers| - 1;
      LastSlot(q, oracle, c);
      assert last == if v.Done? then c.reading else c.reading - 1;
      assert ChunkCallOf(c)[0] == CallUnder(q, last, c.pass, c.reading, r);
      assert CallsOf(q, c.pass, c.reading, r)[0] == CallUnder(q, last, c.pass, c.reading, r);
    } else {
      assert v.Unreported? && c.reading == 0;
    }
  }

  lemma {:induction false} StepCounts(q: Request, oracle: nat -> Reply, c: Config, u: Update, d: Config)
    requires Moves(q, oracle, c, u, d) && Counts(c)
    ensures Counts(d)
  {
    IndexMoves(q, oracle, c, u, d);
    ReportStaysKnown(q, oracle, c, u, d);
    CountsNext(c, u, oracle(c.pass));
  }

  lemma {:induction false} IndexMoves(q: Request, oracle: nat -> Reply, c: Config, u: Update, d: Config)
    requires Moves(q, oracle, c, u, d)
    ensures d.state.index == c.state.index + SlotsDue(c)
  {}

  lemma {:induction false} ReportStaysKnown(q: Request, oracle: nat -> Reply, c: Config, u: Update, d: Config)
    requires Moves(q, oracle, c, u, d)
    ensures d.state.scratch.written.report.Some? == ReportKnown(c, oracle(c.pass)) || !Critical(d.node)
  {}

  predicate Critical(node: Node) { node.EvidenceCritic? || node.ReportFinalize? }

  predicate ReportKnown(c: Config, r: Reply) {
    if c.node.Report? then r.report.Reported? else c.state.scratch.written.report.Some?
  }

  lemma {:induction false} CountsNext(c: Config, u: Update, r: Reply)
    requires Counts(c) && !c.node.End?
    requires var d := Advance(c, u, r);
      && d.state.index == c.state.index + SlotsDue(c)
      && (d.state.scratch.written.report.Some? == ReportKnown(c, r) || !Critical(d.node))
    ensures Counts(Advance(c, u, r))
  {}

  lemma {:induction false} StepFollows(q: Request, oracle: nat -> Reply, c: Config, u: Update, d: Config)
    requires Moves(q, oracle, c, u, d) && Follows(q, oracle, c) && Recorded(q, oracle, c)
    ensures Follows(q, oracle, d)
  {
    StepReads(q, oracle, c, u, d);
    StepSlotReads(q, oracle, c, u, d);
    StepCalls(q, oracle, c, u, d);
    StepCounts(q, oracle, c, u, d);
  }

  lemma {:induction false} NextFollows(q: Request, oracle: nat -> Reply, c: Config)
    requires Tracks(q, oracle, c) && Recorded(q, oracle, c) && Follows(q, oracle, c)
    ensures Follows(q, oracle, Step(c, oracle))
  {
    if !c.node.End? {
      StepMoves(q, oracle, c);
      StepFollows(q, oracle, c, NodeUpdate(c.node, c.state, oracle(c.pass)), Step(c, oracle));
    }
  }

  lemma {:induction false} StartFollows(q: Request, oracle: nat -> Reply)
    ensures Inv(q, oracle, Start(q)) && Follows(q, oracle, Start(q))
  {}

  lemma {:induction false} RunFollows(q: Request, oracle: nat -> Reply, n: nat)
    ensures Follows(q, oracle, Run(q, oracle, n))
  {
    var p := c => Inv(q, oracle, c) && Follows(q, oracle, c);
    StartFollows(q, oracle);
    forall c | p(c) ensures p(Step(c, oracle)) {
      StepKeepsInv(q, oracle, c);
      NextFollows(q, oracle, c);
    }
    Throughout(p, q, oracle, n);
  }
}
