/** What a selection message selects, why it is declined, and why a selection does not resolve
    (services/selection_parser.py, services/selected_candidate_resolver.py, services/searcher.py), in
    terms of the numbers in the message and of the stored candidates. */
module SelectionReading {
  import opened Wrappers
  import opened Basics
  import opened Text
  import opened Discovery
  import opened Selection

  // ----- the numbers of a message -----

  /** A longest run of digits in the message is the number n. */
  predicate NumberAt(message: string, n: nat, i: int, j: int) {
    RunAt(message, IsDigit, i, j) && Value(message[i..j]) == n
  }

  ghost predicate Says(message: string, n: nat) { exists i, j :: NumberAt(message, n, i, j) }

  lemma {:induction false} NumbersAreRuns(s: string)
    ensures |Numbers(s)| == |Runs(s, IsDigit)|
    ensures forall k :: 0 <= k < |Numbers(s)| ==> AllDigits(Runs(s, IsDigit)[k]) && Numbers(s)[k] == Value(Runs(s, IsDigit)[k])
    decreases |s|
  {
    if s != "" { NumbersAreRuns(if IsDigit(s[0]) then s[RunLength(s, IsDigit)..] else s[1..]); }
  }

  lemma {:induction false} NumbersAreSaid(message: string, n: nat)
    ensures n in Numbers(message) <==> Says(message, n)
  {
    var runs := Runs(message, IsDigit);
    NumbersAreRuns(message);
    if n in Numbers(message) {
      var k :| 0 <= k < |runs| && Numbers(message)[k] == n;
      RunsAreRuns(message, IsDigit, runs[k]);
      var i, j :| RunAt(message, IsDigit, i, j) && message[i..j] == runs[k];
      assert NumberAt(message, n, i, j);
    }
    if i, j :| NumberAt(message, n, i, j) {
      RunsAreRuns(message, IsDigit, message[i..j]);
      var k :| 0 <= k < |runs| && runs[k] == message[i..j];
    }
  }

  lemma {:induction false} NothingSaid(message: string)
    ensures Numbers(message) == [] <==> NoDigits(message)
  {
    if message != "" && !IsDigit(message[0]) { NothingSaid(message[1..]); }
  }

  // ----- how a message is handled -----

  /** The numbers of the message that the list does not show. */
  ghost predicate NotShown(message: string, count: nat, ranks: seq<nat>) {
    NoDup(ranks) && forall n: nat :: n in ranks <==> Says(message, n) && n > count
  }

  /** The candidates at the numbers of the message. */
  ghost predicate Selects(message: string, candidates: seq<Candidate>, made: Handling)
    requires made.Made?
  {
    && NoDup(made.ranks) && (forall n: nat :: n in made.ranks <==> Says(message, n))
    && |made.candidates| == |made.ids| == |made.ranks|
    && forall k :: 0 <= k < |made.ranks| ==>
         && 1 <= made.ranks[k] <= |candidates|
         && made.candidates[k] == candidates[made.ranks[k] - 1] && made.ids[k] == candidates[made.ranks[k] - 1].id
  }

  lemma {:induction false} MissingMember(candidates: seq<Candidate>, ranks: seq<nat>, n: nat)
    ensures n in MissingRanks(candidates, ranks) <==> n in ranks && ByRank(candidates, n) == None
    ensures NoDup(ranks) ==> NoDup(MissingRanks(candidates, ranks))
  {
    if ranks != [] {
      var k := |ranks| - 1;
      MissingMember(candidates, ranks[..k], n);
      MissingMember(candidates, ranks[..k], ranks[k]);
      assert ranks == ranks[..k] + [ranks[k]];
    }
  }

  ghost predicate Reads(message: string, parsed: Parsed) {
    match parsed
    case Unreadable(NoNumbers) => NoDigits(message)
    case Unreadable(NotOneBased) => Says(message, 0)
    case Unreadable(NotFound(_)) => false
    case Ranks(ranks) =>
      && !NoDigits(message) && !Says(message, 0) && NoDup(ranks)
      && forall n: nat :: n in ranks <==> Says(message, n)
  }

  lemma {:induction false} ParsedReads(message: string)
    ensures Reads(message, ParseRanks(message))
  {
    NothingSaid(message);
    DedupFacts(Numbers(message));
    forall n: nat ensures n in Dedup(Numbers(message)) <==> Says(message, n) { NumbersAreSaid(message, n); }
    if Numbers(message) != [] { assert Numbers(message)[0] in Dedup(Numbers(message)); }
  }

  ghost predicate Handles(message: string, candidates: seq<Candidate>, r: Handling) {
    match r
    case Declined(NoNumbers) => NoDigits(message)
    case Declined(NotOneBased) => Says(message, 0)
    case Declined(NotFound(ranks)) => !Says(message, 0) && ranks != [] && NotShown(message, |candidates|, ranks)
    case Made(_, _, _) => !NoDigits(message) && Selects(message, candidates, r)
  }

  /** Every message: no number, a zero, a number too large, or else the candidates it names. */
  lemma {:induction false} HandlingReads(message: string, candidates: seq<Candidate>)
    requires Numbered(candidates)
    ensures Handles(message, candidates, ResolveSelection(message, candidates))
  {
    ParsedReads(message);
    match ParseRanks(message)
    case Unreadable(_) =>
    case Ranks(ranks) =>
      RanksRead(message, candidates, ranks);
      if MissingRanks(candidates, ranks) == [] { MadeReads(message, candidates, ranks); }
  }

  lemma {:induction false} MadeReads(message: string, candidates: seq<Candidate>, ranks: seq<nat>)
    requires Reads(message, Ranks(ranks))
    requires forall k :: 0 <= k < |ranks| ==> 1 <= ranks[k] <= |candidates| && ByRank(candidates, ranks[k]) == Some(candidates[ranks[k] - 1])
    ensures var chosen := Chosen(candidates, ranks); Selects(message, candidates, Made(chosen, IdsOf(chosen), ranks))
  {}

  lemma {:induction false} RanksRead(message: string, candidates: seq<Candidate>, ranks: seq<nat>)
    requires Numbered(candidates) && NoDup(ranks) && !Says(message, 0)
    requires forall n: nat :: n in ranks <==> Says(message, n)
    ensures NotShown(message, |candidates|, MissingRanks(candidates, ranks))
    ensures MissingRanks(candidates, ranks) == [] ==>
      forall k :: 0 <= k < |ranks| ==> 1 <= ranks[k] <= |candidates| && ByRank(candidates, ranks[k]) == Some(candidates[ranks[k] - 1])
  {
    forall n: nat | n in ranks
      ensures n >= 1 && ByRank(candidates, n) == if n <= |candidates| then Some(candidates[n - 1]) else None
    {
      assert n != 0;
      ByRankNumbered(candidates, n);
    }
    forall n: nat ensures n in MissingRanks(candidates, ranks) <==> n in ranks && ByRank(candidates, n) == None {
      MissingMember(candidates, ranks, n);
    }
    MissingMember(candidates, ranks, 0);
    MissingRanksIff(candidates, ranks);
  }

  // ----- why a selection does not resolve -----

  /** The k-th candidate is the first that is not selected or has no URL. */
  ghost predicate FirstBad(records: Records, ids: seq<string>, k: int) {
    && (forall j :: 0 <= j < |ids| ==> ids[j] in records)
    && 0 <= k < |ids| && (records[ids[k]].status != Selected || IsBlank(records[ids[k]].url))
    && forall j :: 0 <= j < k ==> records[ids[j]].status == Selected && !IsBlank(records[ids[j]].url)
  }

  lemma {:induction false} MissingIdsMember(records: Records, ids: seq<string>, id: string)
    ensures id in MissingIds(records, ids) <==> id in ids && id !in records
  {
    if ids != [] {
      MissingIdsMember(records, ids[..|ids| - 1], id);
      assert ids == ids[..|ids| - 1] + [ids[|ids| - 1]];
    }
  }

  lemma {:induction false} ResolutionReads(records: Records, ids: seq<string>)
    ensures match ResolveStored(records, ids)
      case NothingSelected => ids == []
      case MissingRecords(missing) => missing != [] && forall id :: id in missing <==> id in ids && id !in records
      case NotReady(c) => exists k :: FirstBad(records, ids, k) && c == records[ids[k]] && c.status != Selected
      case MissingUrl(c) => exists k :: FirstBad(records, ids, k) && c == records[ids[k]] && c.status == Selected
      case Resolved(candidates) =>
        && ids != [] && |candidates| == |ids|
        && forall k :: 0 <= k < |ids| ==>
             ids[k] in records && candidates[k] == records[ids[k]] && candidates[k].status == Selected && !IsBlank(candidates[k].url)
  {
    forall id ensures id in MissingIds(records, ids) <==> id in ids && id !in records { MissingIdsMember(records, ids, id); }
    ResolvedIff(records, ids);
    MissingIdsIff(records, ids);
    if ids != [] && MissingIds(records, ids) == [] && !ResolveFrom(records, ids).Resolved? {
      ComplaintIsFirst(records, ids);
      var k: nat :| k < |ids| && FirstUnusable(records, ids, k) && ResolveFrom(records, ids) == Complaint(records[ids[k]]);
      assert FirstBad(records, ids, k);
    }
  }

  // ----- what the provider replied -----

  /** The results of the i-th query stand together, after those of the queries before it. */
  lemma {:induction false} GatheredParts(replies: Replies, i: nat)
    requires i < |replies|
    ensures Gathered(replies) == Gathered(replies[..i]) + (if replies[i].Some? then replies[i].value else []) + Gathered(replies[i + 1..])
  {
    var n := |replies| - 1;
    if i == n {
      assert replies[i + 1..] == [] && replies[..i] == replies[..n];
      assert Gathered(replies[i + 1..]) == [];
    } else {
      var rest := replies[i + 1..];
      GatheredParts(replies[..n], i);
      assert replies[..n][..i] == replies[..i] && replies[..n][i] == replies[i];
      assert replies[..n][i + 1..] == rest[..|rest| - 1] && rest[|rest| - 1] == replies[n];
    }
  }

  /** There is one warning for each query that failed, in order. */
  lemma {:induction false} WarningsRead(replies: Replies)
    ensures forall i :: i in FailedQueries(replies) <==> 0 <= i < |replies| && replies[i] == None
    ensures forall j, k :: 0 <= j < k < |FailedQueries(replies)| ==> FailedQueries(replies)[j] < FailedQueries(replies)[k]
  {
    if replies != [] {
      var n := |replies| - 1;
      WarningsRead(replies[..n]);
      assert forall i :: 0 <= i < n ==> replies[..n][i] == replies[i];
      var before := FailedQueries(replies[..n]);
      forall j | 0 <= j < |before| ensures before[j] < n { assert before[j] in before; }
    }
  }
}
