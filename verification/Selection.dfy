/** Selecting candidates by number (services/selection_parser.py) and resolving the selection
    (services/selected_candidate_resolver.py). */
module Selection {
  import opened Wrappers
  import opened Basics
  import opened Text
  import opened Sorting
  import opened Discovery

  // ----- numbers in text -----

  predicate NoDigits(s: string) { forall i :: 0 <= i < |s| ==> !IsDigit(s[i]) }

  /** re.findall(r"\d+", s), each read as a number */
  function Numbers(s: string): seq<nat>
    decreases |s|
  {
    if s == "" then []
    else if !IsDigit(s[0]) then Numbers(s[1..])
    else [Value(s[..RunLength(s, IsDigit)])] + Numbers(s[RunLength(s, IsDigit)..])
  }

  lemma {:induction false} NumbersSkip(pad: string, s: string)
    requires NoDigits(pad)
    ensures Numbers(pad + s) == Numbers(s)
  {
    if pad == "" {
      assert pad + s == s;
    } else {
      assert (pad + s)[1..] == pad[1..] + s;
      NumbersSkip(pad[1..], s);
    }
  }

  lemma {:induction false} RunLengthIs(digits: string, rest: string)
    requires AllDigits(digits) && (rest == "" || !IsDigit(rest[0]))
    ensures RunLength(digits + rest, IsDigit) == |digits|
  {
    var s := digits + rest;
    assert forall i :: 0 <= i < |digits| ==> s[i] == digits[i];
    assert rest != "" ==> s[|digits|] == rest[0];
  }

  lemma {:induction false} NumbersRead(digits: string, rest: string)
    requires digits != "" && AllDigits(digits) && (rest == "" || !IsDigit(rest[0]))
    ensures Numbers(digits + rest) == [Value(digits)] + Numbers(rest)
  {
    RunLengthIs(digits, rest);
    var s := digits + rest;
    assert s[..|digits|] == digits && s[|digits|..] == rest;
  }

  /** The ranks written out, each followed by its separator. */
  function Written(ranks: seq<nat>, separators: seq<string>): string
    requires |separators| == |ranks|
  {
    if ranks == [] then "" else Decimal(ranks[0]) + separators[0] + Written(ranks[1..], separators[1..])
  }

  /** Text without digits after each rank; it may be empty only after the last. */
  predicate Separating(separators: seq<string>) {
    && (forall i :: 0 <= i < |separators| ==> NoDigits(separators[i]))
    && (forall i :: 0 <= i < |separators| - 1 ==> separators[i] != "")
  }

  lemma {:induction false} NumbersCons(rank: nat, separator: string, rest: string)
    requires NoDigits(separator) && (separator != "" || rest == "")
    ensures Numbers(Decimal(rank) + separator + rest) == [rank] + Numbers(rest)
  {
    var tail := separator + rest;
    assert Decimal(rank) + separator + rest == Decimal(rank) + tail;
    NumbersRead(Decimal(rank), tail);
    ValueOfDecimal(rank);
    NumbersSkip(separator, rest);
  }

  lemma {:induction false} NumbersOfWritten(ranks: seq<nat>, separators: seq<string>)
    requires |separators| == |ranks| && Separating(separators)
    ensures Numbers(Written(ranks, separators)) == ranks
  {
    if ranks != [] {
      NumbersOfWritten(ranks[1..], separators[1..]);
      assert |ranks| == 1 ==> Written(ranks[1..], separators[1..]) == "";
      NumbersCons(ranks[0], separators[0], Written(ranks[1..], separators[1..]));
    }
  }

  datatype SelectionError = NoNumbers | NotOneBased | NotFound(ranks: seq<nat>)

  datatype Parsed = Ranks(ranks: seq<nat>) | Unreadable(error: SelectionError)

  /** `parse_selection_ranks` */
  function ParseRanks(message: string): Parsed {
    var ranks := Dedup(Numbers(message));
    if ranks == [] then Unreadable(NoNumbers)
    else if exists r :: r in ranks && r < 1 then Unreadable(NotOneBased)
    else Ranks(ranks)
  }

  /** Any list of positive numbers, written with text between them, before them and after them,
      is read back without its repetitions. */
  lemma {:induction false} RanksRoundTrip(before: string, ranks: seq<nat>, separators: seq<string>)
    requires NoDigits(before) && |separators| == |ranks| && Separating(separators)
    requires ranks != [] && forall r :: r in ranks ==> r >= 1
    ensures ParseRanks(before + Written(ranks, separators)) == Ranks(Dedup(ranks))
  {
    NumbersSkip(before, Written(ranks, separators));
    NumbersOfWritten(ranks, separators);
    DedupFacts(ranks);
    assert ranks[0] in ranks;
  }

  // ----- from numbers to candidates -----

  /** candidates_by_rank[rank] */
  function ByRank(candidates: seq<Candidate>, rank: nat): Option<Candidate> {
    if candidates == [] then None
    else if candidates[|candidates| - 1].displayRank == rank then Some(candidates[|candidates| - 1])
    else ByRank(candidates[..|candidates| - 1], rank)
  }

  function MissingRanks(candidates: seq<Candidate>, ranks: seq<nat>): seq<nat> {
    if ranks == [] then []
    else
      var rank := ranks[|ranks| - 1];
      MissingRanks(candidates, ranks[..|ranks| - 1]) + if ByRank(candidates, rank) == None then [rank] else []
  }

  lemma {:induction false} MissingRanksIff(candidates: seq<Candidate>, ranks: seq<nat>)
    ensures MissingRanks(candidates, ranks) == [] <==> forall i :: 0 <= i < |ranks| ==> ByRank(candidates, ranks[i]).Some?
  {
    if ranks != [] {
      var n := |ranks| - 1;
      MissingRanksIff(candidates, ranks[..n]);
      if ByRank(candidates, ranks[n]).Some? {
        assert MissingRanks(candidates, ranks) == MissingRanks(candidates, ranks[..n]);
      } else {
        assert MissingRanks(candidates, ranks) == MissingRanks(candidates, ranks[..n]) + [ranks[n]];
      }
    }
  }

  function Chosen(candidates: seq<Candidate>, ranks: seq<nat>): (r: seq<Candidate>)
    requires forall i :: 0 <= i < |ranks| ==> ByRank(candidates, ranks[i]).Some?
    ensures |r| == |ranks|
    ensures forall i :: 0 <= i < |r| ==> r[i] == ByRank(candidates, ranks[i]).value
  {
    seq(|ranks|, i requires 0 <= i < |ranks| => ByRank(candidates, ranks[i]).value)
  }

  function IdsOf(candidates: seq<Candidate>): (r: seq<string>)
    ensures |r| == |candidates|
    ensures forall i :: 0 <= i < |r| ==> r[i] == candidates[i].id
  {
    seq(|candidates|, i requires 0 <= i < |candidates| => candidates[i].id)
  }

  datatype Handling =
    | Made(candidates: seq<Candidate>, ids: seq<string>, ranks: seq<nat>)
    | Declined(error: SelectionError)

  /** `resolve_selection` */
  function ResolveSelection(message: string, candidates: seq<Candidate>): Handling {
    match ParseRanks(message)
    case Unreadable(error) => Declined(error)
    case Ranks(ranks) =>
      var missing := MissingRanks(candidates, ranks);
      if missing != [] then Declined(NotFound(missing))
      else
        MissingRanksIff(candidates, ranks);
        var chosen := Chosen(candidates, ranks);
        Made(chosen, IdsOf(chosen), ranks)
  }

  /** The list shows ranks 1 to n, as a search leaves it. */
  predicate Numbered(candidates: seq<Candidate>) {
    forall i :: 0 <= i < |candidates| ==> candidates[i].displayRank == i + 1
  }

  lemma {:induction false} ByRankNumbered(candidates: seq<Candidate>, rank: nat)
    requires Numbered(candidates) && 1 <= rank
    ensures ByRank(candidates, rank) == if rank <= |candidates| then Some(candidates[rank - 1]) else None
  {
    if candidates != [] { ByRankNumbered(candidates[..|candidates| - 1], rank); }
  }

  predicate InRange(ranks: seq<nat>, n: nat) {
    forall i :: 0 <= i < |ranks| ==> 1 <= ranks[i] <= n
  }

  function AtRanks(candidates: seq<Candidate>, ranks: seq<nat>): (r: seq<Candidate>)
    requires InRange(ranks, |candidates|)
    ensures |r| == |ranks|
    ensures forall i :: 0 <= i < |r| ==> r[i] == candidates[ranks[i] - 1]
  {
    seq(|ranks|, i requires 0 <= i < |ranks| => candidates[ranks[i] - 1])
  }

  lemma {:induction false} ChosenNumbered(candidates: seq<Candidate>, ranks: seq<nat>)
    requires Numbered(candidates) && InRange(ranks, |candidates|)
    ensures MissingRanks(candidates, ranks) == []
    ensures forall i :: 0 <= i < |ranks| ==> ByRank(candidates, ranks[i]) == Some(candidates[ranks[i] - 1])
    ensures Chosen(candidates, ranks) == AtRanks(candidates, ranks)
  {
    forall i | 0 <= i < |ranks| ensures ByRank(candidates, ranks[i]) == Some(candidates[ranks[i] - 1]) {
      ByRankNumbered(candidates, ranks[i]);
    }
    MissingRanksIff(candidates, ranks);
  }

  lemma {:induction false} DedupInRange(ranks: seq<nat>, n: nat)
    requires InRange(ranks, n)
    ensures InRange(Dedup(ranks), n)
  {
    DedupFacts(ranks);
    forall i | 0 <= i < |Dedup(ranks)| ensures 1 <= Dedup(ranks)[i] <= n { assert Dedup(ranks)[i] in ranks; }
  }

  /** Valid numbers, however they are written, select exactly those candidates, in the order
      they are first named. */
  lemma {:induction false} NumbersSelect(candidates: seq<Candidate>, before: string, ranks: seq<nat>, separators: seq<string>)
    requires NoDigits(before) && |separators| == |ranks| && Separating(separators)
    requires Numbered(candidates) && ranks != [] && InRange(ranks, |candidates|)
    ensures InRange(Dedup(ranks), |candidates|)
    ensures ResolveSelection(before + Written(ranks, separators), candidates)
      == var chosen := AtRanks(candidates, Dedup(ranks)); Made(chosen, IdsOf(chosen), Dedup(ranks))
  {
    RanksRoundTrip(before, ranks, separators);
    DedupInRange(ranks, |candidates|);
    ChosenNumbered(candidates, Dedup(ranks));
  }

  // ----- the stored selection -----

  type Records = map<string, Candidate>

  function MarkSelected(records: Records, ids: seq<string>): Records {
    map id | id in records :: if id in ids then records[id].(status := Selected) else records[id]
  }

  lemma {:induction false} MarkNone(records: Records)
    ensures MarkSelected(records, []) == records
  {}

  lemma {:induction false} MarkOne(records: Records, ids: seq<string>, n: nat)
    requires n < |ids|
    ensures var marked := MarkSelected(records, ids[..n]);
      MarkSelected(records, ids[..n + 1])
        == if ids[n] in marked then marked[ids[n] := marked[ids[n]].(status := Selected)] else marked
  {
    assert ids[..n + 1] == ids[..n] + [ids[n]];
  }

  datatype Resolution =
    | Resolved(candidates: seq<Candidate>)
    | NothingSelected
    | MissingRecords(ids: seq<string>)
    | NotReady(candidate: Candidate)
    | MissingUrl(candidate: Candidate)

  function MissingIds(records: Records, ids: seq<string>): seq<string> {
    if ids == [] then []
    else MissingIds(records, ids[..|ids| - 1]) + if ids[|ids| - 1] !in records then [ids[|ids| - 1]] else []
  }

  lemma {:induction false} MissingIdsIff(records: Records, ids: seq<string>)
    ensures MissingIds(records, ids) == [] <==> forall i :: 0 <= i < |ids| ==> ids[i] in records
  {
    if ids != [] {
      var n := |ids| - 1;
      MissingIdsIff(records, ids[..n]);
      if ids[n] in records {
        assert MissingIds(records, ids) == MissingIds(records, ids[..n]);
      } else {
        assert MissingIds(records, ids) == MissingIds(records, ids[..n]) + [ids[n]];
      }
    }
  }

  predicate Usable(c: Candidate) { c.status == Selected && !IsBlank(c.url) }

  function Complaint(c: Candidate): Resolution
    requires !Usable(c)
  {
    if c.status != Selected then NotReady(c) else MissingUrl(c)
  }

  /** The stored candidates of some ids, or the complaint about the first that cannot be used. */
  function ResolveFrom(records: Records, ids: seq<string>): Resolution
    requires forall i :: 0 <= i < |ids| ==> ids[i] in records
  {
    if ids == [] then Resolved([])
    else
      var before := ResolveFrom(records, ids[..|ids| - 1]);
      var c := records[ids[|ids| - 1]];
      if !before.Resolved? then before
      else if !Usable(c) then Complaint(c)
      else Resolved(before.candidates + [c])
  }

  function ResolveStored(records: Records, ids: seq<string>): Resolution {
    if ids == [] then NothingSelected
    else if MissingIds(records, ids) != [] then MissingRecords(MissingIds(records, ids))
    else
      MissingIdsIff(records, ids);
      ResolveFrom(records, ids)
  }

  lemma {:induction false} ResolveFromIff(records: Records, ids: seq<string>)
    requires forall i :: 0 <= i < |ids| ==> ids[i] in records
    ensures var r := ResolveFrom(records, ids);
      && (r.Resolved? <==> forall i :: 0 <= i < |ids| ==> Usable(records[ids[i]]))
      && (r.Resolved? ==> |r.candidates| == |ids| && forall i :: 0 <= i < |ids| ==> r.candidates[i] == records[ids[i]])
  {
    if ids != [] { ResolveFromIff(records, ids[..|ids| - 1]); }
  }

  /** The complaint is about the first candidate that cannot be used. */
  lemma {:induction false} ComplaintIsFirst(records: Records, ids: seq<string>)
    requires forall i :: 0 <= i < |ids| ==> ids[i] in records
    requires !ResolveFrom(records, ids).Resolved?
    ensures exists i: nat :: i < |ids| && FirstUnusable(records, ids, i) && ResolveFrom(records, ids) == Complaint(records[ids[i]])
  {
    var n := |ids| - 1;
    var before := ResolveFrom(records, ids[..n]);
    if before.Resolved? {
      ResolveFromIff(records, ids[..n]);
      assert forall j :: 0 <= j < n ==> ids[..n][j] == ids[j];
      assert FirstUnusable(records, ids, n);
    } else {
      ComplaintIsFirst(records, ids[..n]);
      var i: nat :| i < n && FirstUnusable(records, ids[..n], i) && before == Complaint(records[ids[..n][i]]);
      assert forall j :: 0 <= j <= i ==> ids[..n][j] == ids[j];
      assert FirstUnusable(records, ids, i);
    }
  }

  predicate FirstUnusable(records: Records, ids: seq<string>, i: nat)
    requires i < |ids| && forall j :: 0 <= j < |ids| ==> ids[j] in records
  {
    !Usable(records[ids[i]]) && forall j :: 0 <= j < i ==> Usable(records[ids[j]])
  }

  /** A selection resolves exactly when it is not empty and every id is stored and usable; the
      candidates are then the stored ones, in order. */
  lemma {:induction false} ResolvedIff(records: Records, ids: seq<string>)
    ensures var r := ResolveStored(records, ids);
      && (r.Resolved? <==> ids != [] && forall i :: 0 <= i < |ids| ==> ids[i] in records && Usable(records[ids[i]]))
      && (r.Resolved? ==> |r.candidates| == |ids|)
      && (r.Resolved? ==> forall i :: 0 <= i < |ids| ==> ids[i] in records && r.candidates[i] == records[ids[i]])
  {
    MissingIdsIff(records, ids);
    if MissingIds(records, ids) == [] { ResolveFromIff(records, ids); }
  }

  function PutAll(records: Records, candidates: seq<Candidate>): Records {
    if candidates == [] then records
    else
      var c := candidates[|candidates| - 1];
      PutAll(records, candidates[..|candidates| - 1])[c.id := c]
  }

  lemma {:induction false} PutAllSnoc(records: Records, candidates: seq<Candidate>, n: nat)
    requires n < |candidates|
    ensures PutAll(records, candidates[..n + 1]) == PutAll(records, candidates[..n])[candidates[n].id := candidates[n]]
    ensures IdsOf(candidates)[..n + 1] == IdsOf(candidates)[..n] + [candidates[n].id]
  {
    assert candidates[..n + 1][..n] == candidates[..n];
  }

  lemma {:induction false} PutAllFinds(records: Records, candidates: seq<Candidate>, i: nat)
    requires i < |candidates| && NoDup(IdsOf(candidates))
    ensures candidates[i].id in PutAll(records, candidates)
    ensures PutAll(records, candidates)[candidates[i].id] == candidates[i]
  {
    var n := |candidates| - 1;
    if i < n {
      assert IdsOf(candidates[..n]) == IdsOf(candidates)[..n];
      PutAllFinds(records, candidates[..n], i);
      assert IdsOf(candidates)[i] != IdsOf(candidates)[n];
    }
  }

  lemma {:induction false} PutAllSpares(records: Records, candidates: seq<Candidate>, id: string)
    requires id !in IdsOf(candidates)
    ensures id in PutAll(records, candidates) <==> id in records
    ensures id in records ==> PutAll(records, candidates)[id] == records[id]
  {
    if candidates != [] {
      var n := |candidates| - 1;
      assert IdsOf(candidates) == IdsOf(candidates[..n]) + [candidates[n].id];
      PutAllSpares(records, candidates[..n], id);
    }
  }

  /** Storing candidates with distinct ids keeps each of them, and every other record. */
  lemma {:induction false} PutAllFacts(records: Records, candidates: seq<Candidate>)
    requires NoDup(IdsOf(candidates))
    ensures var after := PutAll(records, candidates);
      && (forall i :: 0 <= i < |candidates| ==> candidates[i].id in after && after[candidates[i].id] == candidates[i])
      && (forall id :: id !in IdsOf(candidates) ==> (id in after <==> id in records))
      && (forall id :: id !in IdsOf(candidates) && id in records ==> after[id] == records[id])
  {
    var after := PutAll(records, candidates);
    forall i: nat | i < |candidates| ensures candidates[i].id in after && after[candidates[i].id] == candidates[i] {
      PutAllFinds(records, candidates, i);
    }
    forall id | id !in IdsOf(candidates)
      ensures (id in after <==> id in records) && (id in records ==> after[id] == records[id])
    {
      PutAllSpares(records, candidates, id);
    }
  }

  class SelectionDesk {
    var records: Records
    var latest: seq<string>
    var selectedIds: seq<string>

    /** Records are stored under their id; the listed ones exist, once each. */
    ghost predicate Valid()
      reads this
    {
      && (forall id :: id in records ==> records[id].id == id && !IsBlank(records[id].url))
      && NoDup(latest) && (forall i :: 0 <= i < |latest| ==> latest[i] in records)
    }

    constructor ()
      ensures Valid() && records == map[] && latest == [] && selectedIds == []
    {
      records, latest, selectedIds := map[], [], [];
    }

    /** The candidates of the latest search, in rank order. */
    function Listing(): (r: seq<Candidate>)
      requires forall i :: 0 <= i < |latest| ==> latest[i] in records
      reads this
      ensures |r| == |latest|
      ensures forall i :: 0 <= i < |r| ==> r[i] == records[latest[i]]
    {
      seq(|latest|, i requires 0 <= i < |latest| && latest[i] in records reads this => records[latest[i]])
    }

    /** Store the candidates of a new search; one that found nothing leaves the previous list. */
    method UpsertMany(candidates: seq<Candidate>)
      requires Valid() && NoDup(IdsOf(candidates))
      requires forall i :: 0 <= i < |candidates| ==> !IsBlank(candidates[i].url)
      modifies this
      ensures Valid() && selectedIds == old(selectedIds)
      ensures Listing() == if candidates == [] then old(Listing()) else candidates
      ensures records == PutAll(old(records), candidates)
    {
      if candidates == [] {
        return;
      }
      latest := [];
      var n := 0;
      while n < |candidates|
        invariant 0 <= n <= |candidates|
        invariant latest == IdsOf(candidates)[..n] && selectedIds == old(selectedIds)
        invariant records == PutAll(old(records), candidates[..n])
      {
        PutAllSnoc(old(records), candidates, n);
        records := records[candidates[n].id := candidates[n]];
        latest := latest + [candidates[n].id];
        n := n + 1;
      }
      assert candidates[..n] == candidates;
      assert IdsOf(candidates)[..n] == IdsOf(candidates);
      PutAllFacts(old(records), candidates);
    }

    /** Mark the records of some ids as selected, one by one; unknown ids are passed over. */
    method UpdateStatuses(ids: seq<string>)
      requires Valid()
      modifies this`records
      ensures Valid() && records == MarkSelected(old(records), ids)
    {
      var n := 0;
      MarkNone(records);
      while n < |ids|
        invariant 0 <= n <= |ids|
        invariant records == MarkSelected(old(records), ids[..n])
      {
        MarkOne(old(records), ids, n);
        if ids[n] in records {
          records := records[ids[n] := records[ids[n]].(status := Selected)];
        }
        n := n + 1;
      }
      assert ids[..n] == ids;
    }

    /** `SelectionHandler.handle`: a refused message changes nothing; otherwise the chosen
        records become selected and the session holds their ids, once each. */
    method Handle(message: string) returns (r: Handling)
      requires Valid()
      modifies this
      ensures Valid() && latest == old(latest)
      ensures r == ResolveSelection(message, old(Listing()))
      ensures r.Declined? ==> records == old(records) && selectedIds == old(selectedIds)
      ensures r.Made? ==> records == MarkSelected(old(records), r.ids) && selectedIds == Dedup(r.ids)
    {
      r := ResolveSelection(message, Listing());
      if r.Made? {
        UpdateStatuses(r.ids);
        selectedIds := Dedup(r.ids);
      }
    }

    /** `SelectedCandidateResolver.resolve` */
    method Resolve() returns (r: Resolution)
      ensures r == ResolveStored(records, selectedIds)
    {
      if selectedIds == [] {
        return NothingSelected;
      }
      MissingIdsIff(records, selectedIds);
      if MissingIds(records, selectedIds) != [] {
        return MissingRecords(MissingIds(records, selectedIds));
      }
      r := Resolved([]);
      var n := 0;
      while n < |selectedIds| && r.Resolved?
        invariant 0 <= n <= |selectedIds|
        invariant r == ResolveFrom(records, selectedIds[..n])
      {
        var c := records[selectedIds[n]];
        assert selectedIds[..n + 1][..n] == selectedIds[..n];
        if c.status != Selected {
          r := NotReady(c);
        } else if IsBlank(c.url) {
          r := MissingUrl(c);
        } else {
          r := Resolved(r.candidates + [c]);
        }
        n := n + 1;
      }
      ResolveStops(records, selectedIds, n);
      assert selectedIds[..|selectedIds|] == selectedIds;
    }
  }

  /** Once a candidate is refused, the rest of the list changes nothing. */
  lemma {:induction false} ResolveStops(records: Records, ids: seq<string>, n: nat)
    requires n <= |ids| && forall i :: 0 <= i < |ids| ==> ids[i] in records
    ensures !ResolveFrom(records, ids[..n]).Resolved? ==> ResolveFrom(records, ids) == ResolveFrom(records, ids[..n])
    decreases |ids|
  {
    if n < |ids| {
      var m := |ids| - 1;
      ResolveStops(records, ids[..m], n);
      assert ids[..m][..n] == ids[..n];
    } else {
      assert ids[..n] == ids;
    }
  }

  // ----- end to end -----

  lemma {:induction false} ChosenIdsDistinct(candidates: seq<Candidate>, ranks: seq<nat>)
    requires InRange(ranks, |candidates|) && NoDup(ranks) && NoDup(IdsOf(candidates))
    ensures NoDup(IdsOf(AtRanks(candidates, ranks)))
  {
    var ids := IdsOf(AtRanks(candidates, ranks));
    forall i, j | 0 <= i < j < |ids| ensures ids[i] != ids[j] {
      assert ranks[i] != ranks[j];
      assert IdsOf(candidates)[ranks[i] - 1] != IdsOf(candidates)[ranks[j] - 1];
    }
  }

  lemma {:induction false} MarkedRecords(records: Records, listing: seq<Candidate>, ranks: seq<nat>, ids: seq<string>)
    requires InRange(ranks, |listing|) && ids == IdsOf(AtRanks(listing, ranks))
    requires forall j :: 0 <= j < |listing| ==> listing[j].id in records && records[listing[j].id] == listing[j]
    ensures forall i :: 0 <= i < |ids| ==> ids[i] in records
    ensures forall i :: 0 <= i < |ids| ==> MarkSelected(records, ids)[ids[i]] == listing[ranks[i] - 1].(status := Selected)
  {
    forall i | 0 <= i < |ids|
      ensures ids[i] in records && MarkSelected(records, ids)[ids[i]] == listing[ranks[i] - 1].(status := Selected)
    {
      assert ids[i] == listing[ranks[i] - 1].id && ids[i] in ids;
    }
  }

  /** The resolution holds the candidates at these ranks, in this order, marked as selected. */
  predicate PicksOut(r: Resolution, listing: seq<Candidate>, ranks: seq<nat>) {
    && InRange(ranks, |listing|) && r.Resolved? && |r.candidates| == |ranks|
    && forall i :: 0 <= i < |ranks| ==> r.candidates[i] == listing[ranks[i] - 1].(status := Selected)
  }

  predicate StoredListing(records: Records, listing: seq<Candidate>) {
    forall j :: 0 <= j < |listing| ==>
      listing[j].id in records && records[listing[j].id] == listing[j] && !IsBlank(listing[j].url)
  }

  /** Once the chosen candidates of a stored list are marked, their ids resolve to them. */
  lemma {:induction false} MarkedResolve(records: Records, listing: seq<Candidate>, ranks: seq<nat>)
    requires ranks != [] && InRange(ranks, |listing|) && NoDup(ranks)
    requires NoDup(IdsOf(listing)) && StoredListing(records, listing)
    ensures var ids := IdsOf(AtRanks(listing, ranks));
      PicksOut(ResolveStored(MarkSelected(records, ids), Dedup(ids)), listing, ranks)
  {
    var ids := IdsOf(AtRanks(listing, ranks));
    ChosenIdsDistinct(listing, ranks);
    DedupOfDistinct(ids);
    MarkedRecords(records, listing, ranks, ids);
    ResolvedIff(MarkSelected(records, ids), ids);
  }

  /** What handling and then resolving a message with valid numbers comes to. */
  lemma {:induction false} SelectionResolves(
    records: Records, listing: seq<Candidate>, before: string, ranks: seq<nat>, separators: seq<string>)
    requires NoDigits(before) && |separators| == |ranks| && Separating(separators)
    requires Numbered(listing) && ranks != [] && InRange(ranks, |listing|)
    requires NoDup(IdsOf(listing)) && StoredListing(records, listing)
    ensures var handled := ResolveSelection(before + Written(ranks, separators), listing);
      handled.Made? && PicksOut(ResolveStored(MarkSelected(records, handled.ids), Dedup(handled.ids)), listing, Dedup(ranks))
  {
    NumbersSelect(listing, before, ranks, separators);
    DedupFacts(ranks);
    MarkedResolve(records, listing, Dedup(ranks));
  }

  /** Valid numbers written into any text resolve to exactly those candidates of the list, in
      the order first named, without repetition, now marked as selected. */
  method SelectAndResolve(desk: SelectionDesk, before: string, ranks: seq<nat>, separators: seq<string>)
    returns (r: Resolution)
    requires desk.Valid() && Numbered(desk.Listing())
    requires NoDigits(before) && |separators| == |ranks| && Separating(separators)
    requires ranks != [] && InRange(ranks, |desk.Listing()|)
    modifies desk
    ensures desk.Valid() && PicksOut(r, old(desk.Listing()), Dedup(ranks))
  {
    ghost var listing := desk.Listing();
    assert IdsOf(listing) == desk.latest;
    SelectionResolves(desk.records, listing, before, ranks, separators);
    var _ := desk.Handle(before + Written(ranks, separators));
    r := desk.Resolve();
  }

  lemma {:induction false} DedupedMember(k: Ranking, raw: seq<RawResult>, r: RawResult)
    requires r in Sort(Deduped(k, raw), Order(k))
    ensures r in raw
  {
    OrderIsTotal(k);
    SortMembers(Deduped(k, raw), Order(k), r);
    KeptInRange(k, raw);
  }

  lemma {:induction false} RankedUrl(k: Ranking, raw: seq<RawResult>, limit: nat, turnId: string, newId: nat -> string, i: nat)
    requires i < |Ranked(k, raw, limit, turnId, newId)|
    ensures exists r :: r in raw && Ranked(k, raw, limit, turnId, newId)[i] == CandidateOf(k, r, turnId, i + 1, newId(i))
  {
    var r := Sort(Deduped(k, raw), Order(k))[i];
    DedupedMember(k, raw, r);
  }

  lemma {:induction false} RankedFacts(k: Ranking, raw: seq<RawResult>, limit: nat, turnId: string, newId: nat -> string)
    requires forall i: nat, j: nat :: newId(i) == newId(j) ==> i == j
    requires forall r :: r in raw ==> !IsBlank(r.url)
    ensures var top := Ranked(k, raw, limit, turnId, newId);
      && NoDup(IdsOf(top)) && Numbered(top) && forall i :: 0 <= i < |top| ==> !IsBlank(top[i].url)
  {
    var top := Ranked(k, raw, limit, turnId, newId);
    forall i: nat | i < |top| ensures !IsBlank(top[i].url) && top[i].id == newId(i) && top[i].displayRank == i + 1 {
      RankedUrl(k, raw, limit, turnId, newId, i);
      var r :| r in raw && top[i] == CandidateOf(k, r, turnId, i + 1, newId(i));
      StripOfInk(r.url);
    }
  }

  /** From the provider's replies to the resolved selection: numbers pick from the ranked,
      duplicate-free results of the search. */
  method DiscoverSelectResolve(k: Ranking, replies: Replies, limit: nat, turnId: string, newId: nat -> string,
                               desk: SelectionDesk, before: string, ranks: seq<nat>, separators: seq<string>)
    returns (r: Resolution)
    requires limit >= 1 && desk.Valid()
    requires forall i: nat, j: nat :: newId(i) == newId(j) ==> i == j
    requires forall r :: r in Gathered(replies) ==> !IsBlank(r.url)
    requires NoDigits(before) && |separators| == |ranks| && Separating(separators)
    requires ranks != [] && InRange(ranks, Min(limit, |Deduped(k, Gathered(replies))|))
    modifies desk
    ensures desk.Valid() && PicksOut(r, Ranked(k, Gathered(replies), limit, turnId, newId), Dedup(ranks))
  {
    RankedFacts(k, Gathered(replies), limit, turnId, newId);
    var candidates, _ := Search(k, replies, limit, turnId, newId);
    assert 1 <= ranks[0] <= |candidates|;
    desk.UpsertMany(candidates);
    assert desk.Listing() == candidates;
    r := SelectAndResolve(desk, before, ranks, separators);
  }
}
