/** The recommendations of a comparison report (agents/comparator.py:569-626): a model's list,
    cleaned, one for each constraint, and cut. */
module Recommendations {
  import opened Wrappers
  import opened Text
  import Names

  const MAX_RECOMMENDATIONS: nat := 5

  /** An item of the model's list: not an object, or its fields as strings, and its paper index
      where int() accepts one. */
  datatype RawItem = NotAnObject | Fields(paperIndex: Option<int>, constraint: string, reasoning: string)

  datatype Recommendation = Recommendation(constraint: string, paperIndex: int, reasoning: string)

  function ConstraintAlias(s: string): Option<string> {
    if s == "highest accuracy" || s == "top accuracy" then Some("best accuracy")
    else if s == "best reasoning prototype" || s == "strongest reasoning prototype" || s == "best prototype for reasoning"
    then Some("best prototype for reasoning quality")
    else if s == "best benchmark" || s == "best benchmarks" then Some("best benchmark evidence")
    else if s == "easiest deployment" || s == "deployment ease" then Some("easiest to deploy")
    else None
  }

  function NormalizeConstraint(value: string): string {
    var n := Names.NormalizeName(value);
    Names.Or(ConstraintAlias(n), n)
  }

  /** What an item recommends, if it has an index. */
  function Read(item: RawItem): Option<Recommendation> {
    if item.NotAnObject? || item.paperIndex == None then None
    else Some(Recommendation(NormalizeConstraint(Strip(item.constraint)), item.paperIndex.value, Strip(item.reasoning)))
  }

  function ReadAll(raw: seq<RawItem>): (r: seq<Option<Recommendation>>)
    ensures |r| == |raw|
    ensures forall i :: 0 <= i < |r| ==> r[i] == Read(raw[i])
  {
    seq(|raw|, i requires 0 <= i < |raw| => Read(raw[i]))
  }

  /** It recommends one of the papers, for some constraint and with a reason. */
  predicate Accepted(item: Option<Recommendation>, valid: set<int>) {
    item.Some? && item.value.paperIndex in valid && item.value.constraint != "" && item.value.reasoning != ""
  }

  predicate Covers(rs: seq<Recommendation>, constraint: string) {
    exists i :: 0 <= i < |rs| && rs[i].constraint == constraint
  }

  function KeepIfNew(rs: seq<Recommendation>, item: Option<Recommendation>, valid: set<int>): seq<Recommendation> {
    if Accepted(item, valid) && !Covers(rs, item.value.constraint) then rs + [item.value] else rs
  }

  /** The accepted items, without those whose constraint came before. */
  function Kept(items: seq<Option<Recommendation>>, valid: set<int>): seq<Recommendation> {
    if items == [] then [] else KeepIfNew(Kept(items[..|items| - 1], valid), items[|items| - 1], valid)
  }

  function Taken(items: seq<Option<Recommendation>>, valid: set<int>): seq<Recommendation> {
    var kept := Kept(items, valid);
    if |kept| <= MAX_RECOMMENDATIONS then kept else kept[..MAX_RECOMMENDATIONS]
  }

  lemma {:induction false} KeptSnoc(items: seq<Option<Recommendation>>, valid: set<int>, n: nat)
    requires n < |items|
    ensures Kept(items[..n + 1], valid) == KeepIfNew(Kept(items[..n], valid), items[n], valid)
  {
    assert items[..n + 1][..n] == items[..n];
  }

  lemma {:induction false} KeptGrows(items: seq<Option<Recommendation>>, valid: set<int>, n: nat)
    requires n <= |items|
    ensures Kept(items[..n], valid) <= Kept(items, valid)
    decreases |items| - n
  {
    if n < |items| {
      KeptSnoc(items, valid, n);
      KeptGrows(items, valid, n + 1);
    } else {
      assert items[..n] == items;
    }
  }

  /** `_normalize_recommendations`, with its set of seen constraints and its limit. */
  method NormalizeRecommendations(raw: seq<RawItem>, valid: set<int>) returns (rs: seq<Recommendation>)
    ensures rs == Taken(ReadAll(raw), valid)
  {
    rs := Select(ReadAll(raw), valid);
  }

  /** The loop over what the items recommend. */
  method Select(items: seq<Option<Recommendation>>, valid: set<int>) returns (rs: seq<Recommendation>)
    ensures rs == Taken(items, valid)
  {
    rs := [];
    var seen: set<string> := {};
    var n := 0;
    while n < |items|
      invariant 0 <= n <= |items| && |rs| < MAX_RECOMMENDATIONS
      invariant rs == Kept(items[..n], valid)
      invariant forall c :: c in seen <==> Covers(rs, c)
    {
      KeptSnoc(items, valid, n);
      var r := items[n];
      n := n + 1;
      if r == None || r.value.paperIndex !in valid {
        continue;
      }
      if r.value.constraint == "" || r.value.reasoning == "" || r.value.constraint in seen {
        continue;
      }
      CoversSnoc(rs, r.value);
      rs := rs + [r.value];
      seen := seen + {r.value.constraint};
      if |rs| >= MAX_RECOMMENDATIONS {
        KeptGrows(items, valid, n);
        return;
      }
    }
    assert items[..n] == items;
  }

  lemma {:induction false} CoversSnoc(rs: seq<Recommendation>, r: Recommendation)
    ensures forall c :: Covers(rs + [r], c) <==> Covers(rs, c) || c == r.constraint
  {
    forall c ensures Covers(rs + [r], c) <==> Covers(rs, c) || c == r.constraint {
      var all := rs + [r];
      assert all[|rs|] == r && forall i :: 0 <= i < |rs| ==> all[i] == rs[i];
    }
  }

  /** Item i is accepted and for this constraint. */
  predicate AcceptedFor(items: seq<Option<Recommendation>>, valid: set<int>, i: int, constraint: string) {
    0 <= i < |items| && Accepted(items[i], valid) && items[i].value.constraint == constraint
  }

  /** Item i is the first accepted one for its constraint. */
  predicate FirstFor(items: seq<Option<Recommendation>>, valid: set<int>, i: int) {
    0 <= i < |items| && Accepted(items[i], valid)
    && forall j :: 0 <= j < i ==> !AcceptedFor(items, valid, j, items[i].value.constraint)
  }

  predicate FirstIs(items: seq<Option<Recommendation>>, valid: set<int>, i: int, r: Recommendation) {
    FirstFor(items, valid, i) && items[i].value == r
  }

  lemma {:induction false} CoversIff(items: seq<Option<Recommendation>>, valid: set<int>, constraint: string)
    ensures Covers(Kept(items, valid), constraint) <==> exists i :: AcceptedFor(items, valid, i, constraint)
  {
    if items != [] {
      var n := |items| - 1;
      CoversIff(items[..n], valid, constraint);
      AcceptedSnoc(items, valid, n, constraint);
      if Accepted(items[n], valid) { CoversSnoc(Kept(items[..n], valid), items[n].value); }
    }
  }

  lemma {:induction false} AcceptedSnoc(items: seq<Option<Recommendation>>, valid: set<int>, n: nat, constraint: string)
    requires n + 1 == |items|
    ensures (exists i :: AcceptedFor(items, valid, i, constraint))
      <==> (exists i :: AcceptedFor(items[..n], valid, i, constraint)) || AcceptedFor(items, valid, n, constraint)
  {
    forall i ensures AcceptedFor(items[..n], valid, i, constraint) <==> i < n && AcceptedFor(items, valid, i, constraint) {
      if 0 <= i < n { assert items[..n][i] == items[i]; }
    }
  }

  lemma {:induction false} FirstSnoc(items: seq<Option<Recommendation>>, valid: set<int>, n: nat)
    requires n + 1 == |items|
    ensures forall i :: i != n ==> (FirstFor(items[..n], valid, i) <==> FirstFor(items, valid, i))
    ensures FirstFor(items, valid, n) <==> Accepted(items[n], valid) && !Covers(Kept(items[..n], valid), items[n].value.constraint)
  {
    var before := items[..n];
    assert forall i :: 0 <= i < n ==> before[i] == items[i];
    assert forall i, c :: 0 <= i < n ==> (AcceptedFor(before, valid, i, c) <==> AcceptedFor(items, valid, i, c));
    if Accepted(items[n], valid) { CoversIff(before, valid, items[n].value.constraint); }
  }

  /** Kept are exactly the first accepted items of the constraints. */
  lemma {:induction false} KeptIff(items: seq<Option<Recommendation>>, valid: set<int>, r: Recommendation)
    ensures r in Kept(items, valid) <==> exists i :: FirstIs(items, valid, i, r)
  {
    if items != [] {
      var n := |items| - 1;
      KeptIff(items[..n], valid, r);
      FirstSnoc(items, valid, n);
      FirstIsSnoc(items, valid, n, r);
    }
  }

  lemma {:induction false} FirstIsSnoc(items: seq<Option<Recommendation>>, valid: set<int>, n: nat, r: Recommendation)
    requires n + 1 == |items|
    ensures (exists i :: FirstIs(items, valid, i, r)) <==> (exists i :: FirstIs(items[..n], valid, i, r)) || FirstIs(items, valid, n, r)
  {
    FirstSnoc(items, valid, n);
    forall i ensures FirstIs(items[..n], valid, i, r) <==> i < n && FirstIs(items, valid, i, r) {
      if 0 <= i < n { assert items[..n][i] == items[i]; }
    }
  }

  /** No constraint is recommended for twice, and every recommendation is for a valid paper. */
  predicate Sound(rs: seq<Recommendation>, valid: set<int>) {
    && (forall i, j :: 0 <= i < j < |rs| ==> rs[i].constraint != rs[j].constraint)
    && (forall i :: 0 <= i < |rs| ==> Accepted(Some(rs[i]), valid))
  }

  lemma {:induction false} SoundSnoc(rs: seq<Recommendation>, r: Recommendation, valid: set<int>)
    requires Sound(rs, valid) && Accepted(Some(r), valid) && !Covers(rs, r.constraint)
    ensures Sound(rs + [r], valid)
  {}

  lemma {:induction false} KeptAreSound(items: seq<Option<Recommendation>>, valid: set<int>)
    ensures Sound(Kept(items, valid), valid)
  {
    if items != [] {
      var before, item := Kept(items[..|items| - 1], valid), items[|items| - 1];
      KeptAreSound(items[..|items| - 1], valid);
      if Accepted(item, valid) && !Covers(before, item.value.constraint) { SoundSnoc(before, item.value, valid); }
    }
  }

  /** At most five recommendations, for different constraints, each the first accepted one for its
      constraint; one is missing only when five others came before. */
  lemma {:induction false} TakenIff(items: seq<Option<Recommendation>>, valid: set<int>)
    ensures var rs := Taken(items, valid);
      && |rs| <= MAX_RECOMMENDATIONS && rs <= Kept(items, valid)
      && Sound(rs, valid)
      && (forall r :: r in rs ==> exists i :: FirstIs(items, valid, i, r))
      && (forall i, r :: FirstIs(items, valid, i, r) && r !in rs ==> |rs| == MAX_RECOMMENDATIONS)
  {
    var rs := Taken(items, valid);
    KeptAreSound(items, valid);
    forall r | r in rs ensures exists i :: FirstIs(items, valid, i, r) { KeptIff(items, valid, r); }
    forall i, r | FirstIs(items, valid, i, r) && r !in rs ensures |rs| == MAX_RECOMMENDATIONS { KeptIff(items, valid, r); }
  }
}
