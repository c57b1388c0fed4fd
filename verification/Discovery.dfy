/** Discovery search (services/searcher.py): duplicates are dropped by shared keys, the rest is
    scored, sorted, cut and ranked. The canonical form of a URL and the score are parameters. */
module Discovery {
  import opened Wrappers
  import opened Basics
  import opened Text
  import opened Sorting
  import Names

  datatype RawResult = RawResult(
    title: string, url: string, source: string, year: Option<int>, arxivId: Option<string>, summary: Option<string>)

  datatype Ranking = Ranking(canonical: string -> string, score: RawResult -> real)

  datatype DedupKey = ByArxivId(id: string) | ByUrl(url: string) | ByTitle(title: string)

  predicate WordOrSpace(c: char) {
    IsSpace(c) || 'a' <= c <= 'z' || 'A' <= c <= 'Z' || '0' <= c <= '9' || c == '_'
  }

  function Keep(s: string, p: char -> bool): string {
    if s == "" then "" else (if p(s[0]) then [s[0]] else []) + Keep(s[1..], p)
  }

  function TitleKey(title: string): string {
    Keep(Lower(Strip(Names.SubRuns(title, IsSpace))), WordOrSpace)
  }

  function DedupKeys(k: Ranking, r: RawResult): set<DedupKey> {
    (if r.arxivId.Some? && r.arxivId.value != "" then {ByArxivId(Lower(r.arxivId.value))} else {})
      + (if r.url != "" then {ByUrl(k.canonical(r.url))} else {})
      + (if TitleKey(r.title) != "" then {ByTitle(TitleKey(r.title))} else {})
  }

  // ----- dropping duplicates -----

  /** The results that the loop keeps, by position. */
  function KeptAt(k: Ranking, raw: seq<RawResult>): seq<nat> {
    if raw == [] then []
    else
      var n := |raw| - 1;
      KeptAt(k, raw[..n]) + if DedupKeys(k, raw[n]) !! Seen(k, raw[..n]) then [n] else []
  }

  /** The keys of the results kept so far. */
  function Seen(k: Ranking, raw: seq<RawResult>): set<DedupKey> {
    if raw == [] then {}
    else
      var n := |raw| - 1;
      var seen := Seen(k, raw[..n]);
      seen + if DedupKeys(k, raw[n]) !! seen then DedupKeys(k, raw[n]) else {}
  }

  function Pick(raw: seq<RawResult>, at: seq<nat>): (r: seq<RawResult>)
    requires forall i :: 0 <= i < |at| ==> at[i] < |raw|
    ensures |r| == |at|
    ensures forall i :: 0 <= i < |at| ==> r[i] == raw[at[i]]
  {
    seq(|at|, i requires 0 <= i < |at| => raw[at[i]])
  }

  lemma {:induction false} KeptInRange(k: Ranking, raw: seq<RawResult>)
    ensures forall i :: 0 <= i < |KeptAt(k, raw)| ==> KeptAt(k, raw)[i] < |raw|
    ensures forall i, j :: 0 <= i < j < |KeptAt(k, raw)| ==> KeptAt(k, raw)[i] < KeptAt(k, raw)[j]
  {
    if raw != [] { KeptInRange(k, raw[..|raw| - 1]); }
  }

  function Deduped(k: Ranking, raw: seq<RawResult>): seq<RawResult> {
    KeptInRange(k, raw);
    Pick(raw, KeptAt(k, raw))
  }

  /** Every key seen belongs to a kept result, and every kept result's keys are seen. */
  lemma {:induction false} SeenIff(k: Ranking, raw: seq<RawResult>, key: DedupKey)
    ensures key in Seen(k, raw) <==>
      exists i :: i in KeptAt(k, raw) && i < |raw| && key in DedupKeys(k, raw[i])
  {
    if raw != [] {
      var n := |raw| - 1;
      SeenIff(k, raw[..n], key);
      KeptInRange(k, raw[..n]);
      var before, all := KeptAt(k, raw[..n]), KeptAt(k, raw);
      assert forall i :: i in before ==> i < n && raw[..n][i] == raw[i];
      assert forall i :: i in all <==> i in before || (i == n && DedupKeys(k, raw[n]) !! Seen(k, raw[..n]));
    }
  }

  ghost predicate ShareKey(k: Ranking, a: RawResult, b: RawResult) {
    exists key :: key in DedupKeys(k, a) && key in DedupKeys(k, b)
  }

  ghost predicate SharesWithEarlier(k: Ranking, raw: seq<RawResult>, i: nat)
    requires i < |raw|
  {
    exists j :: j in KeptAt(k, raw) && j < i && ShareKey(k, raw[j], raw[i])
  }

  lemma {:induction false} KeptBefore(k: Ranking, raw: seq<RawResult>, n: nat)
    requires raw != [] && n == |raw| - 1
    ensures forall j :: j < n ==> (j in KeptAt(k, raw[..n]) <==> j in KeptAt(k, raw))
    ensures forall j :: j in KeptAt(k, raw[..n]) ==> j < n && raw[..n][j] == raw[j]
    ensures n in KeptAt(k, raw) <==> DedupKeys(k, raw[n]) !! Seen(k, raw[..n])
  {
    KeptInRange(k, raw[..n]);
  }

  lemma {:induction false} LastDroppedIff(k: Ranking, raw: seq<RawResult>, n: nat)
    requires raw != [] && n == |raw| - 1
    ensures n !in KeptAt(k, raw) <==> SharesWithEarlier(k, raw, n)
  {
    KeptBefore(k, raw, n);
    forall key ensures key in Seen(k, raw[..n]) <==> exists j :: j in KeptAt(k, raw) && j < n && key in DedupKeys(k, raw[j]) {
      SeenIff(k, raw[..n], key);
    }
  }

  /** What is kept of a prefix does not depend on what follows it. */
  lemma {:induction false} KeptPrefix(k: Ranking, raw: seq<RawResult>, m: nat)
    requires m <= |raw|
    ensures forall j :: j < m ==> (j in KeptAt(k, raw[..m]) <==> j in KeptAt(k, raw))
    decreases |raw|
  {
    if m == |raw| {
      assert raw[..m] == raw;
    } else {
      var n := |raw| - 1;
      KeptPrefix(k, raw[..n], m);
      KeptBefore(k, raw, n);
      assert raw[..n][..m] == raw[..m];
    }
  }

  lemma {:induction false} SharesInPrefix(k: Ranking, raw: seq<RawResult>, i: nat)
    requires i < |raw|
    ensures SharesWithEarlier(k, raw[..i + 1], i) <==> SharesWithEarlier(k, raw, i)
  {
    KeptPrefix(k, raw, i + 1);
    assert forall j :: 0 <= j <= i ==> raw[..i + 1][j] == raw[j];
  }

  /** A result is dropped exactly when it shares a key with an earlier result that is kept. */
  lemma {:induction false} DroppedIff(k: Ranking, raw: seq<RawResult>, i: nat)
    requires i < |raw|
    ensures i !in KeptAt(k, raw) <==> SharesWithEarlier(k, raw, i)
  {
    LastDroppedIff(k, raw[..i + 1], i);
    KeptPrefix(k, raw, i + 1);
    SharesInPrefix(k, raw, i);
  }

  /** No two kept results share a key. */
  lemma {:induction false} KeptShareNothing(k: Ranking, raw: seq<RawResult>, i: nat, j: nat)
    requires i < j < |raw| && i in KeptAt(k, raw) && j in KeptAt(k, raw)
    ensures !ShareKey(k, raw[i], raw[j])
  {
    DroppedIff(k, raw, j);
  }

  // ----- ranking -----

  /** Higher scores first, then by lower-case title. */
  predicate Precedes(k: Ranking, a: RawResult, b: RawResult) {
    k.score(a) > k.score(b) || (k.score(a) == k.score(b) && StrLe(Lower(a.title), Lower(b.title)))
  }

  function Order(k: Ranking): (RawResult, RawResult) -> bool {
    (a: RawResult, b: RawResult) => Precedes(k, a, b)
  }

  lemma {:induction false} OrderIsTotal(k: Ranking)
    ensures TotalPreorder(Order(k))
  {
    var le := Order(k);
    forall a, b ensures le(a, b) || le(b, a) { StrLeTotal(Lower(a.title), Lower(b.title)); }
    forall a, b, c | le(a, b) && le(b, c) ensures le(a, c) {
      if k.score(a) == k.score(b) == k.score(c) {
        StrLeTransitive(Lower(a.title), Lower(b.title), Lower(c.title));
      }
    }
  }

  datatype Status = Proposed | Selected | Analyzed | Rejected

  datatype Candidate = Candidate(
    id: string, turnId: string, displayRank: int, status: Status, title: string, url: string, score: Option<real>)

  function CandidateOf(k: Ranking, r: RawResult, turnId: string, rank: int, id: string): Candidate {
    Candidate(id, turnId, rank, Proposed, Strip(r.title), Strip(r.url), Some(k.score(r)))
  }

  function TopOf(k: Ranking, sorted: seq<RawResult>, limit: nat, turnId: string, newId: nat -> string): (r: seq<Candidate>)
    ensures |r| == Min(limit, |sorted|)
  {
    seq(Min(limit, |sorted|), i requires 0 <= i < Min(limit, |sorted|) =>
      CandidateOf(k, sorted[i], turnId, i + 1, newId(i)))
  }

  /** What a search returns: the best results in order, ranked from 1. */
  function Ranked(k: Ranking, raw: seq<RawResult>, limit: nat, turnId: string, newId: nat -> string): (r: seq<Candidate>)
    ensures |r| == Min(limit, |Deduped(k, raw)|)
  {
    TopOf(k, Sort(Deduped(k, raw), Order(k)), limit, turnId, newId)
  }

  /** Ranks are 1 to n over a prefix of the sorted results that precedes all that was cut. */
  lemma {:induction false} RankedIsTopK(k: Ranking, raw: seq<RawResult>, limit: nat, turnId: string, newId: nat -> string)
    ensures var sorted := Sort(Deduped(k, raw), Order(k)); var top := Ranked(k, raw, limit, turnId, newId);
      && multiset(sorted) == multiset(Deduped(k, raw))
      && (forall i :: 0 <= i < |top| ==> top[i] == CandidateOf(k, sorted[i], turnId, i + 1, newId(i)))
      && (forall i, j :: 0 <= i < j < |sorted| ==> k.score(sorted[i]) >= k.score(sorted[j]))
      && (forall i, j :: 0 <= i < j < |sorted| && k.score(sorted[i]) == k.score(sorted[j]) ==>
            StrLe(Lower(sorted[i].title), Lower(sorted[j].title)))
      && |top| == Min(limit, |sorted|)
  {
    ResultsInOrder(k, raw);
    RankedPrefix(k, Sort(Deduped(k, raw), Order(k)), limit, turnId, newId);
  }

  lemma {:induction false} ResultsInOrder(k: Ranking, raw: seq<RawResult>)
    ensures var sorted := Sort(Deduped(k, raw), Order(k));
      && multiset(sorted) == multiset(Deduped(k, raw))
      && (forall i, j :: 0 <= i < j < |sorted| ==> k.score(sorted[i]) >= k.score(sorted[j]))
      && (forall i, j :: 0 <= i < j < |sorted| && k.score(sorted[i]) == k.score(sorted[j]) ==>
            StrLe(Lower(sorted[i].title), Lower(sorted[j].title)))
  {
    OrderIsTotal(k);
    SortSorts(Deduped(k, raw), Order(k));
    var sorted, le := Sort(Deduped(k, raw), Order(k)), Order(k);
    forall i, j | 0 <= i < j < |sorted|
      ensures k.score(sorted[i]) >= k.score(sorted[j])
      ensures k.score(sorted[i]) == k.score(sorted[j]) ==> StrLe(Lower(sorted[i].title), Lower(sorted[j].title))
    {
      assert le(sorted[i], sorted[j]);
      StrLeTotal(Lower(sorted[i].title), Lower(sorted[i].title));
    }
  }

  lemma {:induction false} RankedPrefix(k: Ranking, sorted: seq<RawResult>, limit: nat, turnId: string, newId: nat -> string)
    ensures var top := TopOf(k, sorted, limit, turnId, newId);
      && |top| == Min(limit, |sorted|)
      && forall i :: 0 <= i < |top| ==> top[i] == CandidateOf(k, sorted[i], turnId, i + 1, newId(i))
  {}

  // ----- what is dropped and what is returned -----

  /** The same arXiv id up to case, the same canonical URL, or the same title key; what a result
      does not have is not compared. */
  predicate SamePaper(k: Ranking, a: RawResult, b: RawResult) {
    || (Truthy(a.arxivId) && Truthy(b.arxivId) && Lower(a.arxivId.value) == Lower(b.arxivId.value))
    || (a.url != "" && b.url != "" && k.canonical(a.url) == k.canonical(b.url))
    || (TitleKey(a.title) != "" && TitleKey(a.title) == TitleKey(b.title))
  }

  lemma {:induction false} SharingIsSamePaper(k: Ranking, a: RawResult, b: RawResult)
    ensures ShareKey(k, a, b) <==> SamePaper(k, a, b)
  {
    if Truthy(a.arxivId) && Truthy(b.arxivId) && Lower(a.arxivId.value) == Lower(b.arxivId.value) {
      assert ByArxivId(Lower(a.arxivId.value)) in DedupKeys(k, a);
    }
    if a.url != "" && b.url != "" && k.canonical(a.url) == k.canonical(b.url) {
      assert ByUrl(k.canonical(a.url)) in DedupKeys(k, a);
    }
    if TitleKey(a.title) != "" && TitleKey(a.title) == TitleKey(b.title) {
      assert ByTitle(TitleKey(a.title)) in DedupKeys(k, a);
    }
  }

  /** A result is dropped exactly when an earlier one that is kept is the same paper. */
  lemma {:induction false} DroppedIffSamePaper(k: Ranking, raw: seq<RawResult>, i: nat)
    requires i < |raw|
    ensures i !in KeptAt(k, raw) <==> exists j :: j in KeptAt(k, raw) && j < i && SamePaper(k, raw[j], raw[i])
  {
    DroppedIff(k, raw, i);
    forall j | 0 <= j < i ensures ShareKey(k, raw[j], raw[i]) <==> SamePaper(k, raw[j], raw[i]) {
      SharingIsSamePaper(k, raw[j], raw[i]);
    }
  }

  predicate WordChar(c: char) { 'a' <= c <= 'z' || 'A' <= c <= 'Z' || '0' <= c <= '9' || c == '_' }

  function WordChars(s: string): string {
    if s == "" then "" else (if WordChar(s[0]) then [s[0]] else "") + WordChars(s[1..])
  }

  lemma {:induction false} WordCharsConcat(a: string, b: string)
    ensures WordChars(a + b) == WordChars(a) + WordChars(b)
  {
    if a == "" {
      assert a + b == b;
    } else {
      assert (a + b)[1..] == a[1..] + b;
      WordCharsConcat(a[1..], b);
    }
  }

  lemma {:induction false} NoWords(s: string)
    requires forall i :: 0 <= i < |s| ==> !WordChar(s[i])
    ensures WordChars(s) == ""
  {
    if s != "" { NoWords(s[1..]); }
  }

  lemma {:induction false} SubRunsKeepsWords(s: string)
    ensures WordChars(Names.SubRuns(s, IsSpace)) == WordChars(s)
    decreases |s|
  {
    if s == "" {
    } else if IsSpace(s[0]) {
      var n := RunLength(s, IsSpace);
      NoWords(s[..n]);
      assert s == s[..n] + s[n..];
      WordCharsConcat(s[..n], s[n..]);
      SubRunsKeepsWords(s[n..]);
      assert (" " + Names.SubRuns(s[n..], IsSpace))[1..] == Names.SubRuns(s[n..], IsSpace);
    } else {
      SubRunsKeepsWords(s[1..]);
      assert ([s[0]] + Names.SubRuns(s[1..], IsSpace))[1..] == Names.SubRuns(s[1..], IsSpace);
    }
  }

  lemma {:induction false} StripKeepsWords(s: string)
    ensures WordChars(Strip(s)) == WordChars(s)
  {
    var n := LeadingSpaces(s);
    var t := s[n..];
    LeadingSpacesIsMaximal(s);
    StripRightIsMinimal(t);
    assert s == s[..n] + t;
    BlankHasNoWords(s[..n], t);
    BlankHasNoWords(t[|Strip(s)|..], "");
    WordCharsConcat(Strip(s), t[|Strip(s)|..]);
  }

  lemma {:induction false} BlankHasNoWords(blank: string, s: string)
    requires IsBlank(blank)
    ensures WordChars(blank) == "" && WordChars(blank + s) == WordChars(s)
  {
    NoWords(blank);
    WordCharsConcat(blank, s);
  }

  lemma {:induction false} LowerKeepsWords(s: string)
    ensures WordChars(Lower(s)) == Lower(WordChars(s))
  {
    if s != "" {
      LowerKeepsWords(s[1..]);
      assert Lower(s)[1..] == Lower(s[1..]);
      assert s[0] != '_' || LowerChar(s[0]) == '_';
      assert WordChar(LowerChar(s[0])) <==> WordChar(s[0]);
      assert Lower([s[0]] + WordChars(s[1..])) == [LowerChar(s[0])] + Lower(WordChars(s[1..]));
    }
  }

  lemma {:induction false} KeepKeepsWords(s: string)
    ensures WordChars(Keep(s, WordOrSpace)) == WordChars(s)
  {
    if s != "" {
      KeepKeepsWords(s[1..]);
      var rest := Keep(s[1..], WordOrSpace);
      if WordOrSpace(s[0]) {
        assert ([s[0]] + rest)[1..] == rest;
      } else {
        assert Keep(s, WordOrSpace) == rest;
      }
    }
  }

  lemma {:induction false} KeepKeepsOnly(s: string)
    ensures forall c :: c in Keep(s, WordOrSpace) ==> WordOrSpace(c) && c in s
  {
    if s != "" {
      KeepKeepsOnly(s[1..]);
      assert forall c :: c in s[1..] ==> c in s;
      assert forall c :: c in Keep(s, WordOrSpace) ==> c in Keep(s[1..], WordOrSpace) || (c == s[0] && WordOrSpace(c));
    }
  }

  /** The title key has the word characters of the title, in lower case and in order, and nothing
      else but whitespace. */
  lemma {:induction false} TitleKeyKeepsWords(title: string)
    ensures WordChars(TitleKey(title)) == Lower(WordChars(title))
    ensures forall i :: 0 <= i < |TitleKey(title)| ==>
      (WordChar(TitleKey(title)[i]) || IsSpace(TitleKey(title)[i])) && !('A' <= TitleKey(title)[i] <= 'Z')
  {
    var inner := Strip(Names.SubRuns(title, IsSpace));
    SubRunsKeepsWords(title);
    StripKeepsWords(Names.SubRuns(title, IsSpace));
    LowerKeepsWords(inner);
    KeepKeepsWords(Lower(inner));
    KeepKeepsOnly(Lower(inner));
    forall i | 0 <= i < |TitleKey(title)|
      ensures (WordChar(TitleKey(title)[i]) || IsSpace(TitleKey(title)[i])) && !('A' <= TitleKey(title)[i] <= 'Z')
    {
      assert TitleKey(title)[i] in Keep(Lower(inner), WordOrSpace);
    }
  }

  /** The candidates are the best of the results, best first: by falling score, and by rising
      title in lower case among equal scores. What is left out scores no higher than anything
      returned, and then as many as allowed are returned. */
  ghost predicate BestFirst(
    k: Ranking, results: seq<RawResult>, limit: nat, turnId: string, newId: nat -> string,
    chosen: seq<RawResult>, left: multiset<RawResult>, top: seq<Candidate>)
  {
    && multiset(results) == multiset(chosen) + left && |top| == |chosen| <= limit
    && (forall i :: 0 <= i < |top| ==>
          && top[i].id == newId(i) && top[i].turnId == turnId && top[i].displayRank == i + 1 && top[i].status == Proposed
          && top[i].title == Strip(chosen[i].title) && top[i].url == Strip(chosen[i].url)
          && top[i].score == Some(k.score(chosen[i])))
    && (forall i, j :: 0 <= i < j < |chosen| ==> k.score(chosen[i]) >= k.score(chosen[j]))
    && (forall i, j :: 0 <= i < j < |chosen| && k.score(chosen[i]) == k.score(chosen[j]) ==>
          StrLe(Lower(chosen[i].title), Lower(chosen[j].title)))
    && (forall r, i :: r in left && 0 <= i < |chosen| ==> k.score(r) <= k.score(chosen[i]))
    && (|left| > 0 ==> |top| == limit)
  }

  lemma {:induction false} RankedIsBestFirst(k: Ranking, raw: seq<RawResult>, limit: nat, turnId: string, newId: nat -> string)
    ensures exists chosen, left :: BestFirst(k, Deduped(k, raw), limit, turnId, newId, chosen, left, Ranked(k, raw, limit, turnId, newId))
  {
    var sorted, top := Sort(Deduped(k, raw), Order(k)), Ranked(k, raw, limit, turnId, newId);
    RankedIsTopK(k, raw, limit, turnId, newId);
    PrefixIsBestFirst(k, sorted, limit, turnId, newId, top);
    SameResults(k, sorted, Deduped(k, raw), limit, turnId, newId, top);
  }

  lemma {:induction false} SameResults(
    k: Ranking, a: seq<RawResult>, b: seq<RawResult>, limit: nat, turnId: string, newId: nat -> string, top: seq<Candidate>)
    requires multiset(a) == multiset(b) && |top| <= |a|
    requires BestFirst(k, a, limit, turnId, newId, a[..|top|], multiset(a[|top|..]), top)
    ensures exists chosen, left :: BestFirst(k, b, limit, turnId, newId, chosen, left, top)
  {
    assert BestFirst(k, b, limit, turnId, newId, a[..|top|], multiset(a[|top|..]), top);
  }

  lemma {:induction false} PrefixIsBestFirst(
    k: Ranking, sorted: seq<RawResult>, limit: nat, turnId: string, newId: nat -> string, top: seq<Candidate>)
    requires |top| <= |sorted| && |top| <= limit && (|top| < |sorted| ==> |top| == limit)
    requires forall i :: 0 <= i < |top| ==> top[i] == CandidateOf(k, sorted[i], turnId, i + 1, newId(i))
    requires forall i, j :: 0 <= i < j < |sorted| ==> k.score(sorted[i]) >= k.score(sorted[j])
    requires forall i, j :: 0 <= i < j < |sorted| && k.score(sorted[i]) == k.score(sorted[j]) ==>
      StrLe(Lower(sorted[i].title), Lower(sorted[j].title))
    ensures BestFirst(k, sorted, limit, turnId, newId, sorted[..|top|], multiset(sorted[|top|..]), top)
  {
    var n := |top|;
    assert sorted == sorted[..n] + sorted[n..];
    forall i, j | 0 <= i < j < n
      ensures k.score(sorted[i]) >= k.score(sorted[j])
      ensures k.score(sorted[i]) == k.score(sorted[j]) ==> StrLe(Lower(sorted[i].title), Lower(sorted[j].title))
    {
      assert Precedes(k, sorted[i], sorted[j]);
    }
    forall r, i | r in multiset(sorted[n..]) && 0 <= i < n ensures k.score(r) <= k.score(sorted[i]) {
      LeftIsLower(k, sorted, n, r, i);
    }
  }

  lemma {:induction false} LeftIsLower(k: Ranking, sorted: seq<RawResult>, n: nat, r: RawResult, i: nat)
    requires i < n <= |sorted| && r in sorted[n..]
    requires forall i, j :: 0 <= i < j < |sorted| ==> Precedes(k, sorted[i], sorted[j])
    ensures k.score(r) <= k.score(sorted[i])
  {
    var j :| 0 <= j < |sorted[n..]| && sorted[n..][j] == r;
    assert Precedes(k, sorted[i], sorted[n + j]);
  }

  // ----- the loops -----

  /** One reply of the provider per query: its results, or None when the call raised. */
  type Replies = seq<Option<seq<RawResult>>>

  function Gathered(replies: Replies): seq<RawResult> {
    if replies == [] then []
    else
      var last := replies[|replies| - 1];
      Gathered(replies[..|replies| - 1]) + if last.Some? then last.value else []
  }

  function FailedQueries(replies: Replies): seq<nat> {
    if replies == [] then []
    else
      FailedQueries(replies[..|replies| - 1])
        + if replies[|replies| - 1] == None then [|replies| - 1] else []
  }

  method DropDuplicates(k: Ranking, raw: seq<RawResult>) returns (deduped: seq<RawResult>)
    ensures deduped == Deduped(k, raw)
  {
    deduped := [];
    var seen: set<DedupKey> := {};
    var n := 0;
    while n < |raw|
      invariant 0 <= n <= |raw|
      invariant seen == Seen(k, raw[..n])
      invariant deduped == Deduped(k, raw[..n])
    {
      var keys := DedupKeys(k, raw[n]);
      DedupSnoc(k, raw, n);
      if keys !! seen {
        deduped := deduped + [raw[n]];
        seen := seen + keys;
      }
      n := n + 1;
    }
    assert raw[..n] == raw;
  }

  lemma {:induction false} DedupSnoc(k: Ranking, raw: seq<RawResult>, n: nat)
    requires n < |raw|
    ensures var unseen := DedupKeys(k, raw[n]) !! Seen(k, raw[..n]);
      && Seen(k, raw[..n + 1]) == Seen(k, raw[..n]) + (if unseen then DedupKeys(k, raw[n]) else {})
      && Deduped(k, raw[..n + 1]) == Deduped(k, raw[..n]) + (if unseen then [raw[n]] else [])
  {
    assert raw[..n + 1][..n] == raw[..n];
    KeptInRange(k, raw[..n]);
    KeptInRange(k, raw[..n + 1]);
    assert KeptAt(k, raw[..n + 1])
      == KeptAt(k, raw[..n]) + if DedupKeys(k, raw[n]) !! Seen(k, raw[..n]) then [n] else [];
  }

  /** Ask every query; one that fails costs a warning and nothing else. */
  method Gather(replies: Replies) returns (raw: seq<RawResult>, warnings: seq<nat>)
    ensures raw == Gathered(replies) && warnings == FailedQueries(replies)
  {
    raw, warnings := [], [];
    var n := 0;
    while n < |replies|
      invariant 0 <= n <= |replies|
      invariant raw == Gathered(replies[..n]) && warnings == FailedQueries(replies[..n])
    {
      assert replies[..n + 1][..n] == replies[..n];
      match replies[n] {
        case Some(found) => raw := raw + found;
        case None => warnings := warnings + [n];
      }
      n := n + 1;
    }
    assert replies[..n] == replies;
  }

  /** `Searcher.search` */
  method Search(k: Ranking, replies: Replies, limit: nat, turnId: string, newId: nat -> string)
    returns (candidates: seq<Candidate>, warnings: seq<nat>)
    requires limit >= 1
    ensures candidates == Ranked(k, Gathered(replies), limit, turnId, newId)
    ensures exists chosen, left :: BestFirst(k, Deduped(k, Gathered(replies)), limit, turnId, newId, chosen, left, candidates)
    ensures warnings == FailedQueries(replies)
  {
    var raw, failed := Gather(replies);
    var deduped := DropDuplicates(k, raw);
    var sorted := Sort(deduped, Order(k));
    candidates := TopOf(k, sorted, limit, turnId, newId);
    RankedIsBestFirst(k, raw, limit, turnId, newId);
    warnings := failed;
  }
}
