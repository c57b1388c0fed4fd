/** The in-memory retrieval layer (services/retrieval_layer.py): a keyed store of chunks,
    filtered and ranked search, and evidence assembly. */
module Retrieval {
  import opened Wrappers
  import opened Text
  import opened Sorting

  datatype Location = Location(pageStart: Option<int>, pageEnd: Option<int>, sectionTitle: Option<string>)

  datatype PaperChunk = PaperChunk(
    id: string, paperId: string, chunkIndex: int, text: string, sessionId: Option<string>, location: Location)

  datatype ChunkSearchQuery = ChunkSearchQuery(
    query: string, sessionId: Option<string>, paperIds: seq<string>, limit: nat, minScore: Option<real>)

  datatype ChunkSearchResult = ChunkSearchResult(chunk: PaperChunk, score: real, rank: nat)

  datatype CitationRef = CitationRef(paperId: string, chunkId: string, location: Location)

  datatype EvidenceBundle = EvidenceBundle(
    query: string, results: seq<ChunkSearchResult>, citations: seq<CitationRef>, coverageNotes: seq<string>)

  // ----- the store -----

  predicate DistinctIds(chunks: seq<PaperChunk>) {
    forall i, j :: 0 <= i < j < |chunks| ==> chunks[i].id != chunks[j].id
  }

  function Find(chunks: seq<PaperChunk>, id: string): (r: Option<nat>)
    ensures r.Some? ==> r.value < |chunks| && chunks[r.value].id == id
    ensures r.None? ==> forall i :: 0 <= i < |chunks| ==> chunks[i].id != id
  {
    if chunks == [] then None
    else if chunks[0].id == id then Some(0)
    else
      var rest := Find(chunks[1..], id);
      if rest.None? then None else Some(rest.value + 1)
  }

  /** `self._chunks[chunk.id] = chunk` on a dictionary in insertion order. */
  function Put(chunks: seq<PaperChunk>, chunk: PaperChunk): (r: seq<PaperChunk>)
    requires DistinctIds(chunks)
    ensures DistinctIds(r)
  {
    var at := Find(chunks, chunk.id);
    if at.Some? then chunks[at.value := chunk] else chunks + [chunk]
  }

  function PutAll(chunks: seq<PaperChunk>, added: seq<PaperChunk>): (r: seq<PaperChunk>)
    requires DistinctIds(chunks)
    ensures DistinctIds(r)
  {
    if added == [] then chunks
    else
      var before := PutAll(chunks, added[..|added| - 1]);
      if IsBlank(added[|added| - 1].text) then before else Put(before, added[|added| - 1])
  }

  /** The stored chunk with an id, if any. */
  function Lookup(chunks: seq<PaperChunk>, id: string): Option<PaperChunk> {
    var at := Find(chunks, id);
    if at.Some? then Some(chunks[at.value]) else None
  }

  /** The last non-blank chunk of `added` with an id, else what was stored before. */
  function LastWrite(before: Option<PaperChunk>, added: seq<PaperChunk>, id: string): Option<PaperChunk> {
    if added == [] then before
    else if added[|added| - 1].id == id && !IsBlank(added[|added| - 1].text) then Some(added[|added| - 1])
    else LastWrite(before, added[..|added| - 1], id)
  }

  /** Upserting is last-write-wins per id and touches no other id. */
  lemma {:induction false} UpsertIsLastWriteWins(chunks: seq<PaperChunk>, added: seq<PaperChunk>, id: string)
    requires DistinctIds(chunks)
    ensures Lookup(PutAll(chunks, added), id) == LastWrite(Lookup(chunks, id), added, id)
  {
    if added != [] {
      var before := PutAll(chunks, added[..|added| - 1]);
      UpsertIsLastWriteWins(chunks, added[..|added| - 1], id);
      PutLooksUp(before, added[|added| - 1], id);
    }
  }

  lemma {:induction false} PutLooksUp(chunks: seq<PaperChunk>, chunk: PaperChunk, id: string)
    requires DistinctIds(chunks)
    ensures Lookup(Put(chunks, chunk), id) == if id == chunk.id then Some(chunk) else Lookup(chunks, id)
  {
    var after := Put(chunks, chunk);
    var a, b := Find(after, id), Find(chunks, id);
    var at := Find(chunks, chunk.id);
    if id == chunk.id {
      var k := if at.Some? then at.value else |chunks|;
      assert after[k] == chunk;
    } else if b.Some? {
      assert after[b.value] == chunks[b.value];
    }
  }

  // ----- counting an upsert -----

  /** How many of the chunks have no text. */
  function Blanks(added: seq<PaperChunk>): nat {
    if added == [] then 0
    else Blanks(added[..|added| - 1]) + if IsBlank(added[|added| - 1].text) then 1 else 0
  }

  /** Whether an id is stored, or written by one of the chunks. */
  predicate Known(chunks: seq<PaperChunk>, added: seq<PaperChunk>, id: string) {
    (exists i :: 0 <= i < |chunks| && chunks[i].id == id) || Writes(added, id)
  }

  predicate Writes(added: seq<PaperChunk>, id: string) {
    exists i :: 0 <= i < |added| && added[i].id == id && !IsBlank(added[i].text)
  }

  /** How many of the chunks have text and an id that was known before them. */
  function Updates(chunks: seq<PaperChunk>, added: seq<PaperChunk>): nat {
    if added == [] then 0
    else
      var before, last := added[..|added| - 1], added[|added| - 1];
      Updates(chunks, before) + if !IsBlank(last.text) && Known(chunks, before, last.id) then 1 else 0
  }

  lemma {:induction false} LastWriteSomeIff(before: Option<PaperChunk>, added: seq<PaperChunk>, id: string)
    ensures LastWrite(before, added, id).Some? <==> before.Some? || Writes(added, id)
  {
    if added != [] {
      var n := |added| - 1;
      LastWriteSomeIff(before, added[..n], id);
      assert Writes(added, id) <==> Writes(added[..n], id) || (added[n].id == id && !IsBlank(added[n].text)) by {
        assert forall i :: 0 <= i < n ==> added[..n][i] == added[i];
      }
    }
  }

  /** The ids found after some writes are the known ones. */
  lemma {:induction false} FindKnown(chunks: seq<PaperChunk>, added: seq<PaperChunk>, id: string)
    requires DistinctIds(chunks)
    ensures Find(PutAll(chunks, added), id).Some? <==> Known(chunks, added, id)
  {
    UpsertIsLastWriteWins(chunks, added, id);
    LastWriteSomeIff(Lookup(chunks, id), added, id);
  }

  lemma {:induction false} CountsSnoc(chunks: seq<PaperChunk>, added: seq<PaperChunk>, k: nat)
    requires DistinctIds(chunks) && k < |added|
    ensures Blanks(added[..k + 1]) == Blanks(added[..k]) + if IsBlank(added[k].text) then 1 else 0
    ensures Updates(chunks, added[..k + 1]) == Updates(chunks, added[..k])
      + if !IsBlank(added[k].text) && Find(PutAll(chunks, added[..k]), added[k].id).Some? then 1 else 0
  {
    assert added[..k + 1][..k] == added[..k];
    FindKnown(chunks, added[..k], added[k].id);
  }

  // ----- search -----

  predicate IsTokenChar(c: char) { 'a' <= c <= 'z' || '0' <= c <= '9' }

  function Tokens(text: string): set<string> {
    set t | t in Runs(Lower(text), IsTokenChar)
  }

  function LexicalScore(query: set<string>, chunk: set<string>): real {
    if query == {} || chunk == {} then 0.0 else |query * chunk| as real / |query| as real
  }

  /** The filters, in the order they are applied. */
  predicate Matches(q: ChunkSearchQuery, chunk: PaperChunk) {
    && (q.sessionId.Some? ==> chunk.sessionId == q.sessionId)
    && (q.paperIds != [] ==> chunk.paperId in q.paperIds)
    && LexicalScore(Tokens(q.query), Tokens(chunk.text)) > 0.0
    && (q.minScore.Some? ==> LexicalScore(Tokens(q.query), Tokens(chunk.text)) >= q.minScore.value)
  }

  function Hit(q: ChunkSearchQuery, chunk: PaperChunk): ChunkSearchResult {
    ChunkSearchResult(chunk, LexicalScore(Tokens(q.query), Tokens(chunk.text)), 0)
  }

  function Hits(q: ChunkSearchQuery, chunks: seq<PaperChunk>): seq<ChunkSearchResult> {
    if chunks == [] then []
    else
      var before := Hits(q, chunks[..|chunks| - 1]);
      var last := chunks[|chunks| - 1];
      if Matches(q, last) then before + [Hit(q, last)] else before
  }

  /** The key (-score, paper_id, chunk_index, id). */
  predicate HitLe(a: ChunkSearchResult, b: ChunkSearchResult) {
    || a.score > b.score
    || (a.score == b.score
        && (|| (a.chunk.paperId != b.chunk.paperId && StrLe(a.chunk.paperId, b.chunk.paperId))
            || (a.chunk.paperId == b.chunk.paperId
                && (|| a.chunk.chunkIndex < b.chunk.chunkIndex
                    || (a.chunk.chunkIndex == b.chunk.chunkIndex && StrLe(a.chunk.id, b.chunk.id))))))
  }

  lemma {:induction false} HitLeIsTotalPreorder()
    ensures TotalPreorder(HitLe)
    ensures forall a, b :: HitLe(a, b) && HitLe(b, a) ==> a.chunk.id == b.chunk.id
  {
    StrLeIsTotalPreorder();
  }

  function Ranked(hits: seq<ChunkSearchResult>): seq<ChunkSearchResult> {
    seq(|hits|, i requires 0 <= i < |hits| => hits[i].(rank := i + 1))
  }

  /** With the first n results ranked, as the ranking loop leaves them. */
  ghost function RankedUpTo(hits: seq<ChunkSearchResult>, n: nat): (r: seq<ChunkSearchResult>)
    requires n <= |hits|
    ensures |r| == |hits|
  {
    seq(|hits|, i requires 0 <= i < |hits| => if i < n then hits[i].(rank := i + 1) else hits[i])
  }

  lemma {:induction false} RankNext(hits: seq<ChunkSearchResult>, n: nat)
    requires n < |hits|
    ensures RankedUpTo(hits, n)[n] == hits[n]
    ensures RankedUpTo(hits, n)[n := hits[n].(rank := n + 1)] == RankedUpTo(hits, n + 1)
  {}

  lemma {:induction false} RankedIsAll(hits: seq<ChunkSearchResult>)
    ensures RankedUpTo(hits, 0) == hits && RankedUpTo(hits, |hits|) == Ranked(hits)
  {}

  function Search(chunks: seq<PaperChunk>, q: ChunkSearchQuery): seq<ChunkSearchResult> {
    var sorted := Sort(Hits(q, chunks), HitLe);
    Ranked(if |sorted| <= q.limit then sorted else sorted[..q.limit])
  }

  predicate IsHit(q: ChunkSearchQuery, chunks: seq<PaperChunk>, h: ChunkSearchResult) {
    h.chunk in chunks && Matches(q, h.chunk) && h == Hit(q, h.chunk)
  }

  lemma {:induction false} HitsAreMatches(q: ChunkSearchQuery, chunks: seq<PaperChunk>, h: ChunkSearchResult)
    ensures h in Hits(q, chunks) <==> IsHit(q, chunks, h)
  {
    if chunks != [] {
      HitsAreMatches(q, chunks[..|chunks| - 1], h);
      assert chunks == chunks[..|chunks| - 1] + [chunks[|chunks| - 1]];
    }
  }

  /** A search returns stored chunks of the session and the papers asked for, ranked 1, 2, ... by
      falling score; nothing left out has a higher score than anything returned. */
  lemma {:induction false} SearchIsTopK(chunks: seq<PaperChunk>, q: ChunkSearchQuery)
    ensures var rs := Search(chunks, q);
      && |rs| <= q.limit
      && (forall i :: 0 <= i < |rs| ==>
            && rs[i].rank == i + 1 && rs[i].chunk in chunks && Matches(q, rs[i].chunk)
            && rs[i] == Hit(q, rs[i].chunk).(rank := i + 1))
      && (forall i, j :: 0 <= i < j < |rs| ==> rs[i].score >= rs[j].score)
      && (forall c :: c in chunks && Matches(q, c) && (forall i :: 0 <= i < |rs| ==> rs[i].chunk != c) ==>
            |rs| == q.limit && forall i :: 0 <= i < |rs| ==> Hit(q, c).score <= rs[i].score)
  {
    var sorted := Sort(Hits(q, chunks), HitLe);
    var rs := Search(chunks, q);
    SortedHits(chunks, q);
    SearchShape(chunks, q);
    forall i, j | 0 <= i < j < |rs| ensures rs[i].score >= rs[j].score {
      assert HitLe(sorted[i], sorted[j]);
    }
    forall c | c in chunks && Matches(q, c) && forall i :: 0 <= i < |rs| ==> rs[i].chunk != c
      ensures |rs| == q.limit && forall i :: 0 <= i < |rs| ==> Hit(q, c).score <= rs[i].score
    {
      LeftOut(chunks, q, c, |rs|);
    }
  }

  lemma {:induction false} SearchShape(chunks: seq<PaperChunk>, q: ChunkSearchQuery)
    ensures var rs, sorted := Search(chunks, q), Sort(Hits(q, chunks), HitLe);
      && |rs| == (if |sorted| <= q.limit then |sorted| else q.limit)
      && forall i :: 0 <= i < |rs| ==> rs[i] == sorted[i].(rank := i + 1)
  {}

  /** The sorted hits are exactly the matching chunks, best first. */
  lemma {:induction false} SortedHits(chunks: seq<PaperChunk>, q: ChunkSearchQuery)
    ensures var sorted := Sort(Hits(q, chunks), HitLe);
      && Sorted(HitLe, sorted)
      && (forall i :: 0 <= i < |sorted| ==> IsHit(q, chunks, sorted[i]))
      && (forall c :: c in chunks && Matches(q, c) ==> Hit(q, c) in sorted)
  {
    var sorted := Sort(Hits(q, chunks), HitLe);
    HitLeIsTotalPreorder();
    SortSorts(Hits(q, chunks), HitLe);
    forall i | 0 <= i < |sorted| ensures IsHit(q, chunks, sorted[i]) {
      SortMembers(Hits(q, chunks), HitLe, sorted[i]);
      HitsAreMatches(q, chunks, sorted[i]);
    }
    forall c | c in chunks && Matches(q, c) ensures Hit(q, c) in sorted {
      SortMembers(Hits(q, chunks), HitLe, Hit(q, c));
      HitsAreMatches(q, chunks, Hit(q, c));
    }
  }

  /** A match that is not among the first n sorted hits has no higher score than they. */
  lemma {:induction false} LeftOut(chunks: seq<PaperChunk>, q: ChunkSearchQuery, c: PaperChunk, n: nat)
    requires c in chunks && Matches(q, c) && n <= |Sort(Hits(q, chunks), HitLe)|
    requires forall i :: 0 <= i < n ==> Sort(Hits(q, chunks), HitLe)[i].chunk != c
    ensures n < |Sort(Hits(q, chunks), HitLe)|
    ensures forall i :: 0 <= i < n ==> Hit(q, c).score <= Sort(Hits(q, chunks), HitLe)[i].score
  {
    var sorted := Sort(Hits(q, chunks), HitLe);
    SortedHits(chunks, q);
    var k :| 0 <= k < |sorted| && sorted[k] == Hit(q, c);
    forall i | 0 <= i < n ensures Hit(q, c).score <= sorted[i].score {
      assert HitLe(sorted[i], sorted[k]);
    }
  }

  function ToCitation(r: ChunkSearchResult): CitationRef {
    CitationRef(r.chunk.paperId, r.chunk.id, r.chunk.location)
  }

  function AssembleEvidence(query: string, results: seq<ChunkSearchResult>, maxChunks: nat): EvidenceBundle {
    var selected := if |results| <= maxChunks then results else results[..maxChunks];
    EvidenceBundle(query, selected,
                   seq(|selected|, i requires 0 <= i < |selected| => ToCitation(selected[i])),
                   if selected == [] then ["no_matching_chunks"] else [])
  }

  /** The layer as the program holds it. */
  class InMemoryRetrievalLayer {
    var chunks: seq<PaperChunk>

    ghost predicate Valid() reads this { DistinctIds(chunks) }

    constructor ()
      ensures Valid() && chunks == []
    {
      chunks := [];
    }

    method UpsertChunks(added: seq<PaperChunk>) returns (inserted: nat, updated: nat, skipped: nat)
      requires Valid()
      modifies this
      ensures Valid() && chunks == PutAll(old(chunks), added)
      ensures inserted + updated + skipped == |added|
      ensures |chunks| == |old(chunks)| + inserted
      ensures skipped == Blanks(added) && updated == Updates(old(chunks), added)
    {
      inserted, updated, skipped := 0, 0, 0;
      for k := 0 to |added|
        invariant Valid() && chunks == PutAll(old(chunks), added[..k])
        invariant inserted + updated + skipped == k
        invariant |chunks| == |old(chunks)| + inserted
        invariant skipped == Blanks(added[..k]) && updated == Updates(old(chunks), added[..k])
      {
        var chunk := added[k];
        PutAllSnoc(old(chunks), added, k);
        CountsSnoc(old(chunks), added, k);
        if IsBlank(chunk.text) {
          skipped := skipped + 1;
        } else {
          PutGrows(chunks, chunk);
          var at := Find(chunks, chunk.id);
          if at.Some? { updated := updated + 1; } else { inserted := inserted + 1; }
          chunks := if at.Some? then chunks[at.value := chunk] else chunks + [chunk];
        }
      }
      assert added[..|added|] == added;
    }

    method SearchChunks(q: ChunkSearchQuery) returns (limited: seq<ChunkSearchResult>)
      requires Valid()
      ensures limited == Search(chunks, q)
    {
      var results: seq<ChunkSearchResult> := [];
      for k := 0 to |chunks|
        invariant results == Hits(q, chunks[..k])
      {
        var chunk := chunks[k];
        HitsSnoc(q, chunks, k);
        if q.sessionId.Some? && chunk.sessionId != q.sessionId {
          continue;
        }
        if q.paperIds != [] && chunk.paperId !in q.paperIds {
          continue;
        }
        var score := LexicalScore(Tokens(q.query), Tokens(chunk.text));
        if score <= 0.0 {
          continue;
        }
        if q.minScore.Some? && score < q.minScore.value {
          continue;
        }
        results := results + [ChunkSearchResult(chunk, score, 0)];
      }
      assert chunks[..|chunks|] == chunks;
      results := Sort(results, HitLe);
      limited := if |results| <= q.limit then results else results[..q.limit];
      ghost var sorted := limited;
      RankedIsAll(sorted);
      for k := 0 to |limited|
        invariant |limited| == |sorted| && limited == RankedUpTo(sorted, k)
      {
        RankNext(sorted, k);
        limited := limited[k := limited[k].(rank := k + 1)];
      }
    }
  }

  lemma {:induction false} PutAllSnoc(chunks: seq<PaperChunk>, added: seq<PaperChunk>, k: nat)
    requires DistinctIds(chunks) && k < |added|
    ensures PutAll(chunks, added[..k + 1])
      == var before := PutAll(chunks, added[..k]); if IsBlank(added[k].text) then before else Put(before, added[k])
  {
    assert added[..k + 1][..k] == added[..k];
  }

  lemma {:induction false} PutGrows(chunks: seq<PaperChunk>, chunk: PaperChunk)
    requires DistinctIds(chunks)
    ensures |Put(chunks, chunk)| == |chunks| + if Find(chunks, chunk.id).Some? then 0 else 1
  {}

  lemma {:induction false} HitsSnoc(q: ChunkSearchQuery, chunks: seq<PaperChunk>, k: nat)
    requires k < |chunks|
    ensures Hits(q, chunks[..k + 1])
      == if Matches(q, chunks[k]) then Hits(q, chunks[..k]) + [Hit(q, chunks[k])] else Hits(q, chunks[..k])
  {
    assert chunks[..k + 1][..k] == chunks[..k];
  }

  /** A search does not depend on the order in which chunks were stored. */
  lemma {:induction false} SearchForgetsStorageOrder(a: seq<PaperChunk>, b: seq<PaperChunk>, q: ChunkSearchQuery)
    requires DistinctIds(a) && multiset(a) == multiset(b)
    ensures Search(a, q) == Search(b, q)
  {
    HitsPermute(a, b, q);
    HitLeIsTotalPreorder();
    forall x, y | x in Hits(q, a) && y in Hits(q, a) && HitLe(x, y) && HitLe(y, x) ensures x == y {
      HitsAreMatches(q, a, x);
      HitsAreMatches(q, a, y);
      assert x.chunk.id == y.chunk.id;
    }
    SortForgetsOrder(Hits(q, a), Hits(q, b), HitLe);
  }

  /** How often a result occurs among the hits, counted over the store. */
  lemma {:induction false} HitsCount(q: ChunkSearchQuery, a: seq<PaperChunk>, h: ChunkSearchResult)
    ensures multiset(Hits(q, a))[h] == if Matches(q, h.chunk) && h == Hit(q, h.chunk) then multiset(a)[h.chunk] else 0
  {
    if a != [] {
      HitsCount(q, a[..|a| - 1], h);
      assert a == a[..|a| - 1] + [a[|a| - 1]];
    }
  }

  lemma {:induction false} HitsPermute(a: seq<PaperChunk>, b: seq<PaperChunk>, q: ChunkSearchQuery)
    requires multiset(a) == multiset(b)
    ensures multiset(Hits(q, a)) == multiset(Hits(q, b))
  {
    forall h ensures multiset(Hits(q, a))[h] == multiset(Hits(q, b))[h] {
      HitsCount(q, a, h);
      HitsCount(q, b, h);
    }
  }
}
