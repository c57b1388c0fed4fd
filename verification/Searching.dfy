/** What a search of the in-memory retrieval layer returns (services/retrieval_layer.py:72-111,
    200-224), in terms of the words that the query and the chunks are made of. */
module Searching {
  import opened Wrappers
  import opened Text
  import opened Sorting
  import opened Retrieval

  // ----- the words of a text -----

  predicate Alphanumeric(c: char) { 'a' <= c <= 'z' || 'A' <= c <= 'Z' || '0' <= c <= '9' }

  /** From i to j runs a longest stretch of letters and digits. */
  predicate WordAt(text: string, i: int, j: int) {
    && 0 <= i < j <= |text|
    && (forall k :: i <= k < j ==> Alphanumeric(text[k]))
    && (i > 0 ==> !Alphanumeric(text[i - 1])) && (j < |text| ==> !Alphanumeric(text[j]))
  }

  /** The tokens of a text are its words in lower case. */
  lemma {:induction false} TokensAreWords(text: string, t: string)
    ensures t in Tokens(text) <==> exists i, j :: WordAt(text, i, j) && Lower(text[i..j]) == t
  {
    var low := Lower(text);
    RunsAreRuns(low, IsTokenChar, t);
    forall i, j | 0 <= i < j <= |text|
      ensures RunAt(low, IsTokenChar, i, j) <==> WordAt(text, i, j)
      ensures low[i..j] == Lower(text[i..j])
    {
      LowerKeepsWords(text, i, j);
    }
  }

  lemma {:induction false} LowerKeepsWords(text: string, i: int, j: int)
    requires 0 <= i < j <= |text|
    ensures RunAt(Lower(text), IsTokenChar, i, j) <==> WordAt(text, i, j)
    ensures Lower(text)[i..j] == Lower(text[i..j])
  {
    assert forall k :: 0 <= k < |text| ==> (IsTokenChar(Lower(text)[k]) <==> Alphanumeric(text[k]));
  }

  // ----- what a search returns -----

  /** The part of the query's tokens that the text has. */
  function Share(query: string, text: string): real
    requires Tokens(query) != {}
  {
    |Tokens(query) * Tokens(text)| as real / |Tokens(query)| as real
  }

  /** A chunk of the session and the papers asked for, if any are, that shares a token with the
      query, and as many as the query wants. */
  predicate Wanted(q: ChunkSearchQuery, c: PaperChunk) {
    && (q.sessionId == None || c.sessionId == q.sessionId)
    && (q.paperIds == [] || c.paperId in q.paperIds)
    && Tokens(q.query) * Tokens(c.text) != {}
    && (q.minScore == None || Share(q.query, c.text) >= q.minScore.value)
  }

  /** By falling score, then paper, then place in the paper, then chunk id. */
  predicate InOrder(a: ChunkSearchResult, b: ChunkSearchResult) {
    && a.score >= b.score
    && (a.score == b.score ==> StrLe(a.chunk.paperId, b.chunk.paperId))
    && (a.score == b.score && a.chunk.paperId == b.chunk.paperId ==> a.chunk.chunkIndex <= b.chunk.chunkIndex)
    && (a.score == b.score && a.chunk.paperId == b.chunk.paperId && a.chunk.chunkIndex == b.chunk.chunkIndex ==>
          StrLe(a.chunk.id, b.chunk.id))
  }

  predicate Listed(rs: seq<ChunkSearchResult>, c: PaperChunk) { exists i :: 0 <= i < |rs| && rs[i].chunk == c }

  predicate NoneBelow(rs: seq<ChunkSearchResult>, score: real) { forall i :: 0 <= i < |rs| ==> score <= rs[i].score }

  /** The best wanted chunks, best first, numbered from 1, each with its share of the query. */
  ghost predicate BestOf(chunks: seq<PaperChunk>, q: ChunkSearchQuery, rs: seq<ChunkSearchResult>) {
    && |rs| <= q.limit
    && (forall i :: 0 <= i < |rs| ==>
          && rs[i].rank == i + 1 && rs[i].chunk in chunks && Wanted(q, rs[i].chunk)
          && rs[i].score == Share(q.query, rs[i].chunk.text))
    && (forall i, j :: 0 <= i < j < |rs| ==> InOrder(rs[i], rs[j]))
    && (forall c :: c in chunks && Wanted(q, c) ==>
          Listed(rs, c) || (|rs| == q.limit && NoneBelow(rs, Share(q.query, c.text))))
  }

  lemma {:induction false} MatchesIff(q: ChunkSearchQuery, c: PaperChunk)
    ensures Matches(q, c) <==> Wanted(q, c)
    ensures Wanted(q, c) ==>
      Tokens(q.query) != {} && LexicalScore(Tokens(q.query), Tokens(c.text)) == Share(q.query, c.text)
  {
    var a, b := Tokens(q.query), Tokens(c.text);
    if a * b != {} {
      assert a != {} && b != {};
      assert |a * b| > 0;
    } else {
      assert |a * b| == 0;
    }
  }

  lemma {:induction false} SearchReturnsBest(chunks: seq<PaperChunk>, q: ChunkSearchQuery)
    ensures BestOf(chunks, q, Search(chunks, q))
  {
    var rs := Search(chunks, q);
    SearchIsTopK(chunks, q);
    forall i | 0 <= i < |rs|
      ensures Wanted(q, rs[i].chunk) && rs[i].score == Share(q.query, rs[i].chunk.text)
    {
      MatchesIff(q, rs[i].chunk);
    }
    forall i, j | 0 <= i < j < |rs| ensures InOrder(rs[i], rs[j]) { SearchInOrder(chunks, q, i, j); }
    forall c | c in chunks && Wanted(q, c)
      ensures Listed(rs, c) || (|rs| == q.limit && NoneBelow(rs, Share(q.query, c.text)))
    {
      MatchesIff(q, c);
    }
  }

  lemma {:induction false} SearchInOrder(chunks: seq<PaperChunk>, query: ChunkSearchQuery, i: nat, j: nat)
    requires i < j < |Search(chunks, query)|
    ensures InOrder(Search(chunks, query)[i], Search(chunks, query)[j])
  {
    SearchShape(chunks, query);
    SortedHits(chunks, query);
    var sorted := Sort(Hits(query, chunks), HitLe);
    assert HitLe(sorted[i], sorted[j]);
    StrLeTotal(sorted[i].chunk.paperId, sorted[i].chunk.paperId);
  }
}
