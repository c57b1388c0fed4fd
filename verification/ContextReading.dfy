/** What the benchmark context of a text is (agents/benchmark.py:315-374): the text around the first
    occurrences of the keywords, in sections, as far as the budget goes. */
module ContextReading {
  import opened Wrappers
  import opened Text
  import opened Sorting
  import opened BenchmarkContext

  // ----- which occurrences count -----

  /** The occurrences of a keyword, from the left without overlap. */
  function Occurrences(text: string, keyword: string): seq<nat>
    requires keyword != ""
  {
    Matches(Lower(text), keyword, 0)
  }

  /** How many windows the keywords may open: four each at most. */
  function Opened(text: string, keywords: seq<string>): nat
    requires Keywords(keywords)
  {
    if keywords == [] then 0
    else
      var n := |Occurrences(text, keywords[|keywords| - 1])|;
      Opened(text, keywords[..|keywords| - 1]) + if n <= 4 then n else 4
  }

  /** The i-th occurrence of the k-th keyword opens a window: one of its first four, and of the
      first 24 of all. */
  predicate Opens(text: string, keywords: seq<string>, k: int, i: int)
    requires Keywords(keywords)
  {
    && 0 <= k < |keywords| && 0 <= i < |Occurrences(text, keywords[k])| && i < 4
    && Opened(text, keywords[..k]) + i < 24
  }

  /** p is within 1200 characters of that occurrence. */
  predicate NearTo(text: string, keywords: seq<string>, k: int, i: int, p: int)
    requires Keywords(keywords)
  {
    && Opens(text, keywords, k, i)
    && var at := Occurrences(text, keywords[k])[i];
    at - 1200 <= p < at + |keywords[k]| + 1200
  }

  function Flat(lists: seq<seq<Span>>): seq<Span> {
    if lists == [] then [] else Flat(lists[..|lists| - 1]) + lists[|lists| - 1]
  }

  lemma {:induction false} FlatAt(lists: seq<seq<Span>>, k: int, i: int)
    requires 0 <= k < |lists| && 0 <= i < |lists[k]|
    ensures |Flat(lists[..k])| + i < |Flat(lists)| && Flat(lists)[|Flat(lists[..k])| + i] == lists[k][i]
  {
    var n := |lists| - 1;
    if k < n {
      assert lists[..n][..k] == lists[..k];
      FlatAt(lists[..n], k, i);
    }
  }

  lemma {:induction false} FlatFrom(lists: seq<seq<Span>>, j: nat) returns (k: int, i: int)
    requires j < |Flat(lists)|
    ensures 0 <= k < |lists| && 0 <= i < |lists[k]| && |Flat(lists[..k])| + i == j
  {
    var n := |lists| - 1;
    if j >= |Flat(lists[..n])| {
      k, i := n, j - |Flat(lists[..n])|;
    } else {
      k, i := FlatFrom(lists[..n], j);
      assert lists[..n][..k] == lists[..k];
    }
  }

  /** The windows of each keyword. */
  function Lists(text: string, keywords: seq<string>): seq<seq<Span>>
    requires Keywords(keywords)
  {
    seq(|keywords|, k requires 0 <= k < |keywords| => KeywordSpans(text, Lower(text), keywords[k]))
  }

  lemma {:induction false} AllSpansAreFlat(text: string, keywords: seq<string>)
    requires Keywords(keywords)
    ensures AllSpans(text, Lower(text), keywords) == Flat(Lists(text, keywords))
    ensures |Flat(Lists(text, keywords))| == Opened(text, keywords)
  {
    if keywords != [] {
      var n := |keywords| - 1;
      AllSpansAreFlat(text, keywords[..n]);
      assert Lists(text, keywords)[..n] == Lists(text, keywords[..n]);
    }
  }

  lemma {:induction false} ListAt(text: string, keyword: string, i: int)
    requires keyword != ""
    ensures var n, spans := |Occurrences(text, keyword)|, KeywordSpans(text, Lower(text), keyword);
      && |spans| == (if n <= 4 then n else 4)
      && (0 <= i < |spans| ==> Occurrences(text, keyword)[i] + |keyword| <= |text|)
      && (0 <= i < |spans| ==> spans[i] == SpanAt(text, keyword, Occurrences(text, keyword)[i]))
  {
    MatchesMatch(Lower(text), keyword, 0);
    if 0 <= i < |Occurrences(text, keyword)| { assert MatchesAt(Lower(text), keyword, Occurrences(text, keyword)[i]); }
  }

  lemma {:induction false} OpenedBefore(text: string, keywords: seq<string>, k: int)
    requires Keywords(keywords) && 0 <= k <= |keywords|
    ensures |Flat(Lists(text, keywords)[..k])| == Opened(text, keywords[..k])
  {
    AllSpansAreFlat(text, keywords[..k]);
    assert Lists(text, keywords)[..k] == Lists(text, keywords[..k]);
  }

  lemma {:induction false} SpanOfOccurrence(text: string, keywords: seq<string>, k: int, i: int)
    requires Keywords(keywords) && 0 <= k < |keywords| && 0 <= i < |Occurrences(text, keywords[k])| && i < 4
    ensures Opened(text, keywords[..k]) + i < |AllSpans(text, Lower(text), keywords)|
    ensures Occurrences(text, keywords[k])[i] + |keywords[k]| <= |text|
    ensures AllSpans(text, Lower(text), keywords)[Opened(text, keywords[..k]) + i]
      == SpanAt(text, keywords[k], Occurrences(text, keywords[k])[i])
  {
    AllSpansAreFlat(text, keywords);
    OpenedBefore(text, keywords, k);
    ListAt(text, keywords[k], i);
    SpanAtPlace(AllSpans(text, Lower(text), keywords), Lists(text, keywords), Opened(text, keywords[..k]), k, i,
                KeywordSpans(text, Lower(text), keywords[k]));
  }

  lemma {:induction false} SpanAtPlace(all: seq<Span>, lists: seq<seq<Span>>, n: nat, k: int, i: int, spans: seq<Span>)
    requires all == Flat(lists) && 0 <= k < |lists| && lists[k] == spans && n == |Flat(lists[..k])| && 0 <= i < |spans|
    ensures n + i < |all| && all[n + i] == spans[i]
  {
    FlatAt(lists, k, i);
  }

  lemma {:induction false} OccurrenceOfSpan(text: string, keywords: seq<string>, index: nat) returns (k: int, i: int)
    requires Keywords(keywords) && index < |AllSpans(text, Lower(text), keywords)|
    ensures 0 <= k < |keywords| && 0 <= i < |Occurrences(text, keywords[k])| && i < 4
    ensures Opened(text, keywords[..k]) + i == index
  {
    AllSpansAreFlat(text, keywords);
    k, i := FlatFrom(Lists(text, keywords), index);
    OpenedBefore(text, keywords, k);
    ListAt(text, keywords[k], i);
  }

  lemma {:induction false} SpanIsNear(text: string, keywords: seq<string>, j: nat, p: nat) returns (k: int, i: int)
    requires Keywords(keywords) && j < |AllSpans(text, Lower(text), keywords)| && j < 24
    requires AllSpans(text, Lower(text), keywords)[j].start <= p < AllSpans(text, Lower(text), keywords)[j].end
    ensures p < |text| && NearTo(text, keywords, k, i, p)
  {
    k, i := OccurrenceOfSpan(text, keywords, j);
    SpanOfOccurrence(text, keywords, k, i);
  }

  lemma {:induction false} NearIsInSpan(text: string, keywords: seq<string>, k: int, i: int, p: nat) returns (j: nat)
    requires Keywords(keywords) && p < |text| && NearTo(text, keywords, k, i, p)
    ensures j < |AllSpans(text, Lower(text), keywords)| && j < 24
    ensures AllSpans(text, Lower(text), keywords)[j].start <= p < AllSpans(text, Lower(text), keywords)[j].end
  {
    SpanOfOccurrence(text, keywords, k, i);
    j := Opened(text, keywords[..k]) + i;
  }

  /** The windows cover exactly what is near to an occurrence that opens one. */
  lemma {:induction false} CollectedNear(text: string, keywords: seq<string>, p: nat)
    requires Keywords(keywords)
    ensures Covers(Take(AllSpans(text, Lower(text), keywords), MAX_WINDOWS), p)
      <==> p < |text| && exists k, i :: NearTo(text, keywords, k, i, p)
  {
    var some := Take(AllSpans(text, Lower(text), keywords), MAX_WINDOWS);
    if j :| 0 <= j < |some| && some[j].start <= p < some[j].end {
      var k, i := SpanIsNear(text, keywords, j, p);
    }
    if p < |text| {
      if k, i :| NearTo(text, keywords, k, i, p) {
        var j := NearIsInSpan(text, keywords, k, i, p);
        assert some[j].start <= p < some[j].end;
      }
    }
  }

  /** In order, apart, in the text, at most 24, and around the occurrences. */
  ghost predicate WindowsAround(text: string, keywords: seq<string>, ws: seq<Span>)
    requires Keywords(keywords)
  {
    && Separated(ws) && InText(ws, |text|) && |ws| <= 24
    && forall p: nat :: Covers(ws, p) <==> p < |text| && exists k, i :: NearTo(text, keywords, k, i, p)
  }

  lemma {:induction false} WindowsReads(text: string, keywords: seq<string>)
    requires Keywords(keywords)
    ensures WindowsAround(text, keywords, Merged(Sort(Take(AllSpans(text, Lower(text), keywords), MAX_WINDOWS), SpanLe)))
  {
    WindowsOfText(text, keywords, 0);
    forall p: nat
      ensures Covers(Merged(Sort(Take(AllSpans(text, Lower(text), keywords), MAX_WINDOWS), SpanLe)), p)
        <==> p < |text| && exists k, i :: NearTo(text, keywords, k, i, p)
    {
      WindowsOfText(text, keywords, p);
      CollectedNear(text, keywords, p);
    }
  }

  // ----- sections -----

  /** The sections of the windows that are not blank, each under the heading of its number. */
  function Shown(text: string, ws: seq<Span>, heading: Headings): seq<string>
    requires InText(ws, |text|)
  {
    if ws == [] then []
    else
      var n := |ws| - 1;
      var inside := text[ws[n].start..ws[n].end];
      Shown(text, ws[..n], heading) + if IsBlank(inside) then [] else [heading(n + 1) + Strip(inside)]
  }

  function Held(section: Option<string>): seq<string> { if section.Some? then [section.value] else [] }

  lemma {:induction false} Associates(a: seq<string>, b: seq<string>, c: seq<string>)
    ensures (a + b) + c == a + (b + c)
  {}

  lemma {:induction false} SomesSnoc(sections: seq<Option<string>>, last: Option<string>)
    ensures Somes(sections + [last]) == Somes(sections) + Held(last)
  {
    var all := sections + [last];
    if sections == [] {
      assert all == [last] && [last][1..] == [];
    } else {
      SomesSnoc(sections[1..], last);
      assert all[0] == sections[0] && all[1..] == sections[1..] + [last];
      Associates(Held(sections[0]), Somes(sections[1..]), Held(last));
    }
  }

  lemma {:induction false} SectionsSnoc(text: string, ws: seq<Span>, heading: Headings)
    requires InText(ws, |text|) && ws != []
    ensures var n := |ws| - 1;
      SectionsOf(text, ws, heading) == SectionsOf(text, ws[..n], heading) + [SectionOf(text, ws[n], n + 1, heading)]
  {}

  lemma {:induction false} SectionShown(text: string, w: Span, index: nat, heading: Headings)
    requires w.start <= w.end <= |text|
    ensures var inside := text[w.start..w.end];
      Held(SectionOf(text, w, index, heading)) == if IsBlank(inside) then [] else [heading(index) + Strip(inside)]
  {
    StripOfBlank(text[w.start..w.end]);
  }

  lemma {:induction false} SectionsShown(text: string, ws: seq<Span>, heading: Headings)
    requires InText(ws, |text|)
    ensures Somes(SectionsOf(text, ws, heading)) == Shown(text, ws, heading)
  {
    if ws != [] {
      var n := |ws| - 1;
      SectionsShown(text, ws[..n], heading);
      SectionsSnoc(text, ws, heading);
      SectionShown(text, ws[n], n + 1, heading);
      SomesSnoc(SectionsOf(text, ws[..n], heading), SectionOf(text, ws[n], n + 1, heading));
    }
  }

  // ----- the budget -----

  function Total(parts: seq<string>): nat {
    if parts == [] then 0 else Total(parts[..|parts| - 1]) + |parts[|parts| - 1]|
  }

  lemma {:induction false} TotalIsLength(parts: seq<string>)
    ensures Total(parts) == Length(parts)
  {
    if parts != [] {
      var n := |parts| - 1;
      TotalIsLength(parts[..n]);
      LengthConcat(parts[..n], [parts[n]]);
      LengthCons(parts[n], []);
      assert parts == parts[..n] + [parts[n]] && [parts[n]] + [] == [parts[n]];
    }
  }

  /** The first k sections have room in 18000 characters, and the next one has not: it is cut to
      the room that is left if that is more than 500 characters, and marked. */
  ghost predicate Fits(sections: seq<string>, parts: seq<string>, k: nat) {
    && k <= |sections| && Total(sections[..k]) <= 18000
    && (k == |sections| ==> parts == sections)
    && (k < |sections| ==>
          var room := 18000 - Total(sections[..k]);
          && |sections[k]| > room
          && parts == if room > 500 then sections[..k] + [sections[k][..room] + "\n[truncated]"] else sections[..k])
  }

  lemma {:induction false} BudgetFits(sections: seq<string>) returns (k: nat)
    ensures Fits(sections, Budgeted(sections, 0), k)
  {
    k := BudgetKeepsPrefix(sections, 0);
    TotalIsLength(sections[..k]);
    if k < |sections| { assert sections[..k] + [] == sections[..k]; }
  }

  /** The parts with a rule between them. */
  function Ruled(parts: seq<string>): string {
    if parts == [] then ""
    else if |parts| == 1 then parts[0]
    else Ruled(parts[..|parts| - 1]) + "\n\n---\n\n" + parts[|parts| - 1]
  }

  lemma {:induction false} RuledCons(part: string, parts: seq<string>)
    requires parts != []
    ensures Ruled([part] + parts) == part + Separator() + Ruled(parts)
  {
    var all, n := [part] + parts, |parts|;
    assert all[n] == parts[n - 1];
    if n == 1 {
      assert all[..1] == [part] && Ruled([part]) == part;
    } else {
      RuledCons(part, parts[..n - 1]);
      assert all[..n] == [part] + parts[..n - 1];
    }
  }

  lemma {:induction false} JoinIsRuled(parts: seq<string>)
    ensures Join(parts) == Ruled(parts)
  {
    if |parts| > 1 {
      JoinIsRuled(parts[1..]);
      RuledCons(parts[0], parts[1..]);
      assert parts == [parts[0]] + parts[1..];
    }
  }

  // ----- the context -----

  ghost predicate Assembled(text: string, ws: seq<Span>, heading: Headings, context: string)
    requires InText(ws, |text|)
  {
    exists parts, k :: Fits(Shown(text, ws, heading), parts, k) && context == Ruled(parts)
  }

  /** The sections of the windows around the occurrences, or the end of the text if none occurs. */
  lemma {:induction false} ContextReads(text: string, keywords: seq<string>, heading: Headings) returns (ws: seq<Span>)
    requires Keywords(keywords) && text != ""
    ensures WindowsAround(text, keywords, ws)
    ensures if exists k, i :: Opens(text, keywords, k, i) then Assembled(text, ws, heading, ContextOf(text, keywords, heading))
            else ContextOf(text, keywords, heading) == if |text| <= 12000 then text else text[|text| - 12000..]
  {
    var collected := Take(AllSpans(text, Lower(text), keywords), MAX_WINDOWS);
    ws := Merged(Sort(collected, SpanLe));
    WindowsReads(text, keywords);
    CollectedIff(text, keywords);
    if collected != [] {
      var sections := Somes(SectionsOf(text, ws, heading));
      SectionsShown(text, ws, heading);
      var k := BudgetFits(sections);
      JoinIsRuled(Budgeted(sections, 0));
    } else {
      assert text[0..] == text;
    }
  }

  lemma {:induction false} CollectedIff(text: string, keywords: seq<string>)
    requires Keywords(keywords)
    ensures Take(AllSpans(text, Lower(text), keywords), MAX_WINDOWS) == [] <==> !exists k, i :: Opens(text, keywords, k, i)
  {
    var all := AllSpans(text, Lower(text), keywords);
    if all != [] {
      var k, i := OccurrenceOfSpan(text, keywords, 0);
      assert Opens(text, keywords, k, i);
    }
    if k, i :| Opens(text, keywords, k, i) { SpanOfOccurrence(text, keywords, k, i); }
  }
}
