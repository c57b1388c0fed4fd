/** The targeted benchmark context (agents/benchmark.py:315-374): windows around keyword matches
    are collected, sorted, merged and cut to a character budget. The keywords, in lower case, and
    the heading of each window are parameters. */
module BenchmarkContext {
  import opened Wrappers
  import opened Basics
  import opened Text
  import opened Sorting

  const MAX_WINDOWS := 24
  const MATCHES_PER_KEYWORD := 4
  const WINDOW_CHARS := 1200
  const MAX_CONTEXT_CHARS := 18000
  const MAX_FALLBACK_CHARS := 12000
  const WORTH_TRUNCATING := 500

  datatype Span = Span(start: nat, end: nat)

  // ----- collecting -----

  /** The first match at or after a position, or |s|. */
  function FirstMatch(s: string, pattern: string, from: nat): (i: nat)
    requires from <= |s|
    ensures from <= i <= |s|
    decreases |s| - from
  {
    if from == |s| || MatchesAt(s, pattern, from) then from else FirstMatch(s, pattern, from + 1)
  }

  /** re.finditer: matches from the left that do not overlap. */
  function Matches(s: string, pattern: string, from: nat): seq<nat>
    requires from <= |s| && pattern != ""
    decreases |s| - from
  {
    var i := FirstMatch(s, pattern, from);
    if i < |s| && MatchesAt(s, pattern, i) then [i] + Matches(s, pattern, i + |pattern|) else []
  }

  function SpanAt(text: string, keyword: string, at: nat): Span
    requires at + |keyword| <= |text|
  {
    Span(Max(0, at - WINDOW_CHARS), Min(|text|, at + |keyword| + WINDOW_CHARS))
  }

  function SpansAt(text: string, keyword: string, matches: seq<nat>): (r: seq<Span>)
    requires forall i :: 0 <= i < |matches| ==> matches[i] + |keyword| <= |text|
    ensures |r| == |matches|
    ensures forall i :: 0 <= i < |r| ==> r[i] == SpanAt(text, keyword, matches[i])
  {
    seq(|matches|, i requires 0 <= i < |matches| => SpanAt(text, keyword, matches[i]))
  }

  lemma {:induction false} MatchesMatch(s: string, pattern: string, from: nat)
    requires from <= |s| && pattern != ""
    ensures forall i :: 0 <= i < |Matches(s, pattern, from)| ==> MatchesAt(s, pattern, Matches(s, pattern, from)[i])
    decreases |s| - from
  {
    var i := FirstMatch(s, pattern, from);
    if i < |s| && MatchesAt(s, pattern, i) { MatchesMatch(s, pattern, i + |pattern|); }
  }

  /** q lies within one of the matches. */
  predicate Within(matches: seq<nat>, width: nat, q: int) {
    exists i :: 0 <= i < |matches| && matches[i] <= q < matches[i] + width
  }

  lemma {:induction false} FirstMatchIsFirst(s: string, pattern: string, from: nat)
    requires from <= |s|
    ensures forall q :: from <= q < FirstMatch(s, pattern, from) ==> !MatchesAt(s, pattern, q)
    ensures FirstMatch(s, pattern, from) < |s| ==> MatchesAt(s, pattern, FirstMatch(s, pattern, from))
    decreases |s| - from
  {
    if from < |s| && !MatchesAt(s, pattern, from) { FirstMatchIsFirst(s, pattern, from + 1); }
  }

  predicate Apart(matches: seq<nat>, width: nat, from: nat) {
    && (forall i :: 0 <= i < |matches| ==> from <= matches[i])
    && (forall i, j :: 0 <= i < j < |matches| ==> matches[i] + width <= matches[j])
  }

  lemma {:induction false} ApartCons(first: nat, rest: seq<nat>, width: nat, from: nat)
    requires Apart(rest, width, first + width) && from <= first
    ensures Apart([first] + rest, width, from)
  {}

  lemma {:induction false} WithinCons(first: nat, rest: seq<nat>, width: nat, q: int)
    ensures Within([first] + rest, width, q) <==> first <= q < first + width || Within(rest, width, q)
  {
    var m := [first] + rest;
    if Within(rest, width, q) {
      var i :| 0 <= i < |rest| && rest[i] <= q < rest[i] + width;
      assert m[i + 1] == rest[i];
    }
    assert m[0] == first;
  }

  /** The matches are those of a scan from the left: they do not overlap, and every place where
      the pattern occurs lies within one of them. */
  lemma {:induction false} MatchesAreLeftmost(s: string, pattern: string, from: nat, q: nat)
    requires from <= |s| && pattern != ""
    ensures Apart(Matches(s, pattern, from), |pattern|, from)
    ensures from <= q && MatchesAt(s, pattern, q) ==> Within(Matches(s, pattern, from), |pattern|, q)
    decreases |s| - from
  {
    var first := FirstMatch(s, pattern, from);
    FirstMatchIsFirst(s, pattern, from);
    if first < |s| && MatchesAt(s, pattern, first) {
      var rest := Matches(s, pattern, first + |pattern|);
      MatchesAreLeftmost(s, pattern, first + |pattern|, q);
      ApartCons(first, rest, |pattern|, from);
      WithinCons(first, rest, |pattern|, q);
    }
  }

  /** The windows of a keyword's first matches. */
  function KeywordSpans(text: string, lowered: string, keyword: string): seq<Span>
    requires |lowered| == |text| && keyword != ""
  {
    var matches := Matches(lowered, keyword, 0);
    MatchesMatch(lowered, keyword, 0);
    SpansAt(text, keyword, matches[..Min(|matches|, MATCHES_PER_KEYWORD)])
  }

  predicate Keywords(keywords: seq<string>) { forall i :: 0 <= i < |keywords| ==> keywords[i] != "" }

  function AllSpans(text: string, lowered: string, keywords: seq<string>): seq<Span>
    requires |lowered| == |text| && Keywords(keywords)
  {
    if keywords == [] then []
    else
      var n := |keywords| - 1;
      AllSpans(text, lowered, keywords[..n]) + KeywordSpans(text, lowered, keywords[n])
  }

  function Take(spans: seq<Span>, n: nat): seq<Span> { spans[..Min(|spans|, n)] }

  lemma {:induction false} TakeTake(a: seq<Span>, b: seq<Span>, n: nat)
    ensures Take(Take(a, n) + b, n) == Take(a + b, n)
  {}

  lemma {:induction false} TakeFull(some: seq<Span>, all: seq<Span>, n: nat)
    requires |some| <= |all| && all[..|some|] == some && (|Take(some, n)| >= n || some == all)
    ensures Take(some, n) == Take(all, n)
  {}

  /** The collecting loops: at most four windows a keyword and MAX_WINDOWS in all. */
  method CollectWindows(text: string, keywords: seq<string>) returns (windows: seq<Span>)
    requires Keywords(keywords)
    ensures windows == Take(AllSpans(text, Lower(text), keywords), MAX_WINDOWS)
  {
    var lowered := Lower(text);
    windows := [];
    ghost var some: seq<Span> := [];
    var n := 0;
    while n < |keywords| && |windows| < MAX_WINDOWS
      invariant 0 <= n <= |keywords|
      invariant some == AllSpans(text, lowered, keywords[..n])
      invariant windows == Take(some, MAX_WINDOWS)
    {
      assert keywords[..n + 1][..n] == keywords[..n];
      TakeTake(some, KeywordSpans(text, lowered, keywords[n]), MAX_WINDOWS);
      windows := CollectKeyword(text, lowered, keywords[n], windows);
      some := some + KeywordSpans(text, lowered, keywords[n]);
      n := n + 1;
    }
    SpansGrow(text, lowered, keywords, n);
    assert keywords[..|keywords|] == keywords;
    TakeFull(some, AllSpans(text, lowered, keywords), MAX_WINDOWS);
  }

  method CollectKeyword(text: string, lowered: string, keyword: string, before: seq<Span>) returns (windows: seq<Span>)
    requires |lowered| == |text| && keyword != "" && |before| < MAX_WINDOWS
    ensures windows == Take(before + KeywordSpans(text, lowered, keyword), MAX_WINDOWS)
  {
    windows := before;
    var matches := Matches(lowered, keyword, 0);
    MatchesMatch(lowered, keyword, 0);
    ghost var spans := KeywordSpans(text, lowered, keyword);
    var m := 0;
    while m < |matches| && |windows| < MAX_WINDOWS && m < MATCHES_PER_KEYWORD
      invariant 0 <= m <= Min(|matches|, MATCHES_PER_KEYWORD)
      invariant windows == before + spans[..m] && |windows| <= MAX_WINDOWS
    {
      assert MatchesAt(lowered, keyword, matches[m]);
      windows := windows + [SpanAt(text, keyword, matches[m])];
      m := m + 1;
    }
  }

  lemma {:induction false} SpansGrow(text: string, lowered: string, keywords: seq<string>, n: nat)
    requires |lowered| == |text| && Keywords(keywords) && n <= |keywords|
    ensures var some, all := AllSpans(text, lowered, keywords[..n]), AllSpans(text, lowered, keywords);
      |some| <= |all| && all[..|some|] == some
    decreases |keywords|
  {
    if n < |keywords| {
      var m := |keywords| - 1;
      SpansGrow(text, lowered, keywords[..m], n);
      assert keywords[..m][..n] == keywords[..n];
    } else {
      assert keywords[..n] == keywords;
    }
  }

  predicate InText(spans: seq<Span>, n: nat) {
    forall i :: 0 <= i < |spans| ==> spans[i].start < spans[i].end <= n
  }

  lemma {:induction false} KeywordSpansInText(text: string, lowered: string, keyword: string)
    requires |lowered| == |text| && keyword != ""
    ensures InText(KeywordSpans(text, lowered, keyword), |text|)
  {
    MatchesMatch(lowered, keyword, 0);
  }

  lemma {:induction false} SpansInText(text: string, lowered: string, keywords: seq<string>)
    requires |lowered| == |text| && Keywords(keywords)
    ensures InText(AllSpans(text, lowered, keywords), |text|)
  {
    if keywords != [] {
      SpansInText(text, lowered, keywords[..|keywords| - 1]);
      KeywordSpansInText(text, lowered, keywords[|keywords| - 1]);
    }
  }

  // ----- merging -----

  predicate SpanLe(a: Span, b: Span) { a.start < b.start || (a.start == b.start && a.end <= b.end) }

  function Joined(a: Span, b: Span): Span { Span(a.start, Max(a.end, b.end)) }

  /** Append a window to merged ones, or join it with the last. */
  function Add(before: seq<Span>, s: Span): seq<Span> {
    if before == [] || s.start > before[|before| - 1].end then before + [s]
    else before[..|before| - 1] + [Joined(before[|before| - 1], s)]
  }

  function Merged(spans: seq<Span>): seq<Span> {
    if spans == [] then [] else Add(Merged(spans[..|spans| - 1]), spans[|spans| - 1])
  }

  /** The merging loop, which replaces the last merged window in place. */
  method Merge(spans: seq<Span>) returns (merged: seq<Span>)
    ensures merged == Merged(spans)
  {
    merged := [];
    var n := 0;
    while n < |spans|
      invariant 0 <= n <= |spans|
      invariant merged == Merged(spans[..n])
    {
      assert spans[..n + 1][..n] == spans[..n];
      var last := |merged| - 1;
      if merged == [] || spans[n].start > merged[last].end {
        merged := merged + [spans[n]];
      } else {
        merged := merged[last := Joined(merged[last], spans[n])];
      }
      n := n + 1;
    }
    assert spans[..n] == spans;
  }

  predicate Covers(spans: seq<Span>, p: nat) {
    exists i :: 0 <= i < |spans| && spans[i].start <= p < spans[i].end
  }

  predicate Separated(spans: seq<Span>) {
    forall i, j :: 0 <= i < j < |spans| ==> spans[i].end < spans[j].start
  }

  predicate Rising(spans: seq<Span>) {
    forall i, j :: 0 <= i < j < |spans| ==> spans[i].start <= spans[j].start
  }

  predicate LastStartsBy(spans: seq<Span>, at: nat) {
    spans != [] ==> spans[|spans| - 1].start <= at
  }

  lemma {:induction false} AddSeparated(before: seq<Span>, s: Span, n: nat)
    requires Separated(before) && InText(before, n) && s.start < s.end <= n && LastStartsBy(before, s.start)
    ensures Separated(Add(before, s)) && InText(Add(before, s), n) && LastStartsBy(Add(before, s), s.start)
    ensures 0 < |Add(before, s)| <= |before| + 1
  {}

  /** Merged windows are in order with a gap between any two, no more than before, in the text. */
  lemma {:induction false} MergedSeparated(spans: seq<Span>, n: nat)
    requires Rising(spans) && InText(spans, n)
    ensures var m := Merged(spans);
      && Separated(m) && InText(m, n) && |m| <= |spans| && (m == [] <==> spans == [])
      && (spans != [] ==> LastStartsBy(m, spans[|spans| - 1].start))
  {
    if spans != [] {
      var last := |spans| - 1;
      MergedSeparated(spans[..last], n);
      AddSeparated(Merged(spans[..last]), spans[last], n);
    }
  }

  lemma {:induction false} CoversSnoc(spans: seq<Span>, s: Span, p: nat)
    ensures Covers(spans + [s], p) <==> Covers(spans, p) || s.start <= p < s.end
  {
    var all := spans + [s];
    if Covers(spans, p) {
      var i :| 0 <= i < |spans| && spans[i].start <= p < spans[i].end;
      assert all[i] == spans[i];
    }
    assert all[|spans|] == s;
  }

  lemma {:induction false} AddCovers(before: seq<Span>, s: Span, n: nat, p: nat)
    requires InText(before, n) && s.start < s.end && LastStartsBy(before, s.start)
    ensures Covers(Add(before, s), p) <==> Covers(before, p) || s.start <= p < s.end
  {
    if before == [] || s.start > before[|before| - 1].end {
      CoversSnoc(before, s, p);
    } else {
      var b := |before| - 1;
      assert before == before[..b] + [before[b]];
      CoversSnoc(before[..b], before[b], p);
      CoversSnoc(before[..b], Joined(before[b], s), p);
    }
  }

  /** They cover exactly the positions that the windows cover. */
  lemma {:induction false} MergedCovers(spans: seq<Span>, n: nat, p: nat)
    requires Rising(spans) && InText(spans, n)
    ensures Covers(Merged(spans), p) <==> Covers(spans, p)
  {
    if spans != [] {
      var last := |spans| - 1;
      MergedCovers(spans[..last], n, p);
      MergedSeparated(spans[..last], n);
      AddCovers(Merged(spans[..last]), spans[last], n, p);
      CoversSnoc(spans[..last], spans[last], p);
      assert spans == spans[..last] + [spans[last]];
    }
  }

  /** The windows of a text, as the sections show them: at most MAX_WINDOWS, in order, with a
      gap between any two, covering exactly the positions near the collected matches. */
  lemma {:induction false} WindowsOfText(text: string, keywords: seq<string>, p: nat)
    requires Keywords(keywords)
    ensures var collected := Take(AllSpans(text, Lower(text), keywords), MAX_WINDOWS);
      var m := Merged(Sort(collected, SpanLe));
      && |m| <= |collected| <= MAX_WINDOWS && Separated(m) && InText(m, |text|)
      && (Covers(m, p) <==> Covers(collected, p))
  {
    var collected := Take(AllSpans(text, Lower(text), keywords), MAX_WINDOWS);
    var sorted := Sort(collected, SpanLe);
    SpansInText(text, Lower(text), keywords);
    SortSorts(collected, SpanLe);
    forall i | 0 <= i < |sorted| ensures sorted[i] in collected { assert sorted[i] in multiset(sorted); }
    assert Rising(sorted) by {
      forall i, j | 0 <= i < j < |sorted| ensures sorted[i].start <= sorted[j].start {
        assert SpanLe(sorted[i], sorted[j]);
      }
    }
    MergedSeparated(sorted, |text|);
    MergedCovers(sorted, |text|, p);
    SameCover(collected, sorted, p);
  }

  lemma {:induction false} SameCover(xs: seq<Span>, ys: seq<Span>, p: nat)
    requires multiset(xs) == multiset(ys)
    ensures Covers(xs, p) <==> Covers(ys, p)
  {
    if i :| 0 <= i < |xs| && xs[i].start <= p < xs[i].end {
      assert xs[i] in multiset(ys);
    }
    if i :| 0 <= i < |ys| && ys[i].start <= p < ys[i].end {
      assert ys[i] in multiset(xs);
    }
  }

  // ----- the budget -----

  function TruncationMark(): (r: string)
    ensures |r| == 12
  {
    "\n[truncated]"
  }

  function Separator(): (r: string)
    ensures |r| == 7
  {
    "\n\n---\n\n"
  }

  /** The heading of the i-th window, from 1. */
  type Headings = nat -> string

  /** The section of a window, or None when the window holds only whitespace. */
  function SectionOf(text: string, w: Span, index: nat, heading: Headings): Option<string>
    requires w.start <= w.end <= |text|
  {
    var chunk := Strip(text[w.start..w.end]);
    if chunk == "" then None else Some(heading(index) + chunk)
  }

  function SectionsOf(text: string, ws: seq<Span>, heading: Headings): (r: seq<Option<string>>)
    requires InText(ws, |text|)
    ensures |r| == |ws|
  {
    seq(|ws|, i requires 0 <= i < |ws| => SectionOf(text, ws[i], i + 1, heading))
  }

  function Somes(sections: seq<Option<string>>): (r: seq<string>)
    ensures |r| <= |sections|
  {
    if sections == [] then []
    else (if sections[0].Some? then [sections[0].value] else []) + Somes(sections[1..])
  }

  /** What is left of a section that does not fit: the part that does, marked, if worth it. */
  function Cut(section: string, total: int): seq<string>
    requires total <= MAX_CONTEXT_CHARS < total + |section|
  {
    var room := MAX_CONTEXT_CHARS - total;
    if room > WORTH_TRUNCATING then [section[..room] + TruncationMark()] else []
  }

  /** Sections as they fit after `total` characters: whole ones, then at most one that is cut. */
  function Budgeted(sections: seq<string>, total: int): seq<string>
    requires total <= MAX_CONTEXT_CHARS
  {
    if sections == [] then []
    else if total + |sections[0]| > MAX_CONTEXT_CHARS then Cut(sections[0], total)
    else [sections[0]] + Budgeted(sections[1..], total + |sections[0]|)
  }

  function Length(parts: seq<string>): nat {
    if parts == [] then 0 else |parts[0]| + Length(parts[1..])
  }

  /** separator.join(parts) */
  function Join(parts: seq<string>): string {
    if parts == [] then ""
    else if |parts| == 1 then parts[0]
    else parts[0] + Separator() + Join(parts[1..])
  }

  lemma {:induction false} JoinLength(parts: seq<string>)
    ensures |Join(parts)| == Length(parts) + (if parts == [] then 0 else 7 * (|parts| - 1))
  {
    if |parts| > 1 { JoinLength(parts[1..]); }
    if |parts| == 1 { assert parts[1..] == []; }
  }

  lemma {:induction false} LengthCons(part: string, parts: seq<string>)
    ensures Length([part] + parts) == |part| + Length(parts)
  {
    assert ([part] + parts)[1..] == parts;
  }

  /** The first k sections whole, and the next one cut if it does not fit. */
  ghost predicate KeepsFirst(all: seq<string>, parts: seq<string>, total: int, k: nat) {
    && k <= |all|
    && var used := total + Length(all[..k]);
    && used <= MAX_CONTEXT_CHARS
    && (k == |all| ==> parts == all)
    && (k < |all| ==> used + |all[k]| > MAX_CONTEXT_CHARS && parts == all[..k] + Cut(all[k], used))
  }

  /** What the budget leaves: a whole prefix of the sections, and at most one cut section, the
      first that does not fit. */
  lemma {:induction false} BudgetKeepsPrefix(sections: seq<string>, total: int) returns (k: nat)
    requires total <= MAX_CONTEXT_CHARS
    ensures KeepsFirst(sections, Budgeted(sections, total), total, k)
  {
    k := 0;
    if sections != [] {
      var first, rest := sections[0], sections[1..];
      assert sections == [first] + rest;
      if total + |first| > MAX_CONTEXT_CHARS {
        KeepNone(first, rest, total);
      } else {
        k := BudgetKeepsPrefix(rest, total + |first|);
        KeepOneMore(first, rest, Budgeted(rest, total + |first|), total, k);
        k := k + 1;
      }
    }
  }

  lemma {:induction false} KeepNone(section: string, rest: seq<string>, total: int)
    requires total <= MAX_CONTEXT_CHARS < total + |section|
    ensures KeepsFirst([section] + rest, Cut(section, total), total, 0)
  {
    assert ([section] + rest)[..0] == [];
    assert [] + Cut(section, total) == Cut(section, total);
  }

  lemma {:induction false} KeepOneMore(section: string, rest: seq<string>, parts: seq<string>, total: int, k: nat)
    requires KeepsFirst(rest, parts, total + |section|, k)
    ensures KeepsFirst([section] + rest, [section] + parts, total, k + 1)
  {
    var all := [section] + rest;
    assert all[..k + 1] == [section] + rest[..k];
    LengthCons(section, rest[..k]);
  }

  lemma {:induction false} LengthConcat(a: seq<string>, b: seq<string>)
    ensures Length(a + b) == Length(a) + Length(b)
  {
    if a == [] {
      assert a + b == b;
    } else {
      assert (a + b)[1..] == a[1..] + b;
      LengthConcat(a[1..], b);
    }
  }

  lemma {:induction false} KeptLength(all: seq<string>, parts: seq<string>, total: int, k: nat)
    requires KeepsFirst(all, parts, total, k)
    ensures Length(parts) <= MAX_CONTEXT_CHARS - total + 12 && |parts| <= |all|
  {
    if k == |all| {
      assert all[..k] == all;
    } else {
      var cut := Cut(all[k], total + Length(all[..k]));
      LengthConcat(all[..k], cut);
      if cut != [] {
        LengthCons(cut[0], []);
        assert cut == [cut[0]] + [];
      }
    }
  }

  /** One section: added whole, or cut, after which the loop stops. */
  method Place(section: string, parts: seq<string>, total: int, ghost later: seq<string>)
    returns (parts': seq<string>, total': int, stop: bool)
    requires total <= MAX_CONTEXT_CHARS
    ensures total' <= MAX_CONTEXT_CHARS
    ensures parts + Budgeted([section] + later, total) == parts' + if stop then [] else Budgeted(later, total')
  {
    assert ([section] + later)[1..] == later;
    parts', total', stop := parts, total, false;
    if total + |section| > MAX_CONTEXT_CHARS {
      var remaining := MAX_CONTEXT_CHARS - total;
      if remaining > WORTH_TRUNCATING {
        parts' := parts' + [section[..remaining] + TruncationMark()];
      }
      stop := true;
    } else {
      parts' := parts' + [section];
      total' := total' + |section|;
    }
  }

  lemma {:induction false} SomesStep(sections: seq<Option<string>>, n: nat)
    requires n < |sections|
    ensures Somes(sections[n..])
      == if sections[n].Some? then [sections[n].value] + Somes(sections[n + 1..]) else Somes(sections[n + 1..])
  {
    assert sections[n..][1..] == sections[n + 1..];
  }

  /** The section loop with its `continue` and `break`. */
  method ApplyBudget(sections: seq<Option<string>>) returns (parts: seq<string>)
    ensures parts == Budgeted(Somes(sections), 0)
  {
    parts := [];
    var total, n, stop := 0, 0, false;
    ghost var later := Somes(sections);
    ghost var all := Budgeted(later, total);
    while n < |sections| && !stop
      invariant 0 <= n <= |sections| && total <= MAX_CONTEXT_CHARS
      invariant later == Somes(sections[n..])
      invariant all == parts + if stop then [] else Budgeted(later, total)
    {
      SomesStep(sections, n);
      later := Somes(sections[n + 1..]);
      if sections[n].Some? {
        parts, total, stop := Place(sections[n].value, parts, total, later);
      }
      n := n + 1;
    }
  }

  /** raw_text[-MAX_FALLBACK_CHARS:] */
  function FallbackText(text: string): string {
    text[Max(0, |text| - MAX_FALLBACK_CHARS)..]
  }

  function ContextOf(text: string, keywords: seq<string>, heading: Headings): string
    requires Keywords(keywords)
  {
    var collected := Take(AllSpans(text, Lower(text), keywords), MAX_WINDOWS);
    if text == "" then ""
    else if collected == [] then FallbackText(text)
    else
      WindowsOfText(text, keywords, 0);
      Join(Budgeted(Somes(SectionsOf(text, Merged(Sort(collected, SpanLe)), heading)), 0))
  }

  /** `_format_benchmark_context` */
  method FormatBenchmarkContext(text: Option<string>, keywords: seq<string>, heading: Headings) returns (context: string)
    requires Keywords(keywords)
    ensures context == if text.Some? then ContextOf(text.value, keywords, heading) else ""
  {
    if text == None || text.value == "" {
      return "";
    }
    var windows := CollectWindows(text.value, keywords);
    if windows == [] {
      return FallbackText(text.value);
    }
    var merged := Merge(Sort(windows, SpanLe));
    WindowsOfText(text.value, keywords, 0);
    var parts := ApplyBudget(SectionsOf(text.value, merged, heading));
    return Join(parts);
  }

  /** However long the text, the context has at most the budget, one mark and 23 separators. */
  lemma {:induction false} ContextIsBounded(text: string, keywords: seq<string>, heading: Headings)
    requires Keywords(keywords)
    ensures |ContextOf(text, keywords, heading)| <= MAX_CONTEXT_CHARS + 12 + 7 * (MAX_WINDOWS - 1)
  {
    WindowsOfText(text, keywords, 0);
    var m := Merged(Sort(Take(AllSpans(text, Lower(text), keywords), MAX_WINDOWS), SpanLe));
    var sections := Somes(SectionsOf(text, m, heading));
    var k := BudgetKeepsPrefix(sections, 0);
    KeptLength(sections, Budgeted(sections, 0), 0, k);
    JoinLength(Budgeted(sections, 0));
  }
}
