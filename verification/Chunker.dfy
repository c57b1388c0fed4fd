/** The text chunker (services/chunking.py): normalisation, the window loop with its
    paragraph and sentence boundaries, and what the windows guarantee. */
module Chunker {
  import opened Basics
  import opened Text

  // ----- normalisation -----

  /** text.replace("\r\n", "\n") */
  function ReplaceCrlf(s: string): string {
    if s == "" then ""
    else if |s| >= 2 && s[0] == '\r' && s[1] == '\n' then "\n" + ReplaceCrlf(s[2..])
    else [s[0]] + ReplaceCrlf(s[1..])
  }

  predicate NotNewline(c: char) { c != '\n' }

  /** text.split("\n"), each line rstripped, joined with "\n" again. */
  function StripLines(s: string): string
    decreases |s|
  {
    var n := RunLength(s, NotNewline);
    if n == |s| then StripRight(s) else StripRight(s[..n]) + "\n" + StripLines(s[n + 1..])
  }

  function Normalize(s: string): string {
    Strip(StripLines(ReplaceCrlf(s)))
  }

  /** The characters that are not whitespace, in order. */
  function Ink(s: string): string {
    if s == "" then "" else (if IsSpace(s[0]) then "" else [s[0]]) + Ink(s[1..])
  }

  lemma {:induction false} InkConcat(a: string, b: string)
    ensures Ink(a + b) == Ink(a) + Ink(b)
  {
    if a == "" {
      assert a + b == b;
    } else {
      assert (a + b)[1..] == a[1..] + b;
      InkConcat(a[1..], b);
    }
  }

  lemma {:induction false} InkOfBlank(s: string)
    requires IsBlank(s)
    ensures Ink(s) == ""
  {
    if s != "" { InkOfBlank(s[1..]); }
  }

  lemma {:induction false} InkOfStripRight(s: string)
    ensures Ink(StripRight(s)) == Ink(s)
  {
    var r := StripRight(s);
    StripRightIsMinimal(s);
    InkConcat(r, s[|r|..]);
    InkOfBlank(s[|r|..]);
  }

  lemma {:induction false} InkOfStrip(s: string)
    ensures Ink(Strip(s)) == Ink(s)
  {
    var n := LeadingSpaces(s);
    LeadingSpacesIsMaximal(s);
    assert s == s[..n] + s[n..];
    InkConcat(s[..n], s[n..]);
    InkOfBlank(s[..n]);
    InkOfStripRight(s[n..]);
  }

  lemma {:induction false} InkCons(c: char, s: string)
    ensures Ink([c] + s) == (if IsSpace(c) then "" else [c]) + Ink(s)
  {
    assert ([c] + s)[1..] == s;
  }

  lemma {:induction false} InkOfCrlf(s: string)
    ensures Ink(ReplaceCrlf(s)) == Ink(s)
  {
    if s == "" {
    } else if |s| >= 2 && s[0] == '\r' && s[1] == '\n' {
      InkOfCrlf(s[2..]);
      InkCons('\n', ReplaceCrlf(s[2..]));
      assert s == ['\r'] + (['\n'] + s[2..]);
      InkCons('\r', ['\n'] + s[2..]);
      InkCons('\n', s[2..]);
    } else {
      InkOfCrlf(s[1..]);
      InkCons(s[0], ReplaceCrlf(s[1..]));
    }
  }

  lemma {:induction false} InkAcrossNewline(a: string, b: string)
    ensures Ink(a + "\n" + b) == Ink(a) + Ink(b)
  {
    InkConcat(a + "\n", b);
    InkConcat(a, "\n");
    assert Ink("\n") == "" by { InkOfBlank("\n"); }
    assert Ink(a) + "" == Ink(a);
  }

  lemma {:induction false} InkOfLines(s: string)
    ensures Ink(StripLines(s)) == Ink(s)
    decreases |s|
  {
    var n := RunLength(s, NotNewline);
    if n == |s| {
      InkOfStripRight(s);
    } else {
      InkOfLines(s[n + 1..]);
      InkOfStripRight(s[..n]);
      InkAcrossNewline(StripRight(s[..n]), StripLines(s[n + 1..]));
      InkAcrossNewline(s[..n], s[n + 1..]);
      assert s == s[..n] + "\n" + s[n + 1..];
    }
  }

  /** Normalisation loses and reorders no character that is not whitespace. */
  lemma {:induction false} NormalizeKeepsInk(s: string)
    ensures Ink(Normalize(s)) == Ink(s)
  {
    InkOfCrlf(s);
    InkOfLines(ReplaceCrlf(s));
    InkOfStrip(StripLines(ReplaceCrlf(s)));
  }

  // ----- windows -----

  datatype Config = Config(targetChars: int, overlapChars: int, minChunkChars: int)

  const DEFAULT_CONFIG := Config(2400, 300, 200)

  /** The validators of the configuration. */
  predicate Legal(g: Config) { g.targetChars >= 1 && g.overlapChars >= 0 && g.minChunkChars >= 1 }

  /** The last i with lo <= i <= from where the pattern occurs, else -1. */
  function LastMatch(s: string, pattern: string, lo: nat, from: int): int
    decreases from - lo + 1
  {
    if from < lo then -1 else if MatchesAt(s, pattern, from) then from else LastMatch(s, pattern, lo, from - 1)
  }

  lemma {:induction false} LastMatchIsLast(s: string, pattern: string, lo: nat, from: int)
    ensures var r := LastMatch(s, pattern, lo, from);
      && (r == -1 || (lo <= r <= from && MatchesAt(s, pattern, r)))
      && forall i :: lo <= i <= from && MatchesAt(s, pattern, i) ==> i <= r
    decreases from - lo + 1
  {
    if lo <= from && !MatchesAt(s, pattern, from) { LastMatchIsLast(s, pattern, lo, from - 1); }
  }

  /** s.rfind(pattern, lo, hi) */
  function Rfind(s: string, pattern: string, lo: nat, hi: int): int {
    LastMatch(s, pattern, lo, hi - |pattern|)
  }

  function Boundary(text: string, g: Config, start: nat, end: int): int {
    var b := Rfind(text, "\n\n", start, end);
    if b <= start + g.minChunkChars then Rfind(text, ". ", start, end) else b
  }

  function WindowEnd(text: string, g: Config, start: nat): int {
    var end := Min(start + g.targetChars, |text|);
    if end < |text| && Boundary(text, g, start, end) > start + g.minChunkChars
    then Boundary(text, g, start, end) + 1
    else end
  }

  function NextStart(g: Config, start: int, end: int): int { Max(end - g.overlapChars, start + 1) }

  datatype Window = Window(start: nat, end: nat)

  lemma {:induction false} WindowEndFacts(text: string, g: Config, start: nat)
    requires Legal(g) && start < |text|
    ensures var end := WindowEnd(text, g, start);
      && start < end <= |text| && end - start <= g.targetChars
      && (end < |text| ==> end - start >= Min(g.targetChars, g.minChunkChars + 2))
      && (end < |text| && g.targetChars <= g.minChunkChars + 2 ==> end == start + g.targetChars)
      && start < NextStart(g, start, end) <= end
  {
    var end := Min(start + g.targetChars, |text|);
    LastMatchIsLast(text, "\n\n", start, end - 2);
    LastMatchIsLast(text, ". ", start, end - 2);
  }

  /** The windows the loop walks through, from a start on. */
  function Windows(text: string, g: Config, start: nat): seq<Window>
    requires Legal(g)
    decreases |text| - start
  {
    if start >= |text| then []
    else
      WindowEndFacts(text, g, start);
      var end := WindowEnd(text, g, start);
      [Window(start, end)] + (if end >= |text| then [] else Windows(text, g, NextStart(g, start, end)))
  }

  predicate GoodWindow(text: string, g: Config, w: Window) {
    w.start < w.end <= |text| && w.end - w.start <= g.targetChars
  }

  /** Consecutive windows: a later start, no gap, and a bounded overlap. */
  predicate Follows(g: Config, w: Window, v: Window) {
    w.start < v.start <= w.end && w.end - v.start <= g.overlapChars
  }

  predicate Tiling(text: string, g: Config, start: nat, ws: seq<Window>) {
    && ws != [] && ws[0].start == start && ws[|ws| - 1].end == |text|
    && (forall i :: 0 <= i < |ws| ==> GoodWindow(text, g, ws[i]))
    && (forall i :: 0 <= i < |ws| - 1 ==> Follows(g, ws[i], ws[i + 1]) && ws[i].end < |text|)
    && |ws| <= |text| - start
  }

  /** For every text and every legal configuration the windows start strictly later each time,
      are not empty, at most target_chars long, leave no gap, overlap by at most overlap_chars
      and reach the end; there are at most as many as characters. */
  lemma {:induction false} WindowsTile(text: string, g: Config, start: nat)
    requires Legal(g) && start < |text|
    ensures Tiling(text, g, start, Windows(text, g, start))
    decreases |text| - start
  {
    WindowEndFacts(text, g, start);
    var end := WindowEnd(text, g, start);
    if end < |text| {
      var next := NextStart(g, start, end);
      WindowsTile(text, g, next);
      var rest := Windows(text, g, next);
      assert Windows(text, g, start) == [Window(start, end)] + rest;
    }
  }

  /** The text the windows show when each stops where the next begins. */
  function Stitch(text: string, ws: seq<Window>): string
    requires ws != []
    requires forall i :: 0 <= i < |ws| ==> ws[i].start <= ws[i].end <= |text|
    requires forall i :: 0 <= i < |ws| - 1 ==> ws[i].start <= ws[i + 1].start
  {
    if |ws| == 1 then text[ws[0].start..ws[0].end]
    else text[ws[0].start..ws[1].start] + Stitch(text, ws[1..])
  }

  lemma {:induction false} StitchCons(text: string, w: Window, ws: seq<Window>)
    requires ws != [] && w.start <= w.end <= |text| && w.start <= ws[0].start
    requires forall i :: 0 <= i < |ws| ==> ws[i].start <= ws[i].end <= |text|
    requires forall i :: 0 <= i < |ws| - 1 ==> ws[i].start <= ws[i + 1].start
    ensures Stitch(text, [w] + ws) == text[w.start..ws[0].start] + Stitch(text, ws)
  {
    assert ([w] + ws)[1..] == ws;
  }

  lemma {:induction false} SplitSlice(text: string, i: nat, j: nat)
    requires i <= j <= |text|
    ensures text[i..] == text[i..j] + text[j..]
  {}

  /** Round trip: dropping the overlaps gives the text back. */
  lemma {:induction false} StitchingRestoresText(text: string, g: Config, start: nat)
    requires Legal(g) && start < |text|
    ensures Tiling(text, g, start, Windows(text, g, start))
    ensures Stitch(text, Windows(text, g, start)) == text[start..]
    decreases |text| - start
  {
    WindowsTile(text, g, start);
    WindowEndFacts(text, g, start);
    var end := WindowEnd(text, g, start);
    if end < |text| {
      var next := NextStart(g, start, end);
      StitchingRestoresText(text, g, next);
      assert Windows(text, g, start) == [Window(start, end)] + Windows(text, g, next);
      StitchCons(text, Window(start, end), Windows(text, g, next));
      SplitSlice(text, start, next);
    } else {
      assert Windows(text, g, start) == [Window(start, end)];
      assert text[start..end] == text[start..];
    }
  }

  // ----- where windows end and start -----

  /** Past the minimum size, and with room before e, the pattern occurs at i. */
  predicate BreakAt(text: string, pattern: string, g: Config, start: int, e: int, i: int) {
    start + g.minChunkChars < i && i + |pattern| <= e && MatchesAt(text, pattern, i)
  }

  ghost predicate LastBreak(text: string, pattern: string, g: Config, start: int, e: int, i: int) {
    BreakAt(text, pattern, g, start, e, i) && forall j :: BreakAt(text, pattern, g, start, e, j) ==> j <= i
  }

  ghost predicate NoBreak(text: string, pattern: string, g: Config, start: int, e: int) {
    forall i :: !BreakAt(text, pattern, g, start, e, i)
  }

  /** A window ends with the text or where the target size puts it; but before that at the last
      paragraph break past the minimum size, if there is one, or else at the last sentence end. */
  ghost predicate EndsAtBreak(text: string, g: Config, w: Window) {
    var e := w.start + g.targetChars;
    if e >= |text| then w.end == |text|
    else
      && (forall i :: LastBreak(text, "\n\n", g, w.start, e, i) ==> w.end == i + 1)
      && (NoBreak(text, "\n\n", g, w.start, e) ==>
            && (forall i :: LastBreak(text, ". ", g, w.start, e, i) ==> w.end == i + 1)
            && (NoBreak(text, ". ", g, w.start, e) ==> w.end == e))
  }

  lemma {:induction false} RfindBreaks(text: string, pattern: string, g: Config, start: nat, e: int)
    requires Legal(g)
    ensures var b := Rfind(text, pattern, start, e);
      if b > start + g.minChunkChars then LastBreak(text, pattern, g, start, e, b)
      else NoBreak(text, pattern, g, start, e)
  {
    LastMatchIsLast(text, pattern, start, e - |pattern|);
  }

  lemma {:induction false} EndIsAtBreak(text: string, g: Config, start: nat, end: nat)
    requires Legal(g) && start < |text| && end == WindowEnd(text, g, start)
    ensures EndsAtBreak(text, g, Window(start, end))
  {
    var e := start + g.targetChars;
    if e < |text| {
      RfindBreaks(text, "\n\n", g, start, e);
      RfindBreaks(text, ". ", g, start, e);
    }
  }

  /** The next window starts so that the overlap is what the configuration asks for, or one
      character later than this one where that would not move on. */
  predicate StartsWithOverlap(g: Config, w: Window, v: Window) {
    if w.end - g.overlapChars > w.start then v.start == w.end - g.overlapChars else v.start == w.start + 1
  }

  ghost predicate WellPlaced(text: string, g: Config, ws: seq<Window>) {
    && (forall n :: 0 <= n < |ws| ==> EndsAtBreak(text, g, ws[n]))
    && (forall n :: 0 <= n < |ws| - 1 ==> StartsWithOverlap(g, ws[n], ws[n + 1]))
  }

  lemma {:induction false} WellPlacedCons(text: string, g: Config, w: Window, ws: seq<Window>)
    requires EndsAtBreak(text, g, w) && WellPlaced(text, g, ws) && ws != [] && StartsWithOverlap(g, w, ws[0])
    ensures WellPlaced(text, g, [w] + ws)
  {
    var all := [w] + ws;
    forall n | 0 <= n < |all| ensures EndsAtBreak(text, g, all[n]) { if n > 0 { assert all[n] == ws[n - 1]; } }
    forall n | 0 <= n < |all| - 1 ensures StartsWithOverlap(g, all[n], all[n + 1]) {
      if n > 0 { assert all[n] == ws[n - 1] && all[n + 1] == ws[n]; }
    }
  }

  /** Every window of every text ends at a break and is followed with that overlap. */
  lemma {:induction false} WindowsEndAtBreaks(text: string, g: Config, start: nat)
    requires Legal(g) && start < |text|
    ensures WellPlaced(text, g, Windows(text, g, start))
    decreases |text| - start
  {
    WindowEndFacts(text, g, start);
    var end := WindowEnd(text, g, start);
    EndIsAtBreak(text, g, start, end);
    if end < |text| {
      var next := NextStart(g, start, end);
      WindowsEndAtBreaks(text, g, next);
      WindowsTile(text, g, next);
      WellPlacedCons(text, g, Window(start, end), Windows(text, g, next));
      assert Windows(text, g, start) == [Window(start, end)] + Windows(text, g, next);
    } else {
      assert Windows(text, g, start) == [Window(start, end)];
    }
  }

  // ----- the loop -----

  datatype Segment = Segment(text: string, charStart: nat, charEnd: nat)

  /** What one window yields: its stripped text, unless that is empty. */
  function Yield(text: string, start: nat, end: nat): seq<Segment>
    requires start <= end <= |text|
  {
    var body := Strip(text[start..end]);
    if body == "" then [] else [Segment(body, start, end)]
  }

  /** What the loop yields from a start on. */
  function SegmentsFrom(text: string, g: Config, start: nat): seq<Segment>
    requires Legal(g)
    decreases |text| - start
  {
    if start >= |text| then []
    else
      WindowEndFacts(text, g, start);
      var end := WindowEnd(text, g, start);
      Yield(text, start, end) + (if end >= |text| then [] else SegmentsFrom(text, g, NextStart(g, start, end)))
  }

  /** Where a window ends, as the loop computes it. */
  method ChooseEnd(text: string, g: Config, start: nat) returns (end: int)
    ensures end == WindowEnd(text, g, start)
    ensures Legal(g) && start < |text| ==> 0 <= end && EndsAtBreak(text, g, Window(start, end))
  {
    if Legal(g) && start < |text| {
      WindowEndFacts(text, g, start);
      EndIsAtBreak(text, g, start, WindowEnd(text, g, start));
    }
    end := Min(start + g.targetChars, |text|);
    if end < |text| {
      var boundary := Rfind(text, "\n\n", start, end);
      if boundary <= start + g.minChunkChars {
        boundary := Rfind(text, ". ", start, end);
      }
      if boundary > start + g.minChunkChars {
        end := boundary + 1;
      }
    }
  }

  /** Where the next window starts. The `next_start <= start` branch is never taken. */
  method ChooseNext(g: Config, start: nat, end: nat) returns (next: nat)
    requires start < end
    ensures next == NextStart(g, start, end)
  {
    next := Max(end - g.overlapChars, start + 1);
    if next <= start {
      next := end;
    }
  }

  /** The window's text, stripped; nothing when only whitespace is left. */
  method Emit(text: string, start: nat, end: nat) returns (found: seq<Segment>)
    requires start <= end <= |text|
    ensures found == Yield(text, start, end)
  {
    var chunkText := Strip(text[start..end]);
    if chunkText != "" {
      found := [Segment(chunkText, start, end)];
    } else {
      found := [];
    }
  }

  lemma {:induction false} OneTurn(text: string, g: Config, start: nat, end: nat, segments: seq<Segment>)
    requires Legal(g) && start < |text| && end == WindowEnd(text, g, start)
    ensures start < end <= |text| && start < NextStart(g, start, end) <= end
    ensures segments + SegmentsFrom(text, g, start)
      == (segments + Yield(text, start, end))
        + (if end >= |text| then [] else SegmentsFrom(text, g, NextStart(g, start, end)))
  {
    WindowEndFacts(text, g, start);
    Associates(segments, Yield(text, start, end),
      if end >= |text| then [] else SegmentsFrom(text, g, NextStart(g, start, end)));
  }

  lemma {:induction false} Associates(a: seq<Segment>, b: seq<Segment>, c: seq<Segment>)
    ensures a + (b + c) == (a + b) + c
  {}

  /** The window loop as it runs. */
  method SplitLoop(text: string, g: Config) returns (segments: seq<Segment>)
    requires Legal(g)
    ensures segments == SegmentsFrom(text, g, 0)
    ensures text != "" ==>
      && Tiling(text, g, 0, Windows(text, g, 0)) && WellPlaced(text, g, Windows(text, g, 0))
      && segments == YieldAll(text, Windows(text, g, 0))
  {
    if text != "" {
      SegmentsAreWindowYields(text, g, 0);
      WindowsEndAtBreaks(text, g, 0);
    }
    segments := [];
    ghost var all := SegmentsFrom(text, g, 0);
    ghost var rest := all;
    var start := 0;
    while start < |text|
      invariant 0 <= start
      invariant rest == SegmentsFrom(text, g, start)
      invariant segments + rest == all
      decreases |text| - start
    {
      var end := ChooseEnd(text, g, start);
      OneTurn(text, g, start, end, segments);
      var found := Emit(text, start, end);
      segments := segments + found;
      if end >= |text| {
        return;
      }
      start := ChooseNext(g, start, end);
      rest := SegmentsFrom(text, g, start);
    }
  }

  /** `_split_text`: normalise, then one segment for a short text, else the window loop. */
  method SplitText(raw: string, g: Config) returns (segments: seq<Segment>)
    requires Legal(g)
    ensures segments == SplitSegments(raw, g)
  {
    var text := Normalize(raw);
    if |text| < g.minChunkChars {
      segments := [];
      if text != "" {
        segments := [Segment(text, 0, |text|)];
      }
    } else {
      segments := SplitLoop(text, g);
    }
  }

  function SplitSegments(raw: string, g: Config): seq<Segment>
    requires Legal(g)
  {
    var text := Normalize(raw);
    if |text| < g.minChunkChars
    then (if text == "" then [] else [Segment(text, 0, |text|)])
    else SegmentsFrom(text, g, 0)
  }

  /** The yields of a list of windows. */
  function YieldAll(text: string, ws: seq<Window>): seq<Segment>
    requires forall i :: 0 <= i < |ws| ==> ws[i].start <= ws[i].end <= |text|
  {
    if ws == [] then [] else Yield(text, ws[0].start, ws[0].end) + YieldAll(text, ws[1..])
  }

  /** The segments are the yields of exactly the windows above, in their order. */
  lemma {:induction false} SegmentsAreWindowYields(text: string, g: Config, start: nat)
    requires Legal(g) && start < |text|
    ensures Tiling(text, g, start, Windows(text, g, start))
    ensures SegmentsFrom(text, g, start) == YieldAll(text, Windows(text, g, start))
    decreases |text| - start
  {
    WindowsTile(text, g, start);
    WindowEndFacts(text, g, start);
    var end := WindowEnd(text, g, start);
    if end < |text| {
      var next := NextStart(g, start, end);
      SegmentsAreWindowYields(text, g, next);
      assert Windows(text, g, start)[1..] == Windows(text, g, next);
    } else {
      assert Windows(text, g, start)[1..] == [];
      assert YieldAll(text, []) == [];
    }
  }

  // ----- coverage -----

  /** The segment shows position p of the text: its stripped body has that very character there. */
  predicate Shows(text: string, s: Segment, p: nat) {
    && s.charStart <= p < s.charEnd <= |text|
    && var offset := s.charStart + LeadingSpaces(text[s.charStart..s.charEnd]);
       offset <= p < offset + |s.text| && s.text[p - offset] == text[p]
  }

  lemma {:induction false} StripRightKeepsInk(w: string, p: nat)
    requires p < |w| && !IsSpace(w[p])
    ensures p < |StripRight(w)| && StripRight(w)[p] == w[p]
  {
    var r := StripRight(w);
    StripRightIsMinimal(w);
    var tail := w[|r|..];
    assert p < |r| by {
      forall i | |r| <= i < |w| ensures IsSpace(w[i]) { assert w[i] == tail[i - |r|]; }
    }
    assert (r + tail)[p] == w[p];
  }

  lemma {:induction false} StripKeepsInk(w: string, p: nat)
    requires p < |w| && !IsSpace(w[p])
    ensures var n := LeadingSpaces(w); n <= p < n + |Strip(w)| && Strip(w)[p - n] == w[p]
  {
    var n := LeadingSpaces(w);
    LeadingSpacesIsMaximal(w);
    assert n <= p;
    StripRightKeepsInk(w[n..], p - n);
  }

  lemma {:induction false} YieldShows(text: string, start: nat, end: nat, p: nat)
    requires start <= p < end <= |text| && !IsSpace(text[p])
    ensures |Yield(text, start, end)| == 1 && Shows(text, Yield(text, start, end)[0], p)
  {
    StripKeepsInk(text[start..end], p - start);
  }

  /** Every character that is not whitespace lies in a yielded segment, in its place. */
  lemma {:induction false} EveryInkIsYielded(text: string, g: Config, start: nat, p: nat)
    requires Legal(g) && start <= p < |text| && !IsSpace(text[p])
    ensures exists i :: 0 <= i < |SegmentsFrom(text, g, start)| && Shows(text, SegmentsFrom(text, g, start)[i], p)
    decreases |text| - start
  {
    WindowEndFacts(text, g, start);
    var end := WindowEnd(text, g, start);
    var first := Yield(text, start, end);
    var all := SegmentsFrom(text, g, start);
    if p < end {
      YieldShows(text, start, end, p);
      assert all[0] == first[0];
    } else {
      var next := NextStart(g, start, end);
      EveryInkIsYielded(text, g, next, p);
      var rest := SegmentsFrom(text, g, next);
      var i :| 0 <= i < |rest| && Shows(text, rest[i], p);
      assert all[|first| + i] == rest[i];
    }
  }

  lemma {:induction false} WholeTextShows(text: string, p: nat)
    requires p < |text| && LeadingSpaces(text) == 0
    ensures Shows(text, Segment(text, 0, |text|), p)
  {
    assert text[0..|text|] == text;
  }

  lemma {:induction false} SplitOf(raw: string, g: Config)
    requires Legal(g)
    ensures var text := Normalize(raw);
      SplitSegments(raw, g) == if 0 < |text| < g.minChunkChars then [Segment(text, 0, |text|)] else SegmentsFrom(text, g, 0)
  {}

  /** The same for all that `_split_text` yields, short texts included. */
  lemma {:induction false} SplitCoversTheText(raw: string, g: Config, p: nat)
    requires Legal(g) && p < |Normalize(raw)| && !IsSpace(Normalize(raw)[p])
    ensures exists s :: s in SplitSegments(raw, g) && Shows(Normalize(raw), s, p)
  {
    SplitOf(raw, g);
    var text := Normalize(raw);
    var segments := SplitSegments(raw, g);
    if |text| < g.minChunkChars {
      NormalizedIsStripped(raw);
      WholeTextShows(text, p);
      assert segments[0] in segments;
    } else {
      EveryInkIsYielded(text, g, 0, p);
      var i :| 0 <= i < |segments| && Shows(text, segments[i], p);
      assert segments[i] in segments;
    }
  }

  lemma {:induction false} NormalizedIsStripped(raw: string)
    ensures LeadingSpaces(Normalize(raw)) == 0
  {
    var s := StripLines(ReplaceCrlf(raw));
    LeadingSpacesIsMaximal(s);
    StripRightIsMinimal(s[LeadingSpaces(s)..]);
  }

  // ----- progress -----

  predicate EndsLater(w: Window, v: Window) { w.end < v.end }

  predicate EndsAdvance(ws: seq<Window>) {
    forall i :: 0 <= i < |ws| - 1 ==> EndsLater(ws[i], ws[i + 1])
  }

  /** How far a window end is sure to move. */
  function Progress(g: Config): int { Min(g.targetChars, g.minChunkChars + 2) - g.overlapChars }

  lemma {:induction false} NextEndsLater(text: string, g: Config, start: nat)
    requires Legal(g) && start < |text| && WindowEnd(text, g, start) < |text|
    ensures var end := WindowEnd(text, g, start); var last := WindowEnd(text, g, NextStart(g, start, end));
      && (last >= end + Progress(g) || last == |text|)
      && (g.targetChars <= g.minChunkChars + 2 ==> last > end)
  {
    WindowEndFacts(text, g, start);
    WindowEndFacts(text, g, NextStart(g, start, WindowEnd(text, g, start)));
  }

  lemma {:induction false} EndsAdvanceWhen(text: string, g: Config, start: nat)
    requires Legal(g) && start < |text|
    requires g.targetChars <= g.minChunkChars + 2 || g.overlapChars < g.minChunkChars + 2
    ensures EndsAdvance(Windows(text, g, start))
    decreases |text| - start
  {
    WindowEndFacts(text, g, start);
    var end := WindowEnd(text, g, start);
    if end < |text| {
      var next := NextStart(g, start, end);
      NextEndsLater(text, g, start);
      EndsAdvanceWhen(text, g, next);
      WindowsTile(text, g, next);
      var rest := Windows(text, g, next);
      assert rest[0].end == WindowEnd(text, g, next);
      assert Windows(text, g, start) == [Window(start, end)] + rest;
    }
  }

  /** x...x. x...x, with its one sentence break two past the minimum. */
  function StallingText(g: Config): string
    requires Legal(g)
  {
    var b := g.minChunkChars + 2;
    seq(b + 2 + g.targetChars, i => if i == b then '.' else if i == b + 1 then ' ' else 'x')
  }

  lemma {:induction false} StallingTextIsNormal(g: Config)
    requires Legal(g)
    ensures Normalize(StallingText(g)) == StallingText(g)
  {
    var t := StallingText(g);
    assert forall i :: 0 <= i < |t| ==> t[i] != '\r' && t[i] != '\n';
    PlainLine(t);
    assert RunLength(t, NotNewline) == |t|;
    assert t[0] == 'x' && t[|t| - 1] == 'x';
    assert t[0..] == t;
  }

  lemma {:induction false} PlainLine(s: string)
    requires forall i :: 0 <= i < |s| ==> s[i] != '\r'
    ensures ReplaceCrlf(s) == s
  {
    if s != "" { PlainLine(s[1..]); }
  }

  lemma {:induction false} StallingBreak(g: Config, i: int)
    requires Legal(g)
    ensures MatchesAt(StallingText(g), ". ", i) <==> i == g.minChunkChars + 2
    ensures !MatchesAt(StallingText(g), "\n\n", i)
  {
    var t := StallingText(g);
    var b := g.minChunkChars + 2;
    if 0 <= i && i + 2 <= |t| {
      assert t[i..i + 2] == [t[i], t[i + 1]];
    }
  }

  lemma {:induction false} StallingParagraph(g: Config, lo: nat, from: int)
    requires Legal(g)
    ensures LastMatch(StallingText(g), "\n\n", lo, from) == -1
  {
    LastMatchIsLast(StallingText(g), "\n\n", lo, from);
    StallingBreak(g, LastMatch(StallingText(g), "\n\n", lo, from));
  }

  lemma {:induction false} StallingSentence(g: Config, lo: nat, from: int)
    requires Legal(g) && lo <= g.minChunkChars + 2
    ensures LastMatch(StallingText(g), ". ", lo, from) == if g.minChunkChars + 2 <= from then g.minChunkChars + 2 else -1
  {
    LastMatchIsLast(StallingText(g), ". ", lo, from);
    StallingBreak(g, LastMatch(StallingText(g), ". ", lo, from));
    StallingBreak(g, g.minChunkChars + 2);
  }

  lemma {:induction false} StallingEnd(g: Config, start: nat)
    requires Legal(g) && g.targetChars > g.minChunkChars + 2 && start <= 1
    ensures WindowEnd(StallingText(g), g, start) == g.minChunkChars + 3
  {
    StallingParagraph(g, start, start + g.targetChars - 2);
    StallingSentence(g, start, start + g.targetChars - 2);
  }

  lemma {:induction false} FirstTwoWindows(text: string, g: Config, start: nat)
    requires Legal(g) && start < |text| && WindowEnd(text, g, start) < |text|
    ensures var end := WindowEnd(text, g, start); var next := NextStart(g, start, end); var ws := Windows(text, g, start);
      && next < |text| && |ws| >= 2
      && ws[0] == Window(start, end) && ws[1] == Window(next, WindowEnd(text, g, next))
  {
    WindowEndFacts(text, g, start);
    var next := NextStart(g, start, WindowEnd(text, g, start));
    assert Windows(text, g, start)[1..] == Windows(text, g, next);
  }

  /** With a large overlap the first two windows of that text end at the same place. */
  lemma {:induction false} Stall(g: Config)
    requires Legal(g) && g.targetChars > g.minChunkChars + 2 && g.overlapChars >= g.minChunkChars + 2
    ensures var ws := Windows(StallingText(g), g, 0);
      && |ws| >= 2 && ws[0] == Window(0, g.minChunkChars + 3) && ws[1] == Window(1, g.minChunkChars + 3)
  {
    StallingEnd(g, 0);
    StallingEnd(g, 1);
    FirstTwoWindows(StallingText(g), g, 0);
  }

  lemma {:induction false} EqualEndsStall(ws: seq<Window>)
    requires |ws| >= 2 && ws[0].end == ws[1].end
    ensures !EndsAdvance(ws)
  {
    assert !EndsLater(ws[0], ws[0 + 1]);
  }

  /** When each window is sure to end later than the one before: exactly for these configurations. */
  lemma {:induction false} StrictProgressIff(g: Config)
    requires Legal(g)
    ensures (forall raw: string :: EndsAdvance(Windows(Normalize(raw), g, 0)))
      <==> (g.targetChars <= g.minChunkChars + 2 || g.overlapChars < g.minChunkChars + 2)
  {
    if g.targetChars <= g.minChunkChars + 2 || g.overlapChars < g.minChunkChars + 2 {
      forall raw: string ensures EndsAdvance(Windows(Normalize(raw), g, 0)) {
        if Normalize(raw) != "" { EndsAdvanceWhen(Normalize(raw), g, 0); }
      }
    } else {
      Stall(g);
      StallingTextIsNormal(g);
      EqualEndsStall(Windows(Normalize(StallingText(g)), g, 0));
    }
  }

  /** The defaults (2400, 300, 200) are on the wrong side. */
  lemma {:induction false} DefaultsCanStall()
    ensures Legal(DEFAULT_CONFIG)
    ensures !(forall raw: string :: EndsAdvance(Windows(Normalize(raw), DEFAULT_CONFIG, 0)))
  {
    StrictProgressIff(DEFAULT_CONFIG);
  }

  predicate EndsBy(d: int, n: nat, w: Window, v: Window) { v.end >= w.end + d || v.end == n }

  predicate Paced(ws: seq<Window>, d: int, n: nat) {
    && ws != [] && (forall i :: 0 <= i < |ws| - 1 ==> EndsBy(d, n, ws[i], ws[i + 1]))
    && (|ws| >= 2 ==> ws[0].end + (|ws| - 2) * d < n)
  }

  lemma {:induction false} PacedCons(w: Window, rest: seq<Window>, d: int, n: nat)
    requires Paced(rest, d, n) && EndsBy(d, n, w, rest[0]) && w.end < n
    ensures Paced([w] + rest, d, n)
  {
    var ws := [w] + rest;
    assert (|rest| - 1) * d == (|rest| - 2) * d + d;
    if |rest| == 1 { assert (|ws| - 2) * d == 0; }
  }

  lemma {:induction false} PacedCount(ws: seq<Window>, d: nat, n: nat)
    requires Paced(ws, d, n) && n > 0 && (|ws| >= 2 ==> ws[0].end >= d)
    ensures (|ws| - 1) * d < n
  {
    assert (|ws| - 1) * d == (|ws| - 2) * d + d;
  }

  /** With d = min(target, min_chunk + 2) - overlap >= 1 every end is at least d later or the text
      end, and k windows over n characters satisfy (k - 1) * d < n. */
  lemma {:induction false} ProgressBound(text: string, g: Config, start: nat)
    requires Legal(g) && start < |text| && Progress(g) >= 1
    ensures var ws := Windows(text, g, start); var d := Progress(g);
      && (forall i :: 0 <= i < |ws| - 1 ==> EndsBy(d, |text|, ws[i], ws[i + 1]))
      && (|ws| - 1) * d < |text|
  {
    WindowsPaced(text, g, start);
    PacedCount(Windows(text, g, start), Progress(g), |text|);
  }

  lemma {:induction false} WindowsPaced(text: string, g: Config, start: nat)
    requires Legal(g) && start < |text| && Progress(g) >= 1
    ensures Paced(Windows(text, g, start), Progress(g), |text|)
    ensures Windows(text, g, start)[0].end == WindowEnd(text, g, start)
    ensures |Windows(text, g, start)| >= 2 ==> Windows(text, g, start)[0].end >= Progress(g)
    decreases |text| - start
  {
    WindowEndFacts(text, g, start);
    var end := WindowEnd(text, g, start);
    if end < |text| {
      var next := NextStart(g, start, end);
      NextEndsLater(text, g, start);
      WindowsPaced(text, g, next);
      PacedCons(Window(start, end), Windows(text, g, next), Progress(g), |text|);
    }
  }
}
