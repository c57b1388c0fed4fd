/** What the chunker makes of a text (services/chunking.py:138-185, 225-227), in terms of its lines
    and of where windows may end and start. */
module ChunkReading {
  import opened Text
  import opened Chunker

  // ----- the lines of a text -----

  /** Only whitespace follows on the line. */
  predicate LineIsOver(s: string) { s == "" || s[0] == '\n' || (IsSpace(s[0]) && LineIsOver(s[1..])) }

  /** The text without the whitespace at the end of each line, a carriage return included. */
  function WithoutLineEnds(s: string): string {
    if s == "" then ""
    else if s[0] != '\n' && LineIsOver(s) then WithoutLineEnds(s[1..])
    else [s[0]] + WithoutLineEnds(s[1..])
  }

  lemma {:induction false} CrlfKeepsOver(s: string)
    ensures LineIsOver(ReplaceCrlf(s)) <==> LineIsOver(s)
  {
    if s == "" {
    } else if |s| >= 2 && s[0] == '\r' && s[1] == '\n' {
      assert s[1..][0] == '\n';
    } else {
      CrlfKeepsOver(s[1..]);
      assert ([s[0]] + ReplaceCrlf(s[1..]))[1..] == ReplaceCrlf(s[1..]);
    }
  }

  lemma {:induction false} CrlfIsALineEnd(s: string)
    ensures WithoutLineEnds(ReplaceCrlf(s)) == WithoutLineEnds(s)
  {
    if s == "" {
    } else if |s| >= 2 && s[0] == '\r' && s[1] == '\n' {
      var r, t := "\n" + ReplaceCrlf(s[2..]), s[1..];
      CrlfIsALineEnd(s[2..]);
      assert t[0] == '\n' && t[1..] == s[2..] && LineIsOver(s);
      assert WithoutLineEnds(s) == WithoutLineEnds(t) == ['\n'] + WithoutLineEnds(s[2..]);
      assert r[0] == '\n' && r[1..] == ReplaceCrlf(s[2..]);
      assert WithoutLineEnds(r) == ['\n'] + WithoutLineEnds(r[1..]);
    } else {
      var r := [s[0]] + ReplaceCrlf(s[1..]);
      CrlfIsALineEnd(s[1..]);
      CrlfKeepsOver(s);
      assert r[1..] == ReplaceCrlf(s[1..]);
    }
  }

  lemma {:induction false} StripRightCons(c: char, s: string)
    ensures StripRight([c] + s) == if IsBlank([c] + s) then "" else [c] + StripRight(s)
  {
    var t := [c] + s;
    if s == "" {
      assert t == [c] && [c][..0] == "";
    } else {
      var n := |s| - 1;
      assert t[|t| - 1] == s[n] && t[..|t| - 1] == [c] + s[..n];
      if IsSpace(s[n]) {
        StripRightCons(c, s[..n]);
        assert IsBlank(t) <==> IsBlank([c] + s[..n]) by { BlankSnoc(c, s); }
      } else {
        assert t[n + 1] == s[n];
      }
    }
  }

  lemma {:induction false} BlankSnoc(c: char, s: string)
    requires s != "" && IsSpace(s[|s| - 1])
    ensures IsBlank([c] + s) <==> IsBlank([c] + s[..|s| - 1])
  {
    var t, u := [c] + s, [c] + s[..|s| - 1];
    assert t == u + [s[|s| - 1]];
    assert forall i :: 0 <= i < |u| ==> t[i] == u[i];
  }

  predicate OneLine(s: string) { forall i :: 0 <= i < |s| ==> s[i] != '\n' }

  lemma {:induction false} OverIff(line: string, rest: string)
    requires OneLine(line) && (rest == "" || rest[0] == '\n')
    ensures LineIsOver(line + rest) <==> IsBlank(line)
  {
    if line == "" {
      assert line + rest == rest;
    } else {
      assert (line + rest)[1..] == line[1..] + rest;
      OverIff(line[1..], rest);
      assert line == [line[0]] + line[1..];
    }
  }

  lemma {:induction false} LineStripped(line: string, rest: string)
    requires OneLine(line) && (rest == "" || rest[0] == '\n')
    ensures WithoutLineEnds(line + rest) == StripRight(line) + WithoutLineEnds(rest)
  {
    if line == "" {
      assert line + rest == rest;
    } else {
      var c, more := line[0], line[1..];
      assert line == [c] + more && line + rest == [c] + (more + rest);
      LineStripped(more, rest);
      OverIff(line, rest);
      LineCons(c, more, more + rest, WithoutLineEnds(rest));
    }
  }

  lemma {:induction false} LineCons(c: char, line: string, all: string, end: string)
    requires c != '\n' && (LineIsOver([c] + all) <==> IsBlank([c] + line))
    requires WithoutLineEnds(all) == StripRight(line) + end
    ensures WithoutLineEnds([c] + all) == StripRight([c] + line) + end
  {
    WithoutCons(c, all);
    StripRightCons(c, line);
    if IsBlank([c] + line) {
      BlankTail(c, line);
      BlankStripsAway(line);
    } else {
      assert [c] + (StripRight(line) + end) == [c] + StripRight(line) + end;
    }
  }

  lemma {:induction false} WithoutCons(c: char, s: string)
    requires c != '\n'
    ensures WithoutLineEnds([c] + s) == if LineIsOver([c] + s) then WithoutLineEnds(s) else [c] + WithoutLineEnds(s)
  {
    assert ([c] + s)[1..] == s;
  }

  lemma {:induction false} BlankTail(c: char, s: string)
    requires IsBlank([c] + s)
    ensures IsBlank(s)
  {
    assert forall i :: 0 <= i < |s| ==> ([c] + s)[i + 1] == s[i];
  }

  lemma {:induction false} BlankStripsAway(s: string)
    requires IsBlank(s)
    ensures StripRight(s) == ""
  {
    if s != "" { BlankStripsAway(s[..|s| - 1]); }
  }

  lemma {:induction false} LinesStripped(s: string)
    ensures StripLines(s) == WithoutLineEnds(s)
    decreases |s|
  {
    var n := RunLength(s, NotNewline);
    assert s == s[..n] + s[n..];
    LineStripped(s[..n], s[n..]);
    if n < |s| {
      LinesStripped(s[n + 1..]);
      assert s[n..][0] == '\n' && s[n..][1..] == s[n + 1..];
    } else {
      assert s[..n] == s && s[n..] == "";
    }
  }

  /** Normalising drops the whitespace at the end of each line, and around the whole. */
  lemma {:induction false} NormalizeReads(s: string)
    ensures Normalize(s) == Strip(WithoutLineEnds(s))
  {
    LinesStripped(ReplaceCrlf(s));
    CrlfIsALineEnd(s);
  }

  // ----- segments -----

  /** The stripped text of each window that is not blank, with the place of the window. */
  function Bodies(text: string, ws: seq<Window>): seq<Segment>
    requires forall n :: 0 <= n < |ws| ==> ws[n].start <= ws[n].end <= |text|
  {
    if ws == [] then []
    else
      var inside := text[ws[0].start..ws[0].end];
      (if IsBlank(inside) then [] else [Segment(Strip(inside), ws[0].start, ws[0].end)]) + Bodies(text, ws[1..])
  }

  lemma {:induction false} YieldIsBody(text: string, w: Window)
    requires w.start <= w.end <= |text|
    ensures Yield(text, w.start, w.end)
      == if IsBlank(text[w.start..w.end]) then [] else [Segment(Strip(text[w.start..w.end]), w.start, w.end)]
  {
    var s := text[w.start..w.end];
    StripOfBlank(s);
  }

  lemma {:induction false} YieldsAreBodies(text: string, ws: seq<Window>)
    requires forall n :: 0 <= n < |ws| ==> ws[n].start <= ws[n].end <= |text|
    ensures YieldAll(text, ws) == Bodies(text, ws)
  {
    if ws != [] {
      YieldIsBody(text, ws[0]);
      YieldsAreBodies(text, ws[1..]);
    }
  }

  /** A text shorter than the minimum is one segment, unless it is empty. Any other is cut into
      windows from its start to its end, each ending at a break and followed with the overlap, and
      the segments are what they show. */
  lemma {:induction false} SplitReads(raw: string, g: Config) returns (ws: seq<Window>)
    requires Legal(g)
    ensures var text := Strip(WithoutLineEnds(raw));
      if |text| < g.minChunkChars
      then SplitSegments(raw, g) == if text == "" then [] else [Segment(text, 0, |text|)]
      else && Tiling(text, g, 0, ws) && WellPlaced(text, g, ws) && SplitSegments(raw, g) == Bodies(text, ws)
  {
    var text := Normalize(raw);
    NormalizeReads(raw);
    ws := [];
    if |text| >= g.minChunkChars {
      ws := Windows(text, g, 0);
      SegmentsAreWindowYields(text, g, 0);
      WindowsEndAtBreaks(text, g, 0);
      YieldsAreBodies(text, ws);
    }
  }
}
