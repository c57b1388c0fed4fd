/** Python string operations on ASCII text: strip, lower, find, decimal printing. */
module Text {
  /** str.isspace on ASCII. */
  predicate IsSpace(c: char) {
    var n := c as int;
    9 <= n <= 13 || 28 <= n <= 32
  }

  function LowerChar(c: char): char {
    if 'A' <= c <= 'Z' then (c as int + 32) as char else c
  }

  function Lower(s: string): (r: string)
    ensures |r| == |s|
    ensures forall i :: 0 <= i < |s| ==> r[i] == LowerChar(s[i])
  {
    seq(|s|, i requires 0 <= i < |s| => LowerChar(s[i]))
  }

  /** Number of leading whitespace characters. */
  function LeadingSpaces(s: string): (n: nat)
    ensures n <= |s|
  {
    if s == "" || !IsSpace(s[0]) then 0 else 1 + LeadingSpaces(s[1..])
  }

  lemma {:induction false} LeadingSpacesIsMaximal(s: string)
    ensures IsBlank(s[..LeadingSpaces(s)])
    ensures LeadingSpaces(s) < |s| ==> !IsSpace(s[LeadingSpaces(s)])
  {
    if s != "" && IsSpace(s[0]) {
      LeadingSpacesIsMaximal(s[1..]);
      var n := LeadingSpaces(s[1..]);
      assert s[..n + 1] == [s[0]] + s[1..][..n];
    }
  }

  /** s.rstrip() */
  function StripRight(s: string): (r: string)
    ensures |r| <= |s|
  {
    if s == "" || !IsSpace(s[|s| - 1]) then s else StripRight(s[..|s| - 1])
  }

  lemma {:induction false} StripRightIsMinimal(s: string)
    ensures var r := StripRight(s);
      && s == r + s[|r|..] && IsBlank(s[|r|..])
      && (r != "" ==> !IsSpace(r[|r| - 1]))
  {
    if s == "" || !IsSpace(s[|s| - 1]) {
      assert s[|s|..] == "";
    } else {
      var front, last := s[..|s| - 1], s[|s| - 1];
      StripRightIsMinimal(front);
      var n := |StripRight(front)|;
      assert s == front + [last] && s[n..] == front[n..] + [last];
      SpaceAppended(front[n..], last);
    }
  }

  lemma {:induction false} SpaceAppended(s: string, c: char)
    requires IsBlank(s) && IsSpace(c)
    ensures IsBlank(s + [c])
  {}

  /** s.strip() */
  function Strip(s: string): string {
    StripRight(s[LeadingSpaces(s)..])
  }

  /** `not s.strip()` */
  predicate IsBlank(s: string) {
    forall i :: 0 <= i < |s| ==> IsSpace(s[i])
  }

  lemma {:induction false} StripOfInk(s: string)
    ensures IsBlank(Strip(s)) ==> IsBlank(s)
  {
    var k := LeadingSpaces(s);
    LeadingSpacesIsMaximal(s);
    StripRightIsMinimal(s[k..]);
    assert s == s[..k] + (Strip(s) + s[k..][|Strip(s)|..]);
  }

  /** Nothing is left of a blank string, and of no other. */
  lemma {:induction false} StripOfBlank(s: string)
    ensures Strip(s) == "" <==> IsBlank(s)
    ensures IsBlank(Strip(s)) <==> IsBlank(s)
  {
    var t := s[LeadingSpaces(s)..];
    StripOfInk(s);
    StripRightIsMinimal(t);
    assert t == Strip(s) + t[|Strip(s)|..];
    assert IsBlank(s) ==> IsBlank(t);
  }

  /** pattern occurs in s at position i. */
  predicate MatchesAt(s: string, pattern: string, i: int) {
    0 <= i && i + |pattern| <= |s| && s[i..i + |pattern|] == pattern
  }

  /** `pattern in s` */
  predicate Contains(s: string, pattern: string) {
    exists i :: 0 <= i <= |s| && MatchesAt(s, pattern, i)
  }

  /** Number of leading characters that satisfy p. */
  function RunLength(s: string, p: char -> bool): (n: nat)
    ensures n <= |s|
    ensures forall i :: 0 <= i < n ==> p(s[i])
    ensures n < |s| ==> !p(s[n])
  {
    if s == "" || !p(s[0]) then 0 else 1 + RunLength(s[1..], p)
  }

  /** The maximal runs of characters that satisfy p: `re.findall("[p]+", s)`. */
  function Runs(s: string, p: char -> bool): seq<string>
    decreases |s|
  {
    if s == "" then []
    else if !p(s[0]) then Runs(s[1..], p)
    else [s[..RunLength(s, p)]] + Runs(s[RunLength(s, p)..], p)
  }

  /** From i to j runs a longest stretch of characters that satisfy p. */
  predicate RunAt(s: string, p: char -> bool, i: int, j: int) {
    && 0 <= i < j <= |s|
    && (forall k :: i <= k < j ==> p(s[k]))
    && (i > 0 ==> !p(s[i - 1])) && (j < |s| ==> !p(s[j]))
  }

  ghost predicate IsRun(s: string, p: char -> bool, r: string) {
    exists i, j :: RunAt(s, p, i, j) && s[i..j] == r
  }

  /** The runs of s[n..] start no earlier than n, so if s[n..] starts afresh they are runs of s. */
  lemma {:induction false} RunAtShift(s: string, p: char -> bool, n: nat, i: int, j: int)
    requires n <= |s| && (n == 0 || !p(s[n - 1]) || n == |s| || !p(s[n]))
    ensures RunAt(s[n..], p, i, j) ==> RunAt(s, p, n + i, n + j)
  {
    if RunAt(s[n..], p, i, j) {
      assert forall k :: n + i <= k < n + j ==> s[k] == s[n..][k - n];
      assert i == 0 ==> p(s[n..][0]);
    }
  }

  lemma {:induction false} RunAtTail(s: string, p: char -> bool, n: nat, i: int, j: int)
    requires n <= i && RunAt(s, p, i, j)
    ensures RunAt(s[n..], p, i - n, j - n) && s[n..][i - n..j - n] == s[i..j]
  {
    assert forall k :: i - n <= k < j - n ==> s[n..][k] == s[n + k];
  }

  lemma {:induction false} RunsOfRest(s: string, p: char -> bool, n: nat, r: string)
    requires n <= |s| && (n == 0 || !p(s[n - 1]) || n == |s| || !p(s[n]))
    ensures IsRun(s[n..], p, r) ==> IsRun(s, p, r)
  {
    if IsRun(s[n..], p, r) {
      var i, j :| RunAt(s[n..], p, i, j) && s[n..][i..j] == r;
      RunAtShift(s, p, n, i, j);
      assert s[n + i..n + j] == r;
    }
  }

  lemma {:induction false} FirstRun(s: string, p: char -> bool, r: string)
    requires s != "" && p(s[0])
    ensures var n := RunLength(s, p);
      IsRun(s, p, r) <==> r == s[..n] || IsRun(s[n..], p, r)
  {
    var n := RunLength(s, p);
    RunsOfRest(s, p, n, r);
    assert RunAt(s, p, 0, n) && s[0..n] == s[..n];
    if IsRun(s, p, r) {
      var i, j :| RunAt(s, p, i, j) && s[i..j] == r;
      if i >= n { RunAtTail(s, p, n, i, j); } else { assert i == 0 && j == n; }
    }
  }

  lemma {:induction false} RunsAreRuns(s: string, p: char -> bool, r: string)
    ensures r in Runs(s, p) <==> IsRun(s, p, r)
    decreases |s|
  {
    if s != "" && !p(s[0]) {
      RunsAreRuns(s[1..], p, r);
      RunsOfRest(s, p, 1, r);
      if IsRun(s, p, r) {
        var i, j :| RunAt(s, p, i, j) && s[i..j] == r;
        RunAtTail(s, p, 1, i, j);
      }
    } else if s != "" {
      RunsAreRuns(s[RunLength(s, p)..], p, r);
      FirstRun(s, p, r);
    }
  }

  // ----- decimal numbers -----

  predicate IsDigit(c: char) { '0' <= c <= '9' }

  function DigitValue(c: char): nat
    requires IsDigit(c)
  {
    c as int - '0' as int
  }

  function DigitChar(d: nat): (c: char)
    requires d < 10
    ensures IsDigit(c) && DigitValue(c) == d
  {
    (d + '0' as int) as char
  }

  predicate AllDigits(s: string) { forall i :: 0 <= i < |s| ==> IsDigit(s[i]) }

  /** int(s) for a run of digits */
  function Value(s: string): nat
    requires AllDigits(s)
  {
    if s == "" then 0 else 10 * Value(s[..|s| - 1]) + DigitValue(s[|s| - 1])
  }

  /** str(n) */
  function Decimal(n: nat): (s: string)
    ensures s != "" && AllDigits(s)
  {
    if n < 10 then [DigitChar(n)] else Decimal(n / 10) + [DigitChar(n % 10)]
  }

  /** int(str(n)) == n */
  lemma {:induction false} ValueOfDecimal(n: nat)
    ensures Value(Decimal(n)) == n
  {
    if n < 10 {
      assert Decimal(n)[..0] == "";
    } else {
      ValueOfDecimal(n / 10);
      assert Decimal(n)[..|Decimal(n)| - 1] == Decimal(n / 10);
    }
  }
}
