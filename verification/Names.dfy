/** The name normalisers of the comparator (agents/comparator.py:46-201). */
module Names {
  import opened Wrappers
  import opened Text

  predicate Separator(c: char) { c == '_' || c == '/' }

  /** re.sub("[p]+", " ", s) */
  function SubRuns(s: string, p: char -> bool): string
    decreases |s|
  {
    if s == "" then ""
    else if p(s[0]) then " " + SubRuns(s[RunLength(s, p)..], p)
    else [s[0]] + SubRuns(s[1..], p)
  }

  /** s.replace(a, b) for single characters */
  function Replace(s: string, a: char, b: char): (r: string)
    ensures |r| == |s|
    ensures forall i :: 0 <= i < |s| ==> r[i] == if s[i] == a then b else s[i]
  {
    seq(|s|, i requires 0 <= i < |s| => if s[i] == a then b else s[i])
  }

  /** s.replace(" ", "") */
  function DropSpaces(s: string): string {
    if s == "" then "" else (if s[0] == ' ' then "" else [s[0]]) + DropSpaces(s[1..])
  }

  function NormalizeName(s: string): string {
    SubRuns(SubRuns(Lower(Strip(s)), Separator), IsSpace)
  }

  // ----- what normalised names look like -----

  /** Characters that normalisation leaves alone, other than the space. */
  predicate Plain(c: char) { !IsSpace(c) && !Separator(c) && !('A' <= c <= 'Z') }

  predicate AllPlain(s: string) { forall i :: 0 <= i < |s| ==> Plain(s[i]) }

  /** Plain words with one space between them, perhaps one before and one after. */
  predicate Tidy(s: string) {
    && (forall i :: 0 <= i < |s| ==> s[i] == ' ' || Plain(s[i]))
    && NoDoubleSpace(s)
  }

  /** Spaces and characters that the substitution kept. */
  predicate Kept(r: string, p: char -> bool, keep: char -> bool) {
    forall i :: 0 <= i < |r| ==> r[i] == ' ' || (keep(r[i]) && !p(r[i]))
  }

  lemma {:induction false} SubRunsChars(s: string, p: char -> bool, keep: char -> bool)
    requires forall i :: 0 <= i < |s| ==> p(s[i]) || keep(s[i])
    ensures Kept(SubRuns(s, p), p, keep)
    decreases |s|
  {
    if s == "" {
    } else if p(s[0]) {
      var rest := s[RunLength(s, p)..];
      SubRunsChars(rest, p, keep);
      assert SubRuns(s, p) == " " + SubRuns(rest, p);
    } else {
      SubRunsChars(s[1..], p, keep);
      assert p(s[0]) || keep(s[0]);
      assert SubRuns(s, p) == [s[0]] + SubRuns(s[1..], p);
    }
  }

  predicate DoubleAt(s: string, i: int) { 0 <= i < |s| - 1 && s[i] == ' ' && s[i + 1] == ' ' }

  predicate NoDoubleSpace(s: string) { forall i :: 0 <= i < |s| ==> !DoubleAt(s, i) }

  lemma {:induction false} NoDoubleSpaceCons(c: char, s: string)
    requires NoDoubleSpace(s) && (s == "" || c != ' ' || s[0] != ' ')
    ensures NoDoubleSpace([c] + s)
  {
    var r := [c] + s;
    forall i | 0 <= i < |r| ensures !DoubleAt(r, i) {
      if i > 0 { assert !DoubleAt(s, i - 1); }
    }
  }

  lemma {:induction false} SubRunsCollapses(s: string)
    ensures NoDoubleSpace(SubRuns(s, IsSpace))
    ensures s != "" && !IsSpace(s[0]) ==> SubRuns(s, IsSpace) != "" && SubRuns(s, IsSpace)[0] == s[0]
    decreases |s|
  {
    if s == "" {
    } else if IsSpace(s[0]) {
      var rest := s[RunLength(s, IsSpace)..];
      SubRunsCollapses(rest);
      NoDoubleSpaceCons(' ', SubRuns(rest, IsSpace));
    } else {
      SubRunsCollapses(s[1..]);
      NoDoubleSpaceCons(s[0], SubRuns(s[1..], IsSpace));
    }
  }

  predicate NotUpper(c: char) { !('A' <= c <= 'Z') }
  predicate Unmarked(c: char) { NotUpper(c) && !Separator(c) }

  lemma {:induction false} NamesAreTidy(s: string)
    ensures Tidy(NormalizeName(s))
  {
    var low := Lower(Strip(s));
    SubRunsChars(low, Separator, NotUpper);
    var mid := SubRuns(low, Separator);
    assert forall i :: 0 <= i < |mid| ==> mid[i] == ' ' || (NotUpper(mid[i]) && !Separator(mid[i]));
    assert forall i :: 0 <= i < |mid| ==> Unmarked(mid[i]);
    SubRunsChars(mid, IsSpace, Unmarked);
    SubRunsCollapses(mid);
    var n := SubRuns(mid, IsSpace);
    assert forall i :: 0 <= i < |n| ==> n[i] == ' ' || (Unmarked(n[i]) && !IsSpace(n[i]));
  }

  /** Writing another separator for the spaces is undone by collapsing that separator's runs. */
  lemma {:induction false} SubRunsUndo(n: string, sep: char, p: char -> bool)
    requires NoDoubleSpace(n) && p(sep) && forall i :: 0 <= i < |n| && n[i] != ' ' ==> !p(n[i])
    ensures SubRuns(Replace(n, ' ', sep), p) == n
    decreases |n|
  {
    if n != "" {
      var r := Replace(n, ' ', sep);
      assert r[1..] == Replace(n[1..], ' ', sep);
      assert NoDoubleSpace(n[1..]) by {
        forall i | 0 <= i < |n[1..]| ensures !DoubleAt(n[1..], i) { assert !DoubleAt(n, i + 1); }
      }
      SubRunsUndo(n[1..], sep, p);
      assert n == [n[0]] + n[1..];
      if n[0] == ' ' {
        assert RunLength(r, p) == 1 by {
          assert !DoubleAt(n, 0);
          if |n| > 1 { assert !p(r[1]); }
        }
      }
    }
  }

  lemma {:induction false} StripUnspaced(s: string)
    requires forall i :: 0 <= i < |s| ==> !IsSpace(s[i])
    ensures Strip(s) == s
  {
    assert LeadingSpaces(s) == 0;
    assert s[0..] == s;
  }

  lemma {:induction false} LowerUnraised(s: string)
    requires forall i :: 0 <= i < |s| ==> NotUpper(s[i])
    ensures Lower(s) == s
  {}

  lemma {:induction false} UnderscoresUndo(n: string)
    requires Tidy(n)
    ensures SubRuns(Replace(n, ' ', '_'), Separator) == n
  {
    SubRunsUndo(n, '_', Separator);
  }

  lemma {:induction false} CollapseTidy(n: string)
    requires Tidy(n)
    ensures SubRuns(n, IsSpace) == n
  {
    assert Replace(n, ' ', ' ') == n;
    SubRunsUndo(n, ' ', IsSpace);
  }

  lemma {:induction false} ByStages(s: string, n: string)
    requires Strip(s) == s && Lower(s) == s && SubRuns(s, Separator) == n && SubRuns(n, IsSpace) == n
    ensures NormalizeName(s) == n
  {}

  lemma {:induction false} StripAndLowerIdle(r: string)
    requires forall i :: 0 <= i < |r| ==> !IsSpace(r[i]) && NotUpper(r[i])
    ensures Strip(r) == r && Lower(r) == r
  {
    StripUnspaced(r);
    LowerUnraised(r);
  }

  lemma {:induction false} RunsUndo(n: string)
    requires Tidy(n)
    ensures SubRuns(Replace(n, ' ', '_'), Separator) == n && SubRuns(n, IsSpace) == n
  {
    UnderscoresUndo(n);
    CollapseTidy(n);
  }

  /** The underscored form of a tidy name normalises to that name. */
  lemma {:induction false} NormalizeUnderscored(n: string)
    requires Tidy(n)
    ensures NormalizeName(Replace(n, ' ', '_')) == n
  {
    var r := Replace(n, ' ', '_');
    assert Strip(r) == r && Lower(r) == r by { StripAndLowerIdle(r); }
    assert SubRuns(r, Separator) == n && SubRuns(n, IsSpace) == n by { RunsUndo(n); }
    ByStages(r, n);
  }

  lemma {:induction false} NormalizePlain(s: string)
    requires AllPlain(s)
    ensures NormalizeName(s) == s
  {
    assert Replace(s, ' ', '_') == s;
    NormalizeUnderscored(s);
  }

  lemma {:induction false} HyphenatedIsPlain(n: string)
    requires Tidy(n)
    ensures AllPlain(Replace(n, ' ', '-'))
  {}

  // ----- the alias tables -----

  function TaskAlias(s: string): Option<string> {
    if s == "math500" || s == "math 500" || s == "math-500" then Some("math-500")
    else if s == "humaneval" || s == "human eval" then Some("humaneval")
    else if s == "mmlu" then Some("mmlu")
    else if s == "mmlu pro" || s == "mmlu-pro" then Some("mmlu-pro")
    else if s == "gsm8k" then Some("gsm8k")
    else if s == "aime" then Some("aime")
    else if s == "aime 2024" then Some("aime-2024")
    else if s == "gpqa" then Some("gpqa")
    else if s == "gpqa diamond" then Some("gpqa-diamond")
    else None
  }

  function MetricAlias(s: string): Option<string> {
    if s == "acc" || s == "accuracy" then Some("accuracy")
    else if s == "pass@1" || s == "pass @ 1" then Some("pass@1")
    else if s == "f1" then Some("f1")
    else if s == "bleu" then Some("bleu")
    else if s == "rouge" then Some("rouge")
    else if s == "exact match" || s == "em" then Some("exact_match")
    else None
  }

  function ConditionAlias(s: string): Option<string> {
    if s == "0 shot" || s == "0-shot" || s == "zero shot" || s == "zero-shot" then Some("zero-shot")
    else if s == "1 shot" || s == "1-shot" then Some("1-shot")
    else if s == "5 shot" || s == "5-shot" || s == "five shot" then Some("5-shot")
    else if s == "greedy decoding" || s == "greedy" then Some("greedy")
    else None
  }

  function UnitAlias(s: string): Option<string> {
    if s == "%" || s == "percent" || s == "percentage" then Some("%")
    else if s == "ms" || s == "millisecond" || s == "milliseconds" then Some("ms")
    else if s == "sec" || s == "secs" || s == "second" || s == "seconds" then Some("s")
    else None
  }

  function Or(o: Option<string>, other: string): string {
    if o.Some? then o.value else other
  }

  function NormalizeTask(task: string): string {
    var n := NormalizeName(task);
    Or(TaskAlias(n), Or(TaskAlias(DropSpaces(n)), Replace(n, ' ', '-')))
  }

  function NormalizeMetric(metric: string): string {
    var n := NormalizeName(metric);
    Or(MetricAlias(n), Replace(n, ' ', '_'))
  }

  function NormalizeCondition(condition: Option<string>): string {
    if condition == None || condition.value == "" then ""
    else
      var n := NormalizeName(condition.value);
      Or(ConditionAlias(n), Replace(n, ' ', '-'))
  }

  function NormalizeUnit(unit: Option<string>): Option<string> {
    if unit == None || unit.value == "" then None
    else
      var n := NormalizeName(unit.value);
      Some(Or(UnitAlias(n), n))
  }

  // ----- idempotence -----

  lemma {:induction false} DropSpacesUnspaced(s: string)
    requires forall i :: 0 <= i < |s| ==> s[i] != ' '
    ensures DropSpaces(s) == s
  {
    if s != "" { DropSpacesUnspaced(s[1..]); }
  }

  lemma {:induction false} TaskValuesPlain(s: string)
    requires TaskAlias(s).Some?
    ensures AllPlain(TaskAlias(s).value)
  {
    FirstTaskValues();
    OtherTaskValues();
  }

  lemma {:induction false} FirstTaskValues()
    ensures AllPlain("math-500") && AllPlain("humaneval") && AllPlain("mmlu") && AllPlain("mmlu-pro")
  {}

  lemma {:induction false} OtherTaskValues()
    ensures AllPlain("gsm8k") && AllPlain("aime") && AllPlain("aime-2024") && AllPlain("gpqa") && AllPlain("gpqa-diamond")
  {}

  lemma {:induction false} TaskValuesFixed(s: string)
    requires TaskAlias(s).Some?
    ensures TaskAlias(TaskAlias(s).value) in {None, TaskAlias(s)}
  {}

  /** A value of the task table is plain, and is no key or its own value. */
  lemma {:induction false} TaskValues(s: string)
    ensures TaskAlias(s).Some? ==>
      AllPlain(TaskAlias(s).value) && TaskAlias(TaskAlias(s).value) in {None, TaskAlias(s)}
  {
    if TaskAlias(s).Some? {
      TaskValuesPlain(s);
      TaskValuesFixed(s);
    }
  }

  /** A key of the task table with a hyphen is its own value. */
  lemma {:induction false} TaskHyphens(r: string, i: nat)
    requires i < |r| && r[i] == '-'
    ensures TaskAlias(r) in {None, Some(r)}
  {}

  /** What a value of the metric table is the underscored form of: a key with that value. */
  ghost predicate Settled(v: string, n: string) {
    Tidy(n) && Replace(n, ' ', '_') == v && MetricAlias(n) == Some(v)
  }

  lemma {:induction false} ExactMatchSettled()
    ensures Settled("exact_match", "exact match")
  {
    assert Replace("exact match", ' ', '_') == "exact_match";
    assert Tidy("exact match");
  }

  lemma {:induction false} OneWordSettled(v: string)
    requires AllPlain(v) && MetricAlias(v) == Some(v)
    ensures Settled(v, v)
  {
    assert Replace(v, ' ', '_') == v;
  }

  lemma {:induction false} MetricValues(s: string)
    requires MetricAlias(s).Some?
    ensures exists n :: Settled(MetricAlias(s).value, n)
  {
    if s == "exact match" || s == "em" {
      ExactMatchSettled();
    } else {
      OneWordSettled(MetricAlias(s).value);
    }
  }

  lemma {:induction false} ConditionValues(s: string)
    ensures ConditionAlias(s).Some? ==>
      ConditionAlias(s).value != "" && AllPlain(ConditionAlias(s).value)
      && ConditionAlias(ConditionAlias(s).value) in {None, ConditionAlias(s)}
  {}

  lemma {:induction false} ZeroShotForms(n: string)
    requires Replace(n, ' ', '-') == "0-shot"
    ensures n == "0-shot" || n == "0 shot"
  {
    var r := Replace(n, ' ', '-');
    assert |n| == 6 && r[0] == '0' && r[1] == '-' && r[2] == 's' && r[3] == 'h' && r[4] == 'o' && r[5] == 't';
  }

  /** A hyphenated key of the condition table is its own value, or its spaced form is a key too. */
  lemma {:induction false} ConditionHyphens(n: string)
    requires ConditionAlias(n) == None
    ensures ConditionAlias(Replace(n, ' ', '-')) in {None, Some(Replace(n, ' ', '-'))}
  {
    var r := Replace(n, ' ', '-');
    if r == "0-shot" {
      ZeroShotForms(n);
      assert false;
    }
  }

  lemma {:induction false} PlainTaskIsFixed(r: string)
    requires AllPlain(r) && TaskAlias(r) in {None, Some(r)}
    ensures NormalizeTask(r) == r
  {
    NormalizePlain(r);
    DropSpacesUnspaced(r);
    assert Replace(r, ' ', '-') == r;
  }

  /** Task normalisation is idempotent on every string. */
  lemma {:induction false} TaskIdempotent(task: string)
    ensures NormalizeTask(NormalizeTask(task)) == NormalizeTask(task)
  {
    var n := NormalizeName(task);
    NamesAreTidy(task);
    TaskValues(n);
    TaskValues(DropSpaces(n));
    var r := Replace(n, ' ', '-');
    if i :| 0 <= i < |n| && n[i] == ' ' {
      TaskHyphens(r, i);
    } else {
      assert r == n;
    }
    PlainTaskIsFixed(NormalizeTask(task));
  }

  /** So is metric normalisation. */
  lemma {:induction false} MetricIdempotent(metric: string)
    ensures NormalizeMetric(NormalizeMetric(metric)) == NormalizeMetric(metric)
  {
    var n := NormalizeName(metric);
    NamesAreTidy(metric);
    if MetricAlias(n).Some? {
      MetricValues(n);
      var m :| Settled(MetricAlias(n).value, m);
      NormalizeUnderscored(m);
    } else {
      NormalizeUnderscored(n);
    }
  }

  /** So is condition normalisation. */
  lemma {:induction false} ConditionIdempotent(condition: Option<string>)
    ensures var r := NormalizeCondition(condition); NormalizeCondition(Some(r)) == r
  {
    if condition.Some? && condition.value != "" {
      var n := NormalizeName(condition.value);
      NamesAreTidy(condition.value);
      ConditionValues(n);
      var r := NormalizeCondition(condition);
      if ConditionAlias(n) == None { ConditionHyphens(n); }
      PlainConditionIsFixed(r);
    }
  }

  lemma {:induction false} PlainConditionIsFixed(r: string)
    requires AllPlain(r) && ConditionAlias(r) in {None, Some(r)}
    ensures NormalizeCondition(Some(r)) == r
  {
    NormalizePlain(r);
    assert Replace(r, ' ', '-') == r;
  }

  // ----- where it fails -----

  predicate UnspacedEnds(s: string) {
    s == "" || (!IsSpace(s[0]) && !IsSpace(s[|s| - 1]))
  }

  lemma {:induction false} StripIsInner(s: string)
    ensures var t := Strip(s); var k := LeadingSpaces(s);
      && k + |t| <= |s| && t == s[k..k + |t|] && UnspacedEnds(t)
  {
    var k := LeadingSpaces(s);
    var u := s[k..];
    LeadingSpacesIsMaximal(s);
    StripRightIsMinimal(u);
    assert Strip(s) == u[..|Strip(s)|];
  }

  lemma {:induction false} StripIdle(s: string)
    ensures Strip(s) == s <==> UnspacedEnds(s)
  {
    StripIsInner(s);
    if UnspacedEnds(s) { assert s[0..] == s; }
  }

  /** Outer characters of a substitution: a space for a run, and otherwise unchanged. */
  lemma {:induction false} SubRunsEnds(s: string, p: char -> bool)
    requires s != ""
    ensures var r := SubRuns(s, p);
      && r != ""
      && r[0] == (if p(s[0]) then ' ' else s[0])
      && r[|r| - 1] == (if p(s[|s| - 1]) then ' ' else s[|s| - 1])
    decreases |s|
  {
    var rest := if p(s[0]) then s[RunLength(s, p)..] else s[1..];
    if rest != "" { SubRunsEnds(rest, p); }
  }

  /** Normalising keeps the ends of the stripped text, except that separators become spaces. */
  lemma {:induction false} NameEnds(s: string)
    ensures var t := Strip(s);
      UnspacedEnds(NormalizeName(s)) <==> OpenEnds(t)
    ensures NormalizeName(s) == "" <==> Strip(s) == ""
  {
    var t := Strip(s);
    StripIsInner(s);
    if t != "" {
      var low := Lower(t);
      SubRunsEnds(low, Separator);
      SubRunsEnds(SubRuns(low, Separator), IsSpace);
    }
  }

  predicate OpenEnds(t: string) {
    t == "" || (!Separator(t[0]) && !Separator(t[|t| - 1]))
  }

  lemma {:induction false} TidyInner(n: string, i: nat, j: nat)
    requires Tidy(n) && i <= j <= |n|
    ensures Tidy(n[i..j])
  {
    forall k | 0 <= k < j - i ensures !DoubleAt(n[i..j], k) { assert !DoubleAt(n, i + k); }
  }

  lemma {:induction false} TidyIdle(n: string)
    requires Tidy(n)
    ensures Lower(n) == n && SubRuns(n, Separator) == n && SubRuns(n, IsSpace) == n
  {
    LowerUnraised(n);
    CollapseTidy(n);
    NothingToReplace(n, Separator);
  }

  lemma {:induction false} NothingToReplace(s: string, p: char -> bool)
    requires forall i :: 0 <= i < |s| ==> !p(s[i])
    ensures SubRuns(s, p) == s
  {
    if s != "" { NothingToReplace(s[1..], p); }
  }

  /** All that a second pass can still do is strip. */
  lemma {:induction false} SecondPassStrips(n: string)
    requires Tidy(n)
    ensures NormalizeName(n) == Strip(n)
  {
    StripIsInner(n);
    TidyInner(n, LeadingSpaces(n), LeadingSpaces(n) + |Strip(n)|);
    TidyIdle(Strip(n));
  }

  /** The bare name normaliser is idempotent exactly on texts that, once stripped, neither
      start nor end with a separator: an outer separator turns into a space that only the
      next pass strips. */
  lemma {:induction false} NameIdempotentIff(s: string)
    ensures NormalizeName(NormalizeName(s)) == NormalizeName(s) <==> OpenEnds(Strip(s))
  {
    NamesAreTidy(s);
    SecondPassStrips(NormalizeName(s));
    StripIdle(NormalizeName(s));
    NameEnds(s);
  }

  /** The texts on which the unit normaliser is idempotent: none, the empty one, and those
      with something to strip down to that neither starts nor ends with a separator. */
  predicate SteadyUnit(unit: Option<string>) {
    unit == None || unit.value == "" || (Strip(unit.value) != "" && OpenEnds(Strip(unit.value)))
  }

  /** The unit normaliser inherits this, and turns a blank unit into an empty one and that into none. */
  lemma {:induction false} UnitIdempotentIff(unit: Option<string>)
    ensures NormalizeUnit(NormalizeUnit(unit)) == NormalizeUnit(unit) <==> SteadyUnit(unit)
  {
    if unit.Some? && unit.value != "" {
      var n := NormalizeName(unit.value);
      NamesAreTidy(unit.value);
      NameEnds(unit.value);
      NameIdempotentIff(unit.value);
      UnitValues(n);
    }
  }

  lemma {:induction false} UnitKeys(n: string)
    requires UnitAlias(n).Some?
    ensures n != "" && UnspacedEnds(n)
  {}

  lemma {:induction false} UnitWords(v: string)
    requires v == "%" || v == "ms" || v == "s"
    ensures v != "" && AllPlain(v) && UnitAlias(v) in {None, Some(v)}
  {}

  lemma {:induction false} UnitValues(n: string)
    ensures UnitAlias(n).Some? ==>
      n != "" && UnspacedEnds(n)
      && var v := UnitAlias(n).value; v != "" && NormalizeName(v) == v && UnitAlias(v) in {None, Some(v)}
  {
    if UnitAlias(n).Some? {
      UnitKeys(n);
      UnitWords(UnitAlias(n).value);
      NormalizePlain(UnitAlias(n).value);
    }
  }

  lemma {:induction false} StripLeading(s: string)
    requires AllPlain(s)
    ensures Strip(" " + s) == s
  {
    var t := " " + s;
    assert t[1..] == s;
    assert LeadingSpaces(s) == 0;
    assert LeadingSpaces(t) == 1;
  }

  /** Some texts it fails on: a word with a separator in front. */
  lemma {:induction false} OuterSeparator(s: string)
    requires AllPlain(s) && s != ""
    ensures NormalizeName("_" + s) == " " + s && NormalizeName(" " + s) == s
  {
    var n := " " + s;
    assert Tidy(n);
    assert Replace(n, ' ', '_') == "_" + s;
    assert NormalizeName("_" + s) == n by { NormalizeUnderscored(n); }
    assert NormalizeName(n) == s by {
      SecondPassStrips(n);
      StripLeading(s);
    }
  }

  /** Such a unit word and the word itself are different units to the comparator. */
  lemma {:induction false} OuterSeparatorUnit(s: string)
    requires AllPlain(s) && s != "" && UnitAlias(s) in {None, Some(s)}
    ensures NormalizeUnit(Some("_" + s)) == Some(" " + s) && NormalizeUnit(Some(" " + s)) == Some(s)
    ensures NormalizeUnit(Some(s)) == Some(s)
  {
    var spaced, marked := " " + s, "_" + s;
    OuterSeparator(s);
    NormalizePlain(s);
    SpacedIsNoUnit(spaced);
    UnitIs(marked, spaced);
    UnitIs(spaced, s);
    UnitIs(s, s);
  }

  lemma {:induction false} SpacedIsNoUnit(n: string)
    requires n != "" && n[0] == ' '
    ensures UnitAlias(n) == None
  {
    if UnitAlias(n).Some? { UnitKeys(n); }
  }

  lemma {:induction false} UnitIs(u: string, n: string)
    requires u != "" && NormalizeName(u) == n && UnitAlias(n) in {None, Some(n)}
    ensures NormalizeUnit(Some(u)) == Some(n)
  {}

  lemma {:induction false} UnderscoredMilliseconds()
    ensures NormalizeUnit(Some("_" + "ms")) != NormalizeUnit(Some("ms"))
  {
    UnitWords("ms");
    OuterSeparatorUnit("ms");
    assert (" " + "ms")[0] != "ms"[0];
  }

  // ----- direction -----

  predicate LowerIsBetterExact(m: string) {
    || m == "latency" || m == "latency_ms" || m == "runtime" || m == "time" || m == "cost" || m == "cost_per_token"
    || m == "perplexity" || m == "ppl" || m == "error_rate" || m == "wer" || m == "cer" || m == "loss"
  }

  predicate HasLowerHint(m: string) {
    || Contains(m, "latency") || Contains(m, "runtime") || Contains(m, "perplexity") || Contains(m, "error_rate")
    || Contains(m, "wer") || Contains(m, "cer") || Contains(m, "loss")
  }

  predicate IsHigherBetter(metric: string) {
    var m := NormalizeMetric(metric);
    !LowerIsBetterExact(m) && !HasLowerHint(m)
  }

  /** The direction decided on a row's normalised metric is the one of the raw metric. */
  lemma {:induction false} DirectionSurvivesNormalisation(metric: string)
    ensures IsHigherBetter(NormalizeMetric(metric)) == IsHigherBetter(metric)
  {
    MetricIdempotent(metric);
  }

  /** A task name never holds the "/" that joins it to its metric. */
  lemma {:induction false} TaskHasNoSlash(task: string)
    ensures AllPlain(NormalizeTask(task))
  {
    var n := NormalizeName(task);
    NamesAreTidy(task);
    TaskValues(n);
    TaskValues(DropSpaces(n));
    HyphenatedIsPlain(n);
  }
}
