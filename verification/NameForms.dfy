/** What the name normalisers of the comparator compute (agents/comparator.py:70-191): the words of
    a name in lower case, put together again, and the names that the tables put in place of others. */
module NameForms {
  import opened Wrappers
  import opened Text
  import opened Names

  // ----- the words of a name -----

  predicate Inked(c: char) { !IsSpace(c) && c != '_' && c != '/' }
  predicate Gap(c: char) { IsSpace(c) || c == '_' || c == '/' }

  /** The longest stretches without whitespace, "_" and "/", in lower case. */
  function Words(name: string): seq<string> { Runs(Lower(Strip(name)), Inked) }

  function Join(words: seq<string>, glue: string): string {
    if words == [] then ""
    else if |words| == 1 then words[0]
    else words[0] + glue + Join(words[1..], glue)
  }

  predicate Outer(c: char) { c == '_' || c == '/' }

  function Edge(edged: bool): string { if edged then " " else "" }

  /** The words with a space between them, and a space for separators before or after them. */
  function Form(name: string): string {
    var t := Strip(name);
    Edge(t != "" && Outer(t[0])) + Join(Words(name), " ") + Edge(Words(name) != [] && t != "" && Outer(t[|t| - 1]))
  }

  lemma {:induction false} RunSkipped(s: string, p: char -> bool, keep: char -> bool)
    requires forall c :: keep(c) <==> !p(c)
    ensures Runs(s, keep) == Runs(s[RunLength(s, p)..], keep)
  {
    if s != "" && p(s[0]) {
      RunSkipped(s[1..], p, keep);
      assert s[1..][RunLength(s[1..], p)..] == s[RunLength(s, p)..];
    }
  }

  lemma {:induction false} RunCopied(s: string, p: char -> bool, keep: char -> bool)
    requires forall c :: keep(c) <==> !p(c)
    ensures var m := RunLength(s, keep); SubRuns(s, p) == s[..m] + SubRuns(s[m..], p)
  {
    var m := RunLength(s, keep);
    if s != "" && keep(s[0]) {
      RunCopied(s[1..], p, keep);
      assert s[..m] == [s[0]] + s[1..][..m - 1];
      assert s[1..][m - 1..] == s[m..];
    }
  }

  lemma {:induction false} NoRunsNoInk(s: string, p: char -> bool, keep: char -> bool)
    requires (forall c :: keep(c) <==> !p(c)) && Runs(s, keep) == []
    ensures forall i :: 0 <= i < |s| ==> p(s[i])
  {
    if s != "" && p(s[0]) { NoRunsNoInk(s[1..], p, keep); }
  }

  lemma {:induction false} JoinFirst(word: string, words: seq<string>)
    requires words != []
    ensures Join([word] + words, " ") == word + " " + Join(words, " ")
  {
    assert ([word] + words)[1..] == words;
  }

  predicate EndsIn(s: string, p: char -> bool) { s != "" && p(s[|s| - 1]) }

  /** A gap in front becomes a space. */
  lemma {:induction false} GapFirst(s: string, p: char -> bool, keep: char -> bool)
    requires s != "" && p(s[0]) && forall c :: keep(c) <==> !p(c)
    ensures var rest := s[RunLength(s, p)..];
      && SubRuns(s, p) == " " + SubRuns(rest, p) && Runs(s, keep) == Runs(rest, keep)
      && (rest == "" || !p(rest[0])) && (rest != "" ==> (EndsIn(s, p) <==> EndsIn(rest, p)))
  {
    var n := RunLength(s, p);
    assert Runs(s, keep) == Runs(s[n..], keep) by { RunSkipped(s, p, keep); }
    EndOfRest(s, p, n);
  }

  lemma {:induction false} EndOfRest(s: string, p: char -> bool, n: nat)
    requires n <= |s|
    ensures s[n..] != "" ==> (EndsIn(s, p) <==> EndsIn(s[n..], p))
  {}

  /** A word in front is kept. */
  lemma {:induction false} WordFirst(s: string, p: char -> bool, keep: char -> bool)
    requires s != "" && !p(s[0]) && forall c :: keep(c) <==> !p(c)
    ensures var m := RunLength(s, keep); var rest := s[m..];
      && m > 0 && SubRuns(s, p) == s[..m] + SubRuns(rest, p) && Runs(s, keep) == [s[..m]] + Runs(rest, keep)
      && (rest == "" || p(rest[0])) && (EndsIn(s, p) <==> EndsIn(rest, p))
      && (Runs(rest, keep) == [] ==> (rest != "" <==> EndsIn(s, p)))
  {
    var m := RunLength(s, keep);
    var rest := s[m..];
    RunCopied(s, p, keep);
    if Runs(rest, keep) == [] { NoRunsNoInk(rest, p, keep); }
    if rest == "" { assert s == s[..m]; }
  }

  /** Collapsing runs to spaces leaves the stretches between them. */
  lemma {:induction false} CollapsedIsJoined(s: string, p: char -> bool, keep: char -> bool)
    requires forall c :: keep(c) <==> !p(c)
    ensures SubRuns(s, p) == Edge(s != "" && p(s[0])) + Join(Runs(s, keep), " ") + Edge(Runs(s, keep) != [] && EndsIn(s, p))
    decreases |s|
  {
    if s == "" {
    } else if p(s[0]) {
      GapFirst(s, p, keep);
      CollapsedIsJoined(s[RunLength(s, p)..], p, keep);
      GapThen(Join(Runs(s, keep), " "), Edge(Runs(s, keep) != [] && EndsIn(s, p)));
    } else {
      var m := RunLength(s, keep);
      var rest := s[m..];
      WordFirst(s, p, keep);
      CollapsedIsJoined(rest, p, keep);
      WordThen(s[..m], Runs(rest, keep), rest != "", EndsIn(s, p));
    }
  }

  lemma {:induction false} GapThen(joined: string, end: string)
    ensures " " + (Edge(false) + joined + end) == Edge(true) + joined + end
  {}

  lemma {:induction false} WordThen(word: string, words: seq<string>, more: bool, ended: bool)
    requires (words == [] ==> (more <==> ended)) && (words != [] ==> more)
    ensures word + (Edge(more) + Join(words, " ") + Edge(words != [] && ended))
      == Edge(false) + Join([word] + words, " ") + Edge([word] + words != [] && ended)
  {
    if words != [] { JoinFirst(word, words); }
  }

  // ----- two collapses are one -----

  lemma {:induction false} CollapseConcat(a: string, b: string, p: char -> bool)
    requires b == "" || !p(b[0])
    ensures SubRuns(a + b, p) == SubRuns(a, p) + SubRuns(b, p)
    decreases |a|
  {
    if a == "" {
      assert a + b == b;
    } else if p(a[0]) {
      var n := RunLength(a, p);
      RunLengthConcat(a, b, p);
      assert (a + b)[n..] == a[n..] + b;
      CollapseConcat(a[n..], b, p);
    } else {
      assert (a + b)[1..] == a[1..] + b;
      CollapseConcat(a[1..], b, p);
    }
  }

  lemma {:induction false} RunLengthConcat(a: string, b: string, p: char -> bool)
    requires b == "" || !p(b[0])
    ensures RunLength(a + b, p) == RunLength(a, p)
  {
    if a == "" {
      assert a + b == b;
    } else {
      assert (a + b)[1..] == a[1..] + b;
      RunLengthConcat(a[1..], b, p);
    }
  }

  lemma {:induction false} RunLengthOfAll(a: string, p: char -> bool)
    requires forall i :: 0 <= i < |a| ==> p(a[i])
    ensures RunLength(a, p) == |a|
  {
    if a != "" { RunLengthOfAll(a[1..], p); }
  }

  lemma {:induction false} GapsBecomeSpaces(s: string)
    requires forall i :: 0 <= i < |s| ==> Gap(s[i])
    ensures forall i :: 0 <= i < |SubRuns(s, Separator)| ==> IsSpace(SubRuns(s, Separator)[i])
    ensures s != "" ==> SubRuns(s, Separator) != ""
    decreases |s|
  {
    if s != "" {
      GapsBecomeSpaces(if Separator(s[0]) then s[RunLength(s, Separator)..] else s[1..]);
    }
  }

  lemma {:induction false} SpacesFirst(spaces: string, rest: string)
    requires spaces != "" && forall i :: 0 <= i < |spaces| ==> IsSpace(spaces[i])
    requires rest == "" || !IsSpace(rest[0])
    ensures SubRuns(spaces + rest, IsSpace) == " " + SubRuns(rest, IsSpace)
  {
    RunLengthConcat(spaces, rest, IsSpace);
    RunLengthOfAll(spaces, IsSpace);
    assert (spaces + rest)[|spaces|..] == rest;
  }

  lemma {:induction false} CollapseTwice(s: string)
    ensures SubRuns(SubRuns(s, Separator), IsSpace) == SubRuns(s, Gap)
    decreases |s|
  {
    if s == "" {
    } else if Gap(s[0]) {
      var n := RunLength(s, Gap);
      var gaps, rest := s[..n], s[n..];
      assert s == gaps + rest;
      CollapseTwice(rest);
      CollapseConcat(gaps, rest, Separator);
      GapsBecomeSpaces(gaps);
      if rest != "" { SubRunsEnds(rest, Separator); }
      SpacesFirst(SubRuns(gaps, Separator), SubRuns(rest, Separator));
    } else {
      CollapseTwice(s[1..]);
      assert ([s[0]] + SubRuns(s[1..], Separator))[1..] == SubRuns(s[1..], Separator);
    }
  }

  /** A normalised name is made of the words of the name. */
  lemma {:induction false} NameIsForm(name: string)
    ensures NormalizeName(name) == Form(name)
  {
    var t := Strip(name);
    CollapseTwice(Lower(t));
    CollapsedIsJoined(Lower(t), Gap, Inked);
    if t != "" { InnerEdges(name); }
  }

  /** At the ends of a stripped name the only gaps are separators. */
  lemma {:induction false} InnerEdges(name: string)
    requires Strip(name) != ""
    ensures var t := Strip(name);
      && (Gap(LowerChar(t[0])) <==> Outer(t[0]))
      && (Gap(LowerChar(t[|t| - 1])) <==> Outer(t[|t| - 1]))
  {
    StripIsInner(name);
  }

  // ----- without its spaces -----

  lemma {:induction false} DropSpacesConcat(a: string, b: string)
    ensures DropSpaces(a + b) == DropSpaces(a) + DropSpaces(b)
  {
    if a == "" {
      assert a + b == b;
    } else {
      assert (a + b)[1..] == a[1..] + b;
      DropSpacesConcat(a[1..], b);
    }
  }

  lemma {:induction false} OneSpaceDropped()
    ensures DropSpaces(" ") == "" == DropSpaces("")
  {}

  predicate Unspaced(s: string) { forall i :: 0 <= i < |s| ==> s[i] != ' ' }

  lemma {:induction false} RunsUnspaced(s: string)
    ensures forall i :: 0 <= i < |Runs(s, Inked)| ==> Unspaced(Runs(s, Inked)[i])
    decreases |s|
  {
    if s != "" { RunsUnspaced(if Inked(s[0]) then s[RunLength(s, Inked)..] else s[1..]); }
  }

  lemma {:induction false} JoinedWithoutSpaces(words: seq<string>)
    requires forall i :: 0 <= i < |words| ==> Unspaced(words[i])
    ensures DropSpaces(Join(words, " ")) == Join(words, "")
  {
    if |words| == 1 {
      DropSpacesUnspaced(words[0]);
    } else if words != [] {
      DropSpacesUnspaced(words[0]);
      JoinedWithoutSpaces(words[1..]);
      OneSpaceDropped();
      DropSpacesConcat(words[0] + " ", Join(words[1..], " "));
      DropSpacesConcat(words[0], " ");
    }
  }

  /** The compact form is made of the same words. */
  lemma {:induction false} CompactIsJoined(name: string)
    ensures DropSpaces(NormalizeName(name)) == Join(Words(name), "")
  {
    NameIsForm(name);
    RunsUnspaced(Lower(Strip(name)));
    EdgesDropped(Form(name), Words(name));
  }

  lemma {:induction false} EdgesDropped(form: string, words: seq<string>)
    requires exists a, b :: form == Edge(a) + Join(words, " ") + Edge(b)
    requires forall i :: 0 <= i < |words| ==> Unspaced(words[i])
    ensures DropSpaces(form) == Join(words, "")
  {
    var a, b :| form == Edge(a) + Join(words, " ") + Edge(b);
    JoinedWithoutSpaces(words);
    OneSpaceDropped();
    DropSpacesConcat(Edge(a) + Join(words, " "), Edge(b));
    DropSpacesConcat(Edge(a), Join(words, " "));
  }

  // ----- the tables -----

  const TASKS: set<(string, string)> :=
    {("math500", "math-500"), ("math 500", "math-500"), ("math-500", "math-500"), ("humaneval", "humaneval"),
     ("human eval", "humaneval"), ("mmlu", "mmlu"), ("mmlu pro", "mmlu-pro"), ("mmlu-pro", "mmlu-pro"),
     ("gsm8k", "gsm8k"), ("aime", "aime"), ("aime 2024", "aime-2024"), ("gpqa", "gpqa"), ("gpqa diamond", "gpqa-diamond")}

  const METRICS: set<(string, string)> :=
    {("acc", "accuracy"), ("accuracy", "accuracy"), ("pass@1", "pass@1"), ("pass @ 1", "pass@1"), ("f1", "f1"),
     ("bleu", "bleu"), ("rouge", "rouge"), ("exact match", "exact_match"), ("em", "exact_match")}

  const CONDITIONS: set<(string, string)> :=
    {("0 shot", "zero-shot"), ("0-shot", "zero-shot"), ("zero shot", "zero-shot"), ("zero-shot", "zero-shot"),
     ("1 shot", "1-shot"), ("1-shot", "1-shot"), ("5 shot", "5-shot"), ("5-shot", "5-shot"), ("five shot", "5-shot"),
     ("greedy decoding", "greedy"), ("greedy", "greedy")}

  const UNITS: set<(string, string)> :=
    {("%", "%"), ("percent", "%"), ("percentage", "%"), ("ms", "ms"), ("millisecond", "ms"), ("milliseconds", "ms"),
     ("sec", "s"), ("secs", "s"), ("second", "s"), ("seconds", "s")}

  predicate Has(table: set<(string, string)>, n: string, v: string) { (n, v) in table }

  lemma {:induction false} TaskTable(n: string, v: string)
    ensures TaskAlias(n) == Some(v) <==> Has(TASKS, n, v)
  {}

  lemma {:induction false} MetricTable(n: string, v: string)
    ensures MetricAlias(n) == Some(v) <==> Has(METRICS, n, v)
  {}

  lemma {:induction false} ConditionTable(n: string, v: string)
    ensures ConditionAlias(n) == Some(v) <==> Has(CONDITIONS, n, v)
  {}

  lemma {:induction false} UnitTable(n: string, v: string)
    ensures UnitAlias(n) == Some(v) <==> Has(UNITS, n, v)
  {}

  /** v is what the table has for n, or `otherwise` if it has nothing. */
  ghost predicate Given(table: set<(string, string)>, n: string, otherwise: string, v: string) {
    Has(table, n, v) || ((forall w :: !Has(table, n, w)) && v == otherwise)
  }

  ghost predicate Spaced(name: string, sep: char, v: string) {
    |v| == |Form(name)| && forall i :: 0 <= i < |v| ==> v[i] == if Form(name)[i] == ' ' then sep else Form(name)[i]
  }

  /** A task is looked up by its words, then by its words run together, and else hyphenated. */
  lemma {:induction false} TaskIs(task: string) returns (other: string)
    ensures Spaced(task, '-', other)
    ensures var v := NormalizeTask(task);
      Has(TASKS, Form(task), v) || ((forall w :: !Has(TASKS, Form(task), w)) && Given(TASKS, Join(Words(task), ""), other, v))
  {
    NameIsForm(task);
    CompactIsJoined(task);
    other := Replace(Form(task), ' ', '-');
    forall w ensures TaskAlias(Form(task)) == Some(w) <==> Has(TASKS, Form(task), w) { TaskTable(Form(task), w); }
    var compact := Join(Words(task), "");
    forall w ensures TaskAlias(compact) == Some(w) <==> Has(TASKS, compact, w) { TaskTable(compact, w); }
  }

  /** A metric is looked up by its words, and else they are joined with underscores. */
  lemma {:induction false} MetricIs(metric: string) returns (other: string)
    ensures Spaced(metric, '_', other) && Given(METRICS, Form(metric), other, NormalizeMetric(metric))
  {
    NameIsForm(metric);
    other := Replace(Form(metric), ' ', '_');
    forall w ensures MetricAlias(Form(metric)) == Some(w) <==> Has(METRICS, Form(metric), w) { MetricTable(Form(metric), w); }
  }

  /** A condition is looked up by its words, and else hyphenated; none is the empty one. */
  lemma {:induction false} ConditionIs(condition: string) returns (other: string)
    ensures NormalizeCondition(None) == NormalizeCondition(Some("")) == ""
    ensures Spaced(condition, '-', other)
    ensures condition != "" ==> Given(CONDITIONS, Form(condition), other, NormalizeCondition(Some(condition)))
  {
    NameIsForm(condition);
    other := Replace(Form(condition), ' ', '-');
    forall w ensures ConditionAlias(Form(condition)) == Some(w) <==> Has(CONDITIONS, Form(condition), w) {
      ConditionTable(Form(condition), w);
    }
  }

  /** A unit is looked up by its words, and else kept as they are; an empty one is none. */
  lemma {:induction false} UnitIs(unit: string)
    ensures NormalizeUnit(None) == NormalizeUnit(Some("")) == None
    ensures unit != "" ==>
      && NormalizeUnit(Some(unit)).Some?
      && Given(UNITS, Form(unit), Form(unit), NormalizeUnit(Some(unit)).value)
  {
    NameIsForm(unit);
    forall w ensures UnitAlias(Form(unit)) == Some(w) <==> Has(UNITS, Form(unit), w) { UnitTable(Form(unit), w); }
  }
}
