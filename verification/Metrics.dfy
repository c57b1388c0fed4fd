/** The metrics registry and its label printer (services/observability.py:49-134, 276-301). */
module Metrics {
  import opened Wrappers
  import opened Text

  datatype Pair = Pair(key: string, value: string)

  type Labels = seq<Pair>

  // ----- printing labels -----

  /** s.replace(c, by) for a single character */
  function ReplaceChar(s: string, c: char, with: string): string {
    if s == "" then "" else (if s[0] == c then with else [s[0]]) + ReplaceChar(s[1..], c, with)
  }

  /** The three chained replacements. */
  function Escape(s: string): string {
    ReplaceChar(ReplaceChar(ReplaceChar(s, '\\', ['\\', '\\']), '\n', ['\\', 'n']), '"', ['\\', '"'])
  }

  function EscapeChar(c: char): string {
    if c == '\\' then ['\\', '\\']
    else if c == '\n' then ['\\', 'n']
    else if c == '"' then ['\\', '"']
    else [c]
  }

  /** One pass over the characters. */
  function EscapeEach(s: string): string {
    if s == "" then "" else EscapeChar(s[0]) + EscapeEach(s[1..])
  }

  lemma {:induction false} ReplaceConcat(a: string, b: string, c: char, with: string)
    ensures ReplaceChar(a + b, c, with) == ReplaceChar(a, c, with) + ReplaceChar(b, c, with)
  {
    if a == "" {
      assert a + b == b;
    } else {
      assert (a + b)[1..] == a[1..] + b;
      ReplaceConcat(a[1..], b, c, with);
    }
  }

  lemma {:induction false} EscapeConcat(a: string, b: string)
    ensures Escape(a + b) == Escape(a) + Escape(b)
  {
    var a1, b1 := ReplaceChar(a, '\\', ['\\', '\\']), ReplaceChar(b, '\\', ['\\', '\\']);
    ReplaceConcat(a, b, '\\', ['\\', '\\']);
    ReplaceConcat(a1, b1, '\n', ['\\', 'n']);
    ReplaceConcat(ReplaceChar(a1, '\n', ['\\', 'n']), ReplaceChar(b1, '\n', ['\\', 'n']), '"', ['\\', '"']);
  }

  lemma {:induction false} ReplaceOne(x: char, c: char, with: string)
    ensures ReplaceChar([x], c, with) == if x == c then with else [x]
  {
    assert [x][1..] == "";
  }

  lemma {:induction false} ReplaceTwo(x: char, y: char, c: char, with: string)
    requires x != c && y != c
    ensures ReplaceChar([x, y], c, with) == [x, y]
  {
    assert [x, y] == [x] + [y];
    ReplaceConcat([x], [y], c, with);
    ReplaceOne(x, c, with);
    ReplaceOne(y, c, with);
  }

  lemma {:induction false} EscapeOne(c: char)
    ensures Escape([c]) == EscapeChar(c)
  {
    ReplaceOne(c, '\\', ['\\', '\\']);
    if c == '\\' {
      ReplaceTwo('\\', '\\', '\n', ['\\', 'n']);
      ReplaceTwo('\\', '\\', '"', ['\\', '"']);
    } else {
      ReplaceOne(c, '\n', ['\\', 'n']);
      if c == '\n' {
        ReplaceTwo('\\', 'n', '"', ['\\', '"']);
      } else {
        ReplaceOne(c, '"', ['\\', '"']);
      }
    }
  }

  /** The chain is one pass: the backslashes it adds are not escaped again. */
  lemma {:induction false} EscapeIsOnePass(s: string)
    ensures Escape(s) == EscapeEach(s)
  {
    if s != "" {
      EscapeIsOnePass(s[1..]);
      EscapeConcat([s[0]], s[1..]);
      EscapeOne(s[0]);
      assert s == [s[0]] + s[1..];
    }
  }

  /** The character that an escape sequence stands for. */
  function Meant(c: char): Option<char> {
    if c == '\\' then Some('\\') else if c == 'n' then Some('\n') else if c == '"' then Some('"') else None
  }

  datatype Read = Read(value: string, rest: string)

  /** Read an escaped value up to its closing quote. */
  function ReadValue(s: string): Option<Read> {
    if s == "" then None
    else if s[0] == '"' then Some(Read("", s[1..]))
    else if s[0] != '\\' then Put(s[0], ReadValue(s[1..]))
    else if |s| == 1 || Meant(s[1]) == None then None
    else Put(Meant(s[1]).value, ReadValue(s[2..]))
  }

  function Put(c: char, r: Option<Read>): Option<Read> {
    if r.Some? then Some(Read([c] + r.value.value, r.value.rest)) else None
  }

  lemma {:induction false} ReadChar(c: char, tail: string)
    ensures ReadValue(EscapeChar(c) + tail) == Put(c, ReadValue(tail))
  {
    var s := EscapeChar(c) + tail;
    if |EscapeChar(c)| == 1 {
      assert s[0] == c && s[1..] == tail;
    } else {
      assert s[0] == '\\' && Meant(s[1]) == Some(c) && s[2..] == tail;
    }
  }

  /** Reading undoes escaping. */
  lemma {:induction false} ReadEscaped(v: string, rest: string)
    ensures ReadValue(EscapeEach(v) + ['"'] + rest) == Some(Read(v, rest))
  {
    if v == "" {
      assert (['"'] + rest)[1..] == rest;
      assert "" + ['"'] + rest == ['"'] + rest;
    } else {
      var tail := EscapeEach(v[1..]) + ['"'] + rest;
      ReadEscaped(v[1..], rest);
      ReadChar(v[0], tail);
      assert EscapeEach(v) + ['"'] + rest == EscapeChar(v[0]) + tail;
      assert [v[0]] + v[1..] == v;
    }
  }

  function Item(p: Pair): string { p.key + ['=', '"'] + Escape(p.value) + ['"'] }

  function Items(labels: Labels): string {
    if labels == [] then ""
    else if |labels| == 1 then Item(labels[0])
    else Item(labels[0]) + [','] + Items(labels[1..])
  }

  /** `_format_metric_labels` */
  function Format(labels: Labels): string {
    if labels == [] then "" else ['{'] + Items(labels) + ['}']
  }

  predicate NotEquals(c: char) { c != '=' }

  datatype Parsed = Parsed(labels: Labels, rest: string)

  /** Read key="value" items up to the closing brace. */
  function ParseItems(s: string): Option<Parsed>
    decreases |s|
  {
    var n := RunLength(s, NotEquals);
    if n + 1 >= |s| || s[n + 1] != '"' then None
    else
      var v := ReadValue(s[n + 2..]);
      ReadShortens(s[n + 2..]);
      if v == None || v.value.rest == "" then None
      else
        var p := Pair(s[..n], v.value.value);
        var rest := v.value.rest;
        if rest[0] == '}' then Some(Parsed([p], rest[1..]))
        else if rest[0] != ',' then None
        else
          match ParseItems(rest[1..])
          case None => None
          case Some(more) => Some(Parsed([p] + more.labels, more.rest))
  }

  lemma {:induction false} ReadShortens(s: string)
    ensures ReadValue(s).Some? ==> |ReadValue(s).value.rest| < |s|
  {
    if s == "" || s[0] == '"' {
    } else if s[0] != '\\' {
      ReadShortens(s[1..]);
    } else if |s| > 1 {
      ReadShortens(s[2..]);
    }
  }

  function Parse(s: string): Option<Labels> {
    if s == "" then Some([])
    else if s[0] != '{' then None
    else
      match ParseItems(s[1..])
      case None => None
      case Some(r) => if r.rest == "" then Some(r.labels) else None
  }

  predicate Plain(labels: Labels) {
    forall i :: 0 <= i < |labels| ==> '=' !in labels[i].key
  }

  lemma {:induction false} KeyLength(key: string, rest: string)
    requires '=' !in key && rest != "" && rest[0] == '='
    ensures RunLength(key + rest, NotEquals) == |key|
  {
    var s := key + rest;
    assert forall i :: 0 <= i < |key| ==> s[i] == key[i] && key[i] in key;
    assert s[|key|] == '=';
  }

  lemma {:induction false} ParseItem(p: Pair, rest: string)
    requires '=' !in p.key && rest != ""
    ensures ParseItems(Item(p) + rest) ==
      if rest[0] == '}' then Some(Parsed([p], rest[1..]))
      else if rest[0] != ',' then None
      else match ParseItems(rest[1..])
        case None => None
        case Some(more) => Some(Parsed([p] + more.labels, more.rest))
  {
    var s := Item(p) + rest;
    var tail := EscapeEach(p.value) + ['"'] + rest;
    EscapeIsOnePass(p.value);
    assert s == p.key + (['=', '"'] + tail);
    KeyLength(p.key, ['=', '"'] + tail);
    ReadEscaped(p.value, rest);
    assert s[|p.key| + 2..] == tail && s[..|p.key|] == p.key;
  }

  lemma {:induction false} ParseLast(p: Pair, rest: string)
    requires '=' !in p.key
    ensures ParseItems(Item(p) + (['}'] + rest)) == Some(Parsed([p], rest))
  {
    ParseItem(p, ['}'] + rest);
    assert (['}'] + rest)[1..] == rest;
  }

  lemma {:induction false} ParseThen(p: Pair, more: string, labels: Labels, rest: string)
    requires '=' !in p.key && ParseItems(more) == Some(Parsed(labels, rest))
    ensures ParseItems(Item(p) + ([','] + more)) == Some(Parsed([p] + labels, rest))
  {
    ParseItem(p, [','] + more);
    assert ([','] + more)[1..] == more;
  }

  lemma {:induction false} PrintedApart(item: string, middle: string, more: string, rest: string)
    ensures item + middle + rest == item + (middle + rest)
    ensures (item + middle + more) + ['}'] + rest == item + (middle + (more + ['}'] + rest))
  {}

  lemma {:induction false} ParsePrinted(labels: Labels, rest: string)
    requires labels != [] && Plain(labels)
    ensures ParseItems(Items(labels) + ['}'] + rest) == Some(Parsed(labels, rest))
  {
    var p := labels[0];
    if |labels| == 1 {
      PrintedApart(Item(p), ['}'], "", rest);
      ParseLast(p, rest);
      assert labels == [p];
    } else {
      var others := labels[1..];
      ParsePrinted(others, rest);
      PrintedApart(Item(p), [','], Items(others), rest);
      ParseThen(p, Items(others) + ['}'] + rest, others, rest);
      assert labels == [p] + others;
    }
  }

  /** Round trip: printed labels are read back, so distinct label tuples print distinctly. */
  lemma {:induction false} LabelsRoundTrip(labels: Labels)
    requires Plain(labels)
    ensures Parse(Format(labels)) == Some(labels)
  {
    if labels != [] {
      ParsePrinted(labels, "");
      assert Format(labels)[1..] == Items(labels) + ['}'] + "";
    }
  }

  lemma {:induction false} FormatInjective(a: Labels, b: Labels)
    requires Plain(a) && Plain(b) && Format(a) == Format(b)
    ensures a == b
  {
    LabelsRoundTrip(a);
    LabelsRoundTrip(b);
  }

  // ----- labels of an event -----

  /** The label fields and "event", in the order of their names. */
  datatype Field = AgentName | EventName | FailureClass | Kind | Model | Operation | Provider | Status | TerminationReason

  /** The fields that may become labels; the values are already str(value), None where absent. */
  datatype Fields = Fields(
    agentName: Option<string>, failureClass: Option<string>, kind: Option<string>, model: Option<string>,
    operation: Option<string>, provider: Option<string>, status: Option<string>, terminationReason: Option<string>)

  datatype Tagged = Tagged(field: Field, value: string)

  /** In the order of their names. */
  function AllFields(): seq<Field> {
    [AgentName, EventName, FailureClass, Kind, Model, Operation, Provider, Status, TerminationReason]
  }

  function Name(field: Field): string {
    match field
    case AgentName => "agent_name"
    case EventName => "event"
    case FailureClass => "failure_class"
    case Kind => "kind"
    case Model => "model"
    case Operation => "operation"
    case Provider => "provider"
    case Status => "status"
    case TerminationReason => "termination_reason"
  }

  function FieldOf(event: string, f: Fields, field: Field): Option<string> {
    match field
    case AgentName => f.agentName
    case EventName => Some(event)
    case FailureClass => f.failureClass
    case Kind => f.kind
    case Model => f.model
    case Operation => f.operation
    case Provider => f.provider
    case Status => f.status
    case TerminationReason => f.terminationReason
  }

  function LabelsOf(event: string, f: Fields, fields: seq<Field>): seq<Tagged> {
    if fields == [] then []
    else
      var value := FieldOf(event, f, fields[0]);
      (if value.Some? then [Tagged(fields[0], value.value)] else []) + LabelsOf(event, f, fields[1..])
  }

  /** `_metric_labels`: the event and the fields that are present, sorted by name. */
  function MetricLabels(event: string, f: Fields): seq<Tagged> {
    LabelsOf(event, f, AllFields())
  }

  function ValueIn(labels: seq<Tagged>, field: Field): Option<string> {
    if labels == [] then None
    else if labels[0].field == field then Some(labels[0].value)
    else ValueIn(labels[1..], field)
  }

  lemma {:induction false} ValueInLabels(event: string, f: Fields, fields: seq<Field>, field: Field)
    ensures ValueIn(LabelsOf(event, f, fields), field) == if field in fields then FieldOf(event, f, field) else None
  {
    if fields != [] {
      ValueInLabels(event, f, fields[1..], field);
      var rest := LabelsOf(event, f, fields[1..]);
      var value := FieldOf(event, f, fields[0]);
      assert fields == [fields[0]] + fields[1..];
      if value.Some? {
        assert ([Tagged(fields[0], value.value)] + rest)[1..] == rest;
      } else {
        assert [] + rest == rest;
      }
    }
  }

  lemma {:induction false} EveryField(field: Field)
    ensures field in AllFields()
  {
    var all := AllFields();
    assert all[0] == AgentName && all[1] == EventName && all[2] == FailureClass && all[3] == Kind && all[4] == Model
      && all[5] == Operation && all[6] == Provider && all[7] == Status && all[8] == TerminationReason;
  }

  lemma {:induction false} NamesTell(a: Field, b: Field)
    ensures Name(a) == Name(b) ==> a == b
    ensures '=' !in Name(a)
  {}

  function Pairs(labels: seq<Tagged>): (r: Labels)
    ensures |r| == |labels|
    ensures forall i :: 0 <= i < |r| ==> r[i] == Pair(Name(labels[i].field), labels[i].value)
  {
    seq(|labels|, i requires 0 <= i < |labels| => Pair(Name(labels[i].field), labels[i].value))
  }

  lemma {:induction false} PairsInjective(a: seq<Tagged>, b: seq<Tagged>)
    requires Pairs(a) == Pairs(b)
    ensures a == b
  {
    forall i | 0 <= i < |a| ensures a[i] == b[i] {
      assert Pairs(a)[i] == Pairs(b)[i];
      NamesTell(a[i].field, b[i].field);
    }
  }

  lemma {:induction false} PairsPlain(labels: seq<Tagged>)
    ensures Plain(Pairs(labels))
  {
    forall i | 0 <= i < |labels| ensures '=' !in Pairs(labels)[i].key { NamesTell(labels[i].field, labels[i].field); }
  }

  /** Two events print the same labels only when they agree on the event and on every field. */
  lemma {:induction false} EventsPrintDistinctly(event: string, f: Fields, event': string, f': Fields)
    requires Format(Pairs(MetricLabels(event, f))) == Format(Pairs(MetricLabels(event', f')))
    ensures event == event' && f == f'
  {
    PairsPlain(MetricLabels(event, f));
    PairsPlain(MetricLabels(event', f'));
    FormatInjective(Pairs(MetricLabels(event, f)), Pairs(MetricLabels(event', f')));
    PairsInjective(MetricLabels(event, f), MetricLabels(event', f'));
    forall field ensures FieldOf(event, f, field) == FieldOf(event', f', field) {
      EveryField(field);
      ValueInLabels(event, f, AllFields(), field);
      ValueInLabels(event', f', AllFields(), field);
    }
    SameFields(event, f, event', f');
  }

  lemma {:induction false} SameFields(event: string, f: Fields, event': string, f': Fields)
    requires forall field :: FieldOf(event, f, field) == FieldOf(event', f', field)
    ensures event == event' && f == f'
  {
    assert FieldOf(event, f, EventName) == FieldOf(event', f', EventName);
    assert f.agentName == FieldOf(event, f, AgentName) && f'.agentName == FieldOf(event', f', AgentName);
    assert f.failureClass == FieldOf(event, f, FailureClass) && f'.failureClass == FieldOf(event', f', FailureClass);
    assert f.kind == FieldOf(event, f, Kind) && f'.kind == FieldOf(event', f', Kind);
    assert f.model == FieldOf(event, f, Model) && f'.model == FieldOf(event', f', Model);
    assert f.operation == FieldOf(event, f, Operation) && f'.operation == FieldOf(event', f', Operation);
    assert f.provider == FieldOf(event, f, Provider) && f'.provider == FieldOf(event', f', Provider);
    assert f.status == FieldOf(event, f, Status) && f'.status == FieldOf(event', f', Status);
    assert f.terminationReason == FieldOf(event, f, TerminationReason)
      && f'.terminationReason == FieldOf(event', f', TerminationReason);
  }
}
