/** What the metrics registry counts and prints (services/observability.py:59-134): which labels an
    event has, and which events a number counts. */
module MetricsReading {
  import opened Wrappers
  import opened Sorting
  import opened Metrics
  import opened Registry

  // ----- labels -----

  /** The event has the label. */
  predicate Labelled(event: string, f: Fields, name: string, value: string) {
    || (name == "event" && value == event)
    || (name == "agent_name" && f.agentName == Some(value)) || (name == "failure_class" && f.failureClass == Some(value))
    || (name == "kind" && f.kind == Some(value)) || (name == "model" && f.model == Some(value))
    || (name == "operation" && f.operation == Some(value)) || (name == "provider" && f.provider == Some(value))
    || (name == "status" && f.status == Some(value)) || (name == "termination_reason" && f.terminationReason == Some(value))
  }

  lemma {:induction false} LabelsOfFields(event: string, f: Fields, fields: seq<Field>, t: Tagged)
    ensures t in Metrics.LabelsOf(event, f, fields) <==> t.field in fields && FieldOf(event, f, t.field) == Some(t.value)
  {
    if fields != [] {
      LabelsOfFields(event, f, fields[1..], t);
      assert fields == [fields[0]] + fields[1..];
    }
  }

  lemma {:induction false} LabelledIff(event: string, f: Fields, field: Field, value: string)
    ensures FieldOf(event, f, field) == Some(value) <==> Labelled(event, f, Name(field), value)
  {
    match field
    case AgentName =>
    case EventName =>
    case FailureClass =>
    case Kind =>
    case Model =>
    case Operation =>
    case Provider =>
    case Status =>
    case TerminationReason =>
  }

  /** The names of the labels start with different letters, which rise. */
  function Initial(field: Field): char {
    match field
    case AgentName => 'a'
    case EventName => 'e'
    case FailureClass => 'f'
    case Kind => 'k'
    case Model => 'm'
    case Operation => 'o'
    case Provider => 'p'
    case Status => 's'
    case TerminationReason => 't'
  }

  lemma {:induction false} StartsWithInitial(field: Field)
    ensures Name(field) != "" && Name(field)[0] == Initial(field)
  {}

  lemma {:induction false} FieldOfName(event: string, f: Fields, name: string, value: string) returns (field: Field)
    requires Labelled(event, f, name, value)
    ensures Name(field) == name && FieldOf(event, f, field) == Some(value)
  {
    field := if name == "event" then EventName else if name == "agent_name" then AgentName
             else if name == "failure_class" then FailureClass else if name == "kind" then Kind
             else if name == "model" then Model else if name == "operation" then Operation
             else if name == "provider" then Provider else if name == "status" then Status else TerminationReason;
    LabelledIff(event, f, field, value);
  }

  predicate InitialsRise(fields: seq<Field>) {
    forall i, j :: 0 <= i < j < |fields| ==> Initial(fields[i]) < Initial(fields[j])
  }

  lemma {:induction false} LabelsRise(event: string, f: Fields, fields: seq<Field>)
    requires InitialsRise(fields)
    ensures var labels := Metrics.LabelsOf(event, f, fields);
      forall i, j :: 0 <= i < j < |labels| ==> Initial(labels[i].field) < Initial(labels[j].field)
  {
    if fields != [] {
      var rest := Metrics.LabelsOf(event, f, fields[1..]);
      LabelsRise(event, f, fields[1..]);
      forall i | 0 <= i < |rest| ensures Initial(fields[0]) < Initial(rest[i].field) {
        LabelsOfFields(event, f, fields[1..], rest[i]);
        var j :| 0 <= j < |fields[1..]| && fields[1..][j] == rest[i].field;
        assert fields[j + 1] == rest[i].field;
      }
      var first: seq<Tagged> :=
        if FieldOf(event, f, fields[0]).Some? then [Tagged(fields[0], FieldOf(event, f, fields[0]).value)] else [];
      assert Metrics.LabelsOf(event, f, fields) == first + rest;
    }
  }

  lemma {:induction false} NamesRise(a: Field, b: Field)
    requires Initial(a) < Initial(b)
    ensures StrLe(Name(a), Name(b)) && Name(a) != Name(b)
  {
    StartsWithInitial(a);
    StartsWithInitial(b);
  }

  /** The printed labels of an event are exactly its labels, sorted by name. */
  lemma {:induction false} LabelsRead(event: string, f: Fields)
    ensures var labels := Pairs(MetricLabels(event, f));
      && (forall name, value :: Pair(name, value) in labels <==> Labelled(event, f, name, value))
      && forall i, j :: 0 <= i < j < |labels| ==> StrLe(labels[i].key, labels[j].key) && labels[i].key != labels[j].key
  {
    var tagged := MetricLabels(event, f);
    forall name, value ensures Pair(name, value) in Pairs(tagged) <==> Labelled(event, f, name, value) {
      LabelPrinted(event, f, name, value);
    }
    AllRise();
    LabelsRise(event, f, AllFields());
    assert tagged == Metrics.LabelsOf(event, f, AllFields());
    PairsRise(tagged);
  }

  lemma {:induction false} AllRise()
    ensures InitialsRise(AllFields())
  {}

  lemma {:induction false} PairsRise(tagged: seq<Tagged>)
    requires forall i, j :: 0 <= i < j < |tagged| ==> Initial(tagged[i].field) < Initial(tagged[j].field)
    ensures var labels := Pairs(tagged);
      forall i, j :: 0 <= i < j < |labels| ==> StrLe(labels[i].key, labels[j].key) && labels[i].key != labels[j].key
  {
    forall i, j | 0 <= i < j < |tagged|
      ensures StrLe(Name(tagged[i].field), Name(tagged[j].field)) && Name(tagged[i].field) != Name(tagged[j].field)
    {
      NamesRise(tagged[i].field, tagged[j].field);
    }
  }

  lemma {:induction false} LabelPrinted(event: string, f: Fields, name: string, value: string)
    ensures Pair(name, value) in Pairs(MetricLabels(event, f)) <==> Labelled(event, f, name, value)
  {
    var tagged := MetricLabels(event, f);
    if Pair(name, value) in Pairs(tagged) {
      var i :| 0 <= i < |tagged| && Pairs(tagged)[i] == Pair(name, value);
      LabelsOfFields(event, f, AllFields(), tagged[i]);
      LabelledIff(event, f, tagged[i].field, value);
    }
    if Labelled(event, f, name, value) {
      var field := FieldOfName(event, f, name, value);
      EveryField(field);
      LabelsOfFields(event, f, AllFields(), Tagged(field, value));
      var i :| 0 <= i < |tagged| && tagged[i] == Tagged(field, value);
      assert Pairs(tagged)[i] == Pair(name, value);
    }
  }

  // ----- counts -----

  function Of(history: seq<Recorded>, l: seq<Tagged>): set<int> {
    set k | 0 <= k < |history| && history[k].labels == l
  }

  /** The events with these labels and a duration of at most b. */
  function Timed(history: seq<Recorded>, l: seq<Tagged>, b: Bound): set<int> {
    set k | 0 <= k < |history| && history[k].labels == l && history[k].duration.Some?
            && (b.AtMost? ==> history[k].duration.value <= b.ms as real)
  }

  lemma {:induction false} OneMore(s: set<int>, n: int)
    ensures n !in s ==> |s + {n}| == |s| + 1
    ensures s + {} == s
  {}

  lemma {:induction false} EventsCounted(history: seq<Recorded>, l: seq<Tagged>)
    ensures CountOf(history, l) == |Of(history, l)|
  {
    if history != [] {
      var n := |history| - 1;
      EventsCounted(history[..n], l);
      assert Of(history, l) == Of(history[..n], l) + if history[n].labels == l then {n} else {};
      OneMore(Of(history[..n], l), n);
    }
  }

  lemma {:induction false} DurationsCounted(history: seq<Recorded>, l: seq<Tagged>, b: Bound)
    ensures CountWithin(history, l, b) == |Timed(history, l, b)|
  {
    if history != [] {
      var n := |history| - 1;
      DurationsCounted(history[..n], l, b);
      TimedSnoc(history, l, b);
      OneMore(Timed(history[..n], l, b), n);
    }
  }

  lemma {:induction false} TimedSnoc(history: seq<Recorded>, l: seq<Tagged>, b: Bound)
    requires history != []
    ensures var n := |history| - 1;
      n !in Timed(history[..n], l, b)
        && Timed(history, l, b) == Timed(history[..n], l, b) + if Hit(history[n], l, b) == 1 then {n} else {}
  {}

  /** The numbers that are printed count the events recorded. */
  lemma {:induction false} CountsRead(history: seq<Recorded>, l: seq<Tagged>, b: Bound)
    ensures CountOf(history, l) == |Of(history, l)| && CountWithin(history, l, b) == |Timed(history, l, b)|
  {
    EventsCounted(history, l);
    DurationsCounted(history, l, b);
  }
}
