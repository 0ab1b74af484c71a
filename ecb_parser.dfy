/** The streaming feed parser (euro_converter/ecb/parser.py). The XML
    tokeniser is not modelled: the parser consumes the sequence of
    `start-ns`, `start` and `end` events the tokeniser would produce, and its
    output is the list of day records it yields, plus the error that ends the
    stream, if any. */
module EcbParser {
  import opened Wrappers
  import FixedPoint

  /** A day record: `"date"` maps to the day, every other key is a currency. */
  type Record = map<string, string>
  type Attributes = map<string, string>

  datatype Event =
    | StartNs(prefix: string, uri: string)
    | Start(tag: string, attrib: Attributes)
    | End(tag: string)

  datatype ParseError =
      /** A `Cube` lacks an attribute the parser reads (Python's `KeyError`). */
    | MissingAttribute(name: string)
      /** The stream ended with a day record still pending. */
    | DataLeft(partial: Record, level: int)

  datatype ParseOutcome = ParseOutcome(records: seq<Record>, error: Option<ParseError>)

  /** The parser's local variables between two events, the records yielded so
      far, and the exception that stopped it, if one did. */
  datatype State = State(
    namespaces: map<string, string>,
    level: int,
    cubeTag: Option<string>,
    pending: Option<Record>,
    emitted: seq<Record>,
    failed: Option<ParseError>)

  const INIT: State := State(map[], 0, None, None, [], None)

  /** The namespaced tag of the `Cube` elements. */
  function CubeTag(uri: string): string {
    "{" + uri + "}Cube"
  }

  /** A rate without a decimal point gets `".0"` appended. */
  function NormalizeRate(rate: string): (r: string)
    ensures '.' in r
    ensures rate <= r
    ensures '.' !in rate ==> r == rate + ".0"
    ensures r == rate <==> '.' in rate
  {
    if '.' !in rate then rate + ".0" else rate
  }

  /** Normalising never changes the decimal a rate casts to. */
  lemma NormalizeRateKeepsValue(rate: string)
    ensures FixedPoint.CastDecimal(NormalizeRate(rate)) == FixedPoint.CastDecimal(rate)
  {
    if '.' !in rate {
      FixedPoint.PointZeroKeepsValue(rate);
    }
  }

  lemma NormalizeRateIdempotent(rate: string)
    ensures NormalizeRate(NormalizeRate(rate)) == NormalizeRate(rate)
  {
  }

  /** What holds between any two events: the depth never exceeds 3, and a
      day record is pending exactly while inside a date-level `Cube`. */
  ghost predicate Inv(st: State) {
    st.level <= 3 && (st.pending.Some? <==> st.level >= 2)
  }

  /** One iteration of the parser's loop. */
  function Step(st: State, e: Event): (r: State)
    requires Inv(st)
    ensures Inv(r)
    ensures st.emitted <= r.emitted && |r.emitted| <= |st.emitted| + 1
    ensures st.failed.Some? ==> r == st
  {
    if st.failed.Some? then st
    else match e
      case Start(tag, attrib) =>
        if Some(tag) != st.cubeTag then st
        else if st.level == 2 then
          if "rate" !in attrib then st.(failed := Some(MissingAttribute("rate")))
          else if "currency" !in attrib then st.(failed := Some(MissingAttribute("currency")))
          else
            st.(pending := Some(st.pending.value[attrib["currency"] := NormalizeRate(attrib["rate"])]),
                level := 3)
        else if st.level == 1 then
          if "time" !in attrib then st.(failed := Some(MissingAttribute("time")))
          else st.(pending := Some(map["date" := attrib["time"]]), level := 2)
        else if st.level == 0 then st.(level := 1)
        else st
      case End(tag) =>
        if Some(tag) != st.cubeTag then st
        else if st.level - 1 == 1 then
          st.(level := 1, emitted := st.emitted + [st.pending.value], pending := None)
        else st.(level := st.level - 1)
      case StartNs(prefix, uri) =>
        st.(namespaces := st.namespaces[prefix := uri],
            cubeTag := if prefix == "" then Some(CubeTag(uri)) else st.cubeTag)
  }

  /** The loop run over a sequence of events. */
  function Run(st: State, events: seq<Event>): (r: State)
    requires Inv(st)
    ensures Inv(r)
    ensures st.emitted <= r.emitted
    ensures st.failed.Some? ==> r == st
    decreases |events|
  {
    if events == [] then st
    else Step(Run(st, events[..|events| - 1]), events[|events| - 1])
  }

  /** The check after the loop: a pending record at the end is an error. */
  function Finish(st: State): ParseOutcome {
    if st.failed.Some? then ParseOutcome(st.emitted, st.failed)
    else if st.pending.Some? then ParseOutcome(st.emitted, Some(DataLeft(st.pending.value, st.level)))
    else ParseOutcome(st.emitted, None)
  }

  function Parse(events: seq<Event>): ParseOutcome {
    Finish(Run(INIT, events))
  }

  /** `parse_xml`, with the records it yields collected in order. */
  method ParseXml(events: seq<Event>) returns (out: ParseOutcome)
    ensures out == Parse(events)
  {
    var namespaceMap: map<string, string> := map[];
    var cubeLevel := 0;
    var cubeTag: Option<string> := None;
    var currentDayRates: Option<Record> := None;
    var emitted: seq<Record> := [];
    var i := 0;
    while i < |events|
      invariant 0 <= i <= |events|
      invariant Run(INIT, events[..i]) == State(namespaceMap, cubeLevel, cubeTag, currentDayRates, emitted, None)
    {
      RunPrefixStep(events, i);
      var e := events[i];
      match e {
        case Start(tag, attrib) =>
          if Some(tag) == cubeTag {
            if cubeLevel == 2 {
              if "rate" !in attrib {
                out := ParseOutcome(emitted, Some(MissingAttribute("rate")));
                StoppedAt(events, i + 1);
                return;
              }
              var rate := attrib["rate"];
              if '.' !in rate {
                rate := rate + ".0";
              }
              if "currency" !in attrib {
                out := ParseOutcome(emitted, Some(MissingAttribute("currency")));
                StoppedAt(events, i + 1);
                return;
              }
              currentDayRates := Some(currentDayRates.value[attrib["currency"] := rate]);
              cubeLevel := cubeLevel + 1;
            } else if cubeLevel == 1 {
              if "time" !in attrib {
                out := ParseOutcome(emitted, Some(MissingAttribute("time")));
                StoppedAt(events, i + 1);
                return;
              }
              currentDayRates := Some(map["date" := attrib["time"]]);
              cubeLevel := cubeLevel + 1;
            } else if cubeLevel == 0 {
              cubeLevel := cubeLevel + 1;
            }
          }
        case End(tag) =>
          if Some(tag) == cubeTag {
            cubeLevel := cubeLevel - 1;
            if cubeLevel == 1 {
              emitted := emitted + [currentDayRates.value];
              currentDayRates := None;
            }
          }
        case StartNs(prefix, uri) =>
          namespaceMap := namespaceMap[prefix := uri];
          if prefix == "" {
            cubeTag := Some(CubeTag(uri));
          }
      }
      i := i + 1;
    }
    assert events[..i] == events;
    if currentDayRates.Some? {
      out := ParseOutcome(emitted, Some(DataLeft(currentDayRates.value, cubeLevel)));
    } else {
      out := ParseOutcome(emitted, None);
    }
  }

  /** One more event of the input is one more step of the loop. */
  lemma RunPrefixStep(events: seq<Event>, i: nat)
    requires i < |events|
    ensures Run(INIT, events[..i + 1]) == Step(Run(INIT, events[..i]), events[i])
  {
    assert events[..i + 1][..i] == events[..i];
  }

  /** Running two pieces of input one after the other is running their
      concatenation. */
  lemma {:induction false} RunAppend(st: State, a: seq<Event>, b: seq<Event>)
    requires Inv(st)
    ensures Run(st, a + b) == Run(Run(st, a), b)
    decreases |b|
  {
    if b == [] {
      assert a + b == a;
    } else {
      assert (a + b)[..|a + b| - 1] == a + b[..|b| - 1];
      RunAppend(st, a, b[..|b| - 1]);
    }
  }

  lemma RunCons(st: State, e: Event, rest: seq<Event>)
    requires Inv(st)
    ensures Run(st, [e] + rest) == Run(Step(st, e), rest)
  {
    RunAppend(st, [e], rest);
    assert [e][..0] == [];
  }

  /** Once an event has raised, the events after it change nothing. */
  lemma StoppedAt(events: seq<Event>, k: nat)
    requires k <= |events|
    requires Run(INIT, events[..k]).failed.Some?
    ensures Parse(events) == Finish(Run(INIT, events[..k]))
  {
    RunAppend(INIT, events[..k], events[k..]);
    assert events[..k] + events[k..] == events;
  }

  /** Streaming: what has been yielded after a prefix of the input stays at
      the front of everything yielded, so no record is taken back, repeated
      or reordered by later input. */
  lemma EmittedGrows(events: seq<Event>, k: nat)
    requires k <= |events|
    ensures Run(INIT, events[..k]).emitted <= Parse(events).records
  {
    RunAppend(INIT, events[..k], events[k..]);
    assert events[..k] + events[k..] == events;
  }

  /** Without a `start-ns` event for the default namespace the `Cube` tag is
      never known, so nothing is yielded and nothing raises. */
  lemma {:induction false} NoDefaultNamespaceNoRecords(events: seq<Event>)
    requires forall e :: e in events ==> !(e.StartNs? && e.prefix == "")
    ensures Parse(events) == ParseOutcome([], None)
    ensures Run(INIT, events).cubeTag == None && Run(INIT, events).level == 0
    decreases |events|
  {
    if events != [] {
      var front := events[..|events| - 1];
      assert forall e :: e in front ==> e in events;
      NoDefaultNamespaceNoRecords(front);
      assert events[|events| - 1] in events;
    }
  }

  // ---------------------------------------------------------------------
  // Well-formed documents: an envelope element holding the outer `Cube`, one
  // `Cube time=...` per day, and inside it one `Cube currency=... rate=...`
  // per currency.

  datatype Day = Day(time: string, rates: seq<(string, string)>)

  function RateEvents(tag: string, rates: seq<(string, string)>): seq<Event> {
    if rates == [] then []
    else [Start(tag, map["currency" := rates[0].0, "rate" := rates[0].1]), End(tag)]
         + RateEvents(tag, rates[1..])
  }

  function DayEvents(tag: string, d: Day): seq<Event> {
    [Start(tag, map["time" := d.time])] + RateEvents(tag, d.rates) + [End(tag)]
  }

  function DaysEvents(tag: string, days: seq<Day>): seq<Event> {
    if days == [] then [] else DayEvents(tag, days[0]) + DaysEvents(tag, days[1..])
  }

  function Prologue(uri: string, envelope: string): seq<Event> {
    [StartNs("", uri), Start(envelope, map[]), Start(CubeTag(uri), map[])]
  }

  function Document(uri: string, envelope: string, days: seq<Day>): seq<Event> {
    Prologue(uri, envelope) + DaysEvents(CubeTag(uri), days) + [End(CubeTag(uri)), End(envelope)]
  }

  /** The record a day's currencies build: later duplicates overwrite. */
  function AddRates(rec: Record, rates: seq<(string, string)>): Record
    decreases |rates|
  {
    if rates == [] then rec else AddRates(rec[rates[0].0 := NormalizeRate(rates[0].1)], rates[1..])
  }

  function DayRecord(d: Day): Record {
    AddRates(map["date" := d.time], d.rates)
  }

  function DayRecords(days: seq<Day>): seq<Record> {
    if days == [] then [] else [DayRecord(days[0])] + DayRecords(days[1..])
  }

  lemma {:induction false} RunRates(st: State, tag: string, rates: seq<(string, string)>)
    requires Inv(st) && st.failed.None? && st.cubeTag == Some(tag) && st.level == 2
    ensures Run(st, RateEvents(tag, rates)) == st.(pending := Some(AddRates(st.pending.value, rates)))
    decreases |rates|
  {
    if rates != [] {
      var s := Start(tag, map["currency" := rates[0].0, "rate" := rates[0].1]);
      var rest := RateEvents(tag, rates[1..]);
      var st1 := st.(pending := Some(st.pending.value[rates[0].0 := NormalizeRate(rates[0].1)]), level := 3);
      var st2 := st1.(level := 2);
      calc {
        Run(st, RateEvents(tag, rates));
        { assert RateEvents(tag, rates) == [s] + ([End(tag)] + rest); }
        Run(st, [s] + ([End(tag)] + rest));
        { RunCons(st, s, [End(tag)] + rest); assert Step(st, s) == st1; }
        Run(st1, [End(tag)] + rest);
        { RunCons(st1, End(tag), rest); assert Step(st1, End(tag)) == st2; }
        Run(st2, rest);
        { RunRates(st2, tag, rates[1..]); }
        st2.(pending := Some(AddRates(st2.pending.value, rates[1..])));
      }
    }
  }

  lemma RunSingle(st: State, e: Event)
    requires Inv(st)
    ensures Run(st, [e]) == Step(st, e)
  {
    assert [e][..0] == [];
  }

  lemma RunDay(st: State, tag: string, d: Day)
    requires Inv(st) && st.failed.None? && st.cubeTag == Some(tag) && st.level == 1
    ensures Run(st, DayEvents(tag, d)) == st.(emitted := st.emitted + [DayRecord(d)])
  {
    var open := Start(tag, map["time" := d.time]);
    var st1 := st.(pending := Some(map["date" := d.time]), level := 2);
    assert Step(st, open) == st1;
    RunCons(st, open, RateEvents(tag, d.rates) + [End(tag)]);
    RunAppend(st1, RateEvents(tag, d.rates), [End(tag)]);
    RunRates(st1, tag, d.rates);
    var st2 := st1.(pending := Some(DayRecord(d)));
    RunSingle(st2, End(tag));
    assert Step(st2, End(tag)) == st.(emitted := st.emitted + [DayRecord(d)]);
    assert DayEvents(tag, d) == [open] + (RateEvents(tag, d.rates) + [End(tag)]);
    calc {
      Run(st, DayEvents(tag, d));
      Run(st1, RateEvents(tag, d.rates) + [End(tag)]);
      Run(Run(st1, RateEvents(tag, d.rates)), [End(tag)]);
      Run(st2, [End(tag)]);
    }
  }

  lemma {:induction false} RunDays(st: State, tag: string, days: seq<Day>)
    requires Inv(st) && st.failed.None? && st.cubeTag == Some(tag) && st.level == 1
    ensures Run(st, DaysEvents(tag, days)) == st.(emitted := st.emitted + DayRecords(days))
    decreases |days|
  {
    if days == [] {
      assert st.emitted + DayRecords(days) == st.emitted;
    } else {
      var st1 := st.(emitted := st.emitted + [DayRecord(days[0])]);
      calc {
        Run(st, DaysEvents(tag, days));
        { RunFirstDay(st, tag, days); }
        Run(st1, DaysEvents(tag, days[1..]));
        { RunDays(st1, tag, days[1..]); }
        st1.(emitted := st1.emitted + DayRecords(days[1..]));
        { assert st1.emitted + DayRecords(days[1..]) == st.emitted + DayRecords(days); }
        st.(emitted := st.emitted + DayRecords(days));
      }
    }
  }

  lemma RunFirstDay(st: State, tag: string, days: seq<Day>)
    requires Inv(st) && st.failed.None? && st.cubeTag == Some(tag) && st.level == 1
    requires days != []
    ensures Run(st, DaysEvents(tag, days))
         == Run(st.(emitted := st.emitted + [DayRecord(days[0])]), DaysEvents(tag, days[1..]))
  {
    RunAppend(st, DayEvents(tag, days[0]), DaysEvents(tag, days[1..]));
    RunDay(st, tag, days[0]);
  }

  lemma RunPrologue(uri: string, envelope: string)
    requires envelope != CubeTag(uri)
    ensures Run(INIT, Prologue(uri, envelope))
         == State(map["" := uri], 1, Some(CubeTag(uri)), None, [], None)
  {
    var tag := CubeTag(uri);
    var st1 := State(map["" := uri], 0, Some(tag), None, [], None);
    assert Step(INIT, StartNs("", uri)) == st1;
    RunCons(INIT, StartNs("", uri), [Start(envelope, map[]), Start(tag, map[])]);
    assert Step(st1, Start(envelope, map[])) == st1;
    RunCons(st1, Start(envelope, map[]), [Start(tag, map[])]);
    RunSingle(st1, Start(tag, map[]));
    assert [StartNs("", uri)] + [Start(envelope, map[]), Start(tag, map[])] == Prologue(uri, envelope);
    assert [Start(envelope, map[])] + [Start(tag, map[])] == [Start(envelope, map[]), Start(tag, map[])];
  }

  /** After the prologue and the complete days, every day has been yielded
      and the parser is back at the level of the outer `Cube`. */
  lemma RunThroughDays(uri: string, envelope: string, days: seq<Day>)
    requires envelope != CubeTag(uri)
    ensures Run(INIT, Prologue(uri, envelope) + DaysEvents(CubeTag(uri), days))
         == State(map["" := uri], 1, Some(CubeTag(uri)), None, DayRecords(days), None)
  {
    var tag := CubeTag(uri);
    var p := Prologue(uri, envelope);
    var st := State(map["" := uri], 1, Some(tag), None, [], None);
    calc {
      Run(INIT, p + DaysEvents(tag, days));
      { RunAppend(INIT, p, DaysEvents(tag, days)); }
      Run(Run(INIT, p), DaysEvents(tag, days));
      { RunPrologue(uri, envelope); }
      Run(st, DaysEvents(tag, days));
      { RunDays(st, tag, days); }
      st.(emitted := [] + DayRecords(days));
      { assert [] + DayRecords(days) == DayRecords(days); }
      State(map["" := uri], 1, Some(tag), None, DayRecords(days), None);
    }
  }

  /** A well-formed document yields one record per day, in document order,
      and ends without error at depth 0. */
  lemma DocumentParses(uri: string, envelope: string, days: seq<Day>)
    requires envelope != CubeTag(uri)
    ensures Parse(Document(uri, envelope, days)) == ParseOutcome(DayRecords(days), None)
    ensures Run(INIT, Document(uri, envelope, days)).level == 0
  {
    var tag := CubeTag(uri);
    var front := Prologue(uri, envelope) + DaysEvents(tag, days);
    var st := State(map["" := uri], 1, Some(tag), None, DayRecords(days), None);
    var st' := st.(level := 0);
    calc {
      Run(INIT, Document(uri, envelope, days));
      { RunAppend(INIT, front, [End(tag), End(envelope)]); }
      Run(Run(INIT, front), [End(tag), End(envelope)]);
      { RunThroughDays(uri, envelope, days); }
      Run(st, [End(tag)] + [End(envelope)]);
      { RunCons(st, End(tag), [End(envelope)]); }
      Run(Step(st, End(tag)), [End(envelope)]);
      { assert Step(st, End(tag)) == st'; }
      Run(st', [End(envelope)]);
      { RunSingle(st', End(envelope)); }
      Step(st', End(envelope));
    }
  }

  /** A document cut off inside a day raises only after every complete day
      before it has been yielded. */
  lemma TruncatedDocumentFails(uri: string, envelope: string, days: seq<Day>, open: Day)
    requires envelope != CubeTag(uri)
    ensures var tag := CubeTag(uri);
      Parse(Prologue(uri, envelope) + DaysEvents(tag, days)
            + [Start(tag, map["time" := open.time])] + RateEvents(tag, open.rates))
      == ParseOutcome(DayRecords(days), Some(DataLeft(DayRecord(open), 2)))
  {
    var tag := CubeTag(uri);
    var front := Prologue(uri, envelope) + DaysEvents(tag, days);
    var s := Start(tag, map["time" := open.time]);
    var st := State(map["" := uri], 1, Some(tag), None, DayRecords(days), None);
    var st1 := st.(pending := Some(map["date" := open.time]), level := 2);
    calc {
      Run(INIT, front + [s] + RateEvents(tag, open.rates));
      { RunAppend(INIT, front + [s], RateEvents(tag, open.rates)); }
      Run(Run(INIT, front + [s]), RateEvents(tag, open.rates));
      { RunAppend(INIT, front, [s]); RunThroughDays(uri, envelope, days); }
      Run(Run(st, [s]), RateEvents(tag, open.rates));
      { RunSingle(st, s); }
      Run(st1, RateEvents(tag, open.rates));
      { RunRates(st1, tag, open.rates); }
      st1.(pending := Some(DayRecord(open)));
    }
  }
}
