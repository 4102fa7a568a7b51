/** The events of a coding-agent session as they reach its single subscriber. The translation of a raw
    event to a canonical one is a pure function of the event and is part of the input here. */
module PiSession {
  import opened Text
  import opened Folding

  /** What the end of a turn reports: the response, and the rest, which is kept as it is. */
  datatype Output = Output(response: string, rest: int)

  /** A canonical event as mapped from a raw one. */
  datatype Canonical = TurnEnd(output: Output) | AgentEnd(id: int) | Other(id: int)

  /** What the subscriber is given: a canonical event, a thinking block as telemetry, or the synthetic
      end of a suspended session. */
  datatype Event = Given(event: Canonical) | Thinking(content: string) | SuspendedEnd

  /** A raw event: a completed text or thinking block, or one with its canonical form, if it has one. */
  datatype Raw = TextEnd(content: string) | ThinkingEnd(content: string) | Mapped(event: Option<Canonical>)

  datatype Input = Received(raw: Raw) | Suspend

  datatype Session = Session(accumulated: string, suspended: bool, suspendEnded: bool)

  const NEW := Session("", false, false)

  function Handle(s: Session, raw: Raw): (Session, seq<Event>) {
    match raw
    case TextEnd(content) => (s.(accumulated := s.accumulated + content), [])
    case ThinkingEnd(content) => (s, [Thinking(content)])
    case Mapped(None) => (s, [])
    case Mapped(Some(event)) =>
      if s.suspended && event.TurnEnd? then (s, [])
      else if s.suspended && event.AgentEnd? then
        if s.suspendEnded then (s, []) else (s.(suspendEnded := true), [SuspendedEnd])
      else if event.TurnEnd? then
        var response := if s.accumulated != "" then s.accumulated else event.output.response;
        (s.(accumulated := ""), [Given(TurnEnd(event.output.(response := response)))])
      else (s, [Given(event)])
  }

  function Next(s: Session, input: Input): (Session, seq<Event>) {
    match input
    case Received(raw) => Handle(s, raw)
    case Suspend => (s.(suspended := true), [])
  }

  /** The session after a trace of inputs, and what the subscriber was given. */
  function Trace(s: Session, inputs: seq<Input>): (Session, seq<Event>)
    decreases |inputs|
  {
    if inputs == [] then (s, [])
    else
      var (t, out) := Next(s, inputs[0]);
      var (u, rest) := Trace(t, inputs[1..]);
      (u, out + rest)
  }

  class PiHarnessSession {
    var accumulatedResponse: string
    var suspended: bool
    var suspendEnded: bool

    constructor ()
      ensures State() == NEW
    {
      accumulatedResponse, suspended, suspendEnded := "", false, false;
    }

    function State(): Session
      reads this
    {
      Session(accumulatedResponse, suspended, suspendEnded)
    }

    /** The handler given to the SDK; `events` are the calls of the subscriber. */
    method OnRawEvent(raw: Raw) returns (events: seq<Event>)
      modifies this
      ensures (State(), events) == Handle(old(State()), raw)
    {
      if raw.TextEnd? {
        accumulatedResponse := accumulatedResponse + raw.content;
        return [];
      }
      if raw.ThinkingEnd? {
        return [Thinking(raw.content)];
      }
      if raw.event.None? {
        return [];
      }
      var mapped := raw.event.value;
      if suspended {
        if mapped.TurnEnd? {
          return [];
        }
        if mapped.AgentEnd? {
          if suspendEnded {
            return [];
          }
          suspendEnded := true;
          return [SuspendedEnd];
        }
      }
      if mapped.TurnEnd? {
        var response := if accumulatedResponse != "" then accumulatedResponse else mapped.output.response;
        accumulatedResponse := "";
        return [Given(TurnEnd(mapped.output.(response := response)))];
      }
      return [Given(mapped)];
    }

    method Suspend()
      modifies this
      ensures State() == old(State()).(suspended := true)
    {
      suspended := true;
    }
  }

  lemma {:induction false} TraceConcat(s: Session, a: seq<Input>, b: seq<Input>)
    ensures Trace(s, a + b).0 == Trace(Trace(s, a).0, b).0
    ensures Trace(s, a + b).1 == Trace(s, a).1 + Trace(Trace(s, a).0, b).1
    decreases |a|
  {
    if a == [] {
      assert a + b == b;
    } else {
      assert (a + b)[1..] == a[1..] + b && (a + b)[0] == a[0];
      var (t, out) := Next(s, a[0]);
      TraceConcat(t, a[1..], b);
      var x, y := Trace(t, a[1..]).1, Trace(Trace(t, a[1..]).0, b).1;
      assert out + (x + y) == (out + x) + y;
    }
  }

  // ----- text -----

  predicate NotSuspended(inputs: seq<Input>) {
    forall i | 0 <= i < |inputs| :: inputs[i] != Suspend
  }

  function TextIn(): Input -> string {
    (i: Input) => if i.Received? && i.raw.TextEnd? then i.raw.content else ""
  }

  /** All text of the inputs, in order. */
  function TextOf(inputs: seq<Input>): string {
    FlatMap(TextIn(), inputs)
  }

  predicate EndsTurn(i: Input) {
    i.Received? && i.raw.Mapped? && i.raw.event.Some? && i.raw.event.value.TurnEnd?
  }

  /** The outputs of the turn ends, as mapped. */
  function TurnsIn(): Input -> seq<Output> {
    (i: Input) => if EndsTurn(i) then [i.raw.event.value.output] else []
  }

  function TurnOutputs(inputs: seq<Input>): seq<Output> {
    FlatMap(TurnsIn(), inputs)
  }

  function TurnsGiven(): Event -> seq<Output> {
    (e: Event) => if e.Given? && e.event.TurnEnd? then [e.event.output] else []
  }

  /** The inputs cut at the turn ends: the last part belongs to the turn not ended. */
  function Turns(inputs: seq<Input>): (turns: seq<seq<Input>>)
    ensures |turns| >= 1
  {
    if inputs == [] then [[]]
    else
      var rest := Turns(inputs[1..]);
      if EndsTurn(inputs[0]) then [[]] + rest else [[inputs[0]] + rest[0]] + rest[1..]
  }

  /** The text of each turn, the unfinished one last. */
  function TurnTexts(inputs: seq<Input>): (texts: seq<string>)
    ensures |texts| >= 1
  {
    Map(TextOf, Turns(inputs))
  }

  function Prepended(text: string, texts: seq<string>): (r: seq<string>)
    requires |texts| >= 1
    ensures |r| == |texts|
  {
    [text + texts[0]] + texts[1..]
  }

  lemma {:induction false} TurnTextsStep(inputs: seq<Input>)
    requires inputs != []
    ensures TurnTexts(inputs)
         == if EndsTurn(inputs[0]) then [""] + TurnTexts(inputs[1..]) else Prepended(TextIn()(inputs[0]), TurnTexts(inputs[1..]))
  {
  }

  function Same(): string -> string {
    (t: string) => t
  }

  /** The texts of the turns are all text of the inputs. */
  lemma {:induction false} TurnTextsAreAllText(inputs: seq<Input>)
    ensures FlatMap(Same(), TurnTexts(inputs)) == TextOf(inputs)
  {
    if inputs == [] {
      assert TurnTexts(inputs) == [""];
    } else {
      var texts := TurnTexts(inputs[1..]);
      TurnTextsAreAllText(inputs[1..]);
      TurnTextsStep(inputs);
      if EndsTurn(inputs[0]) {
        assert ([""] + texts)[1..] == texts;
      } else {
        assert Prepended(TextIn()(inputs[0]), texts)[1..] == texts[1..];
      }
    }
  }

  /** The outputs of the ends of turns with their texts; a turn without text keeps what was mapped. */
  function WithTexts(texts: seq<string>, outputs: seq<Output>): (r: seq<Output>)
    requires |texts| > |outputs|
  {
    if outputs == [] then []
    else
      [if texts[0] != "" then outputs[0].(response := texts[0]) else outputs[0]] + WithTexts(texts[1..], outputs[1..])
  }

  lemma {:induction false} TurnCount(inputs: seq<Input>)
    ensures |TurnTexts(inputs)| == |TurnOutputs(inputs)| + 1
  {
    if inputs != [] {
      TurnCount(inputs[1..]);
      TurnTextsStep(inputs);
    }
  }

  lemma {:induction false} StepGives(s: Session, input: Input)
    requires !s.suspended && input != Suspend
    ensures var (t, out) := Next(s, input);
            && !t.suspended
            && FlatMap(TurnsGiven(), out)
               == (if EndsTurn(input) then WithTexts([s.accumulated, ""], TurnsIn()(input)) else [])
            && t.accumulated == if EndsTurn(input) then "" else s.accumulated + TextIn()(input)
  {
  }

  lemma {:induction false} PrependTwice(a: string, b: string, texts: seq<string>)
    requires |texts| >= 1
    ensures Prepended(a, Prepended(b, texts)) == Prepended(a + b, texts)
    ensures Prepended("", texts) == texts && Prepended(a, [""] + texts) == [a] + texts
  {
    assert a + (b + texts[0]) == (a + b) + texts[0];
    assert "" + texts[0] == texts[0] && [texts[0]] + texts[1..] == texts;
    assert a + "" == a && ([""] + texts)[1..] == texts;
  }

  lemma {:induction false} TraceStep(s: Session, inputs: seq<Input>)
    requires inputs != []
    ensures var (t, out) := Next(s, inputs[0]);
            && Trace(s, inputs).0 == Trace(t, inputs[1..]).0
            && FlatMap(TurnsGiven(), Trace(s, inputs).1)
               == FlatMap(TurnsGiven(), out) + FlatMap(TurnsGiven(), Trace(t, inputs[1..]).1)
  {
    var (t, out) := Next(s, inputs[0]);
    FlatMapConcat(TurnsGiven(), out, Trace(t, inputs[1..]).1);
  }

  lemma {:induction false} WithTextsStep(text: string, texts: seq<string>, output: Output, outputs: seq<Output>)
    requires |texts| > |outputs|
    ensures WithTexts([text] + texts, [output] + outputs) == WithTexts([text, ""], [output]) + WithTexts(texts, outputs)
  {
    assert ([text] + texts)[1..] == texts && ([output] + outputs)[1..] == outputs;
  }

  /** Given the text already held: what the ends of turns are given, and what is held at the end. */
  ghost predicate GetText(text: string, inputs: seq<Input>, s: Session, out: seq<Event>) {
    && |TurnTexts(inputs)| == |TurnOutputs(inputs)| + 1
    && FlatMap(TurnsGiven(), out) == WithTexts(Prepended(text, TurnTexts(inputs)), TurnOutputs(inputs))
    && s.accumulated == Prepended(text, TurnTexts(inputs))[|TurnTexts(inputs)| - 1]
  }

  lemma {:induction false} EndGetsText(text: string, inputs: seq<Input>, s: Session, first: seq<Event>, rest: seq<Event>, out: seq<Event>)
    requires inputs != [] && EndsTurn(inputs[0]) && GetText("", inputs[1..], s, rest)
    requires FlatMap(TurnsGiven(), first) == WithTexts([text, ""], TurnsIn()(inputs[0]))
    requires FlatMap(TurnsGiven(), out) == FlatMap(TurnsGiven(), first) + FlatMap(TurnsGiven(), rest)
    ensures GetText(text, inputs, s, out)
  {
    var texts, outputs := TurnTexts(inputs[1..]), TurnOutputs(inputs[1..]);
    TurnCount(inputs);
    TurnTextsStep(inputs);
    PrependTwice(text, "", texts);
    WithTextsStep(text, texts, inputs[0].raw.event.value.output, outputs);
  }

  lemma {:induction false} OtherGetsText(text: string, inputs: seq<Input>, s: Session, rest: seq<Event>, out: seq<Event>)
    requires inputs != [] && !EndsTurn(inputs[0]) && GetText(text + TextIn()(inputs[0]), inputs[1..], s, rest)
    requires FlatMap(TurnsGiven(), out) == FlatMap(TurnsGiven(), rest)
    ensures GetText(text, inputs, s, out)
  {
    TurnCount(inputs);
    TurnTextsStep(inputs);
    PrependTwice(text, TextIn()(inputs[0]), TurnTexts(inputs[1..]));
    assert TurnOutputs(inputs) == TurnOutputs(inputs[1..]);
  }

  lemma {:induction false} TurnsGetText(s: Session, inputs: seq<Input>)
    requires !s.suspended && NotSuspended(inputs)
    ensures GetText(s.accumulated, inputs, Trace(s, inputs).0, Trace(s, inputs).1)
    decreases |inputs|
  {
    if inputs != [] {
      var (t, out) := Next(s, inputs[0]);
      var (last, rest) := Trace(t, inputs[1..]);
      StepGives(s, inputs[0]);
      TraceStep(s, inputs);
      TurnsGetText(t, inputs[1..]);
      if EndsTurn(inputs[0]) {
        EndGetsText(s.accumulated, inputs, last, out, rest, Trace(s, inputs).1);
      } else {
        OtherGetsText(s.accumulated, inputs, last, rest, Trace(s, inputs).1);
      }
    }
  }

  /** Until a suspension each end of a turn carries the text of its turn, and the text not yet given is
      held back for the next: nothing is lost, repeated or moved to another turn. */
  lemma {:induction false} TextIsConserved(inputs: seq<Input>)
    requires NotSuspended(inputs)
    ensures |TurnTexts(inputs)| == |TurnOutputs(inputs)| + 1
    ensures FlatMap(TurnsGiven(), Trace(NEW, inputs).1) == WithTexts(TurnTexts(inputs), TurnOutputs(inputs))
    ensures Trace(NEW, inputs).0.accumulated == TurnTexts(inputs)[|TurnTexts(inputs)| - 1]
    ensures FlatMap(Same(), TurnTexts(inputs)) == TextOf(inputs)
  {
    TurnsGetText(NEW, inputs);
    TurnTextsAreAllText(inputs);
    PrependTwice("", "", TurnTexts(inputs));
  }

  // ----- order and suspension -----

  /** An event apart from the response of a turn end. */
  function Shape(e: Event): Event {
    if e.Given? && e.event.TurnEnd? then Given(TurnEnd(e.event.output.(response := ""))) else e
  }

  function EventsIn(): Input -> seq<Event> {
    (i: Input) =>
      if i.Received? && i.raw.ThinkingEnd? then [Thinking(i.raw.content)]
      else if i.Received? && i.raw.Mapped? && i.raw.event.Some? then [Shape(Given(i.raw.event.value))]
      else []
  }

  function Shapes(): Event -> seq<Event> {
    (e: Event) => [Shape(e)]
  }

  /** Until a suspension every event is passed on, in order, changed only in the response of turn ends. */
  lemma {:induction false} AllPassedOn(s: Session, inputs: seq<Input>)
    requires !s.suspended && NotSuspended(inputs)
    ensures FlatMap(Shapes(), Trace(s, inputs).1) == FlatMap(EventsIn(), inputs)
    decreases |inputs|
  {
    if inputs != [] {
      var (t, out) := Next(s, inputs[0]);
      AllPassedOn(t, inputs[1..]);
      FlatMapConcat(Shapes(), out, Trace(t, inputs[1..]).1);
      if out != [] {
        FlatMapOne(Shapes(), out[0]);
      }
    }
  }

  predicate Terminal(e: Event) {
    e.SuspendedEnd? || (e.Given? && !e.event.Other?)
  }

  function Others(): Event -> seq<Event> {
    (e: Event) => if Terminal(e) then [] else [e]
  }

  function OthersIn(): Input -> seq<Event> {
    (i: Input) => FlatMap(Others(), EventsIn()(i))
  }

  lemma {:induction false} StepKeepsOthers(s: Session, input: Input)
    ensures FlatMap(Others(), Next(s, input).1) == OthersIn()(input)
  {
    var out := Next(s, input).1;
    if out != [] {
      FlatMapOne(Others(), out[0]);
    }
    if EventsIn()(input) != [] {
      FlatMapOne(Others(), EventsIn()(input)[0]);
    }
  }

  /** Suspended or not, the other events are passed on unchanged and in order. */
  lemma {:induction false} OthersKeepOrder(s: Session, inputs: seq<Input>)
    ensures FlatMap(Others(), Trace(s, inputs).1) == FlatMap(OthersIn(), inputs)
    decreases |inputs|
  {
    if inputs != [] {
      var (t, out) := Next(s, inputs[0]);
      StepKeepsOthers(s, inputs[0]);
      OthersKeepOrder(t, inputs[1..]);
      FlatMapConcat(Others(), out, Trace(t, inputs[1..]).1);
    }
  }

  predicate EndsAgent(i: Input) {
    i.Received? && i.raw.Mapped? && i.raw.event.Some? && i.raw.event.value.AgentEnd?
  }

  function TerminalsOf(): Event -> seq<Event> {
    (e: Event) => if Terminal(e) then [e] else []
  }

  predicate SomeAgentEnd(inputs: seq<Input>) {
    exists i | 0 <= i < |inputs| :: EndsAgent(inputs[i])
  }

  lemma {:induction false} SomeAgentEndStep(inputs: seq<Input>)
    requires inputs != []
    ensures SomeAgentEnd(inputs) <==> EndsAgent(inputs[0]) || SomeAgentEnd(inputs[1..])
  {
  }

  lemma {:induction false} StepEnds(s: Session, input: Input)
    requires s.suspended
    ensures var (t, out) := Next(s, input);
            && t.suspended
            && FlatMap(TerminalsOf(), out) == (if EndsAgent(input) && !s.suspendEnded then [SuspendedEnd] else [])
            && t.suspendEnded == (s.suspendEnded || EndsAgent(input))
  {
  }

  /** Once suspended, the only terminal event given is one suspended end, at the first agent end. */
  lemma {:induction false} OnlySuspendedEnd(s: Session, inputs: seq<Input>)
    requires s.suspended
    ensures FlatMap(TerminalsOf(), Trace(s, inputs).1)
         == if !s.suspendEnded && SomeAgentEnd(inputs) then [SuspendedEnd] else []
    decreases |inputs|
  {
    if inputs != [] {
      var (t, out) := Next(s, inputs[0]);
      StepEnds(s, inputs[0]);
      OnlySuspendedEnd(t, inputs[1..]);
      FlatMapConcat(TerminalsOf(), out, Trace(t, inputs[1..]).1);
      SomeAgentEndStep(inputs);
    }
  }

  /** A whole session that is suspended once `before` has been received. */
  lemma {:induction false} SuspendedSession(before: seq<Input>, after: seq<Input>) returns (later: seq<Event>)
    requires NotSuspended(before)
    ensures Trace(NEW, before + [Suspend] + after).1 == Trace(NEW, before).1 + later
    ensures FlatMap(TerminalsOf(), later) == if SomeAgentEnd(after) then [SuspendedEnd] else []
    ensures FlatMap(Others(), later) == FlatMap(OthersIn(), after)
  {
    var s := Trace(NEW, before).0;
    NeverSuspended(NEW, before);
    SuspendedAfter(before);
    TraceConcat(NEW, before + [Suspend], after);
    var t := s.(suspended := true);
    later := Trace(t, after).1;
    OnlySuspendedEnd(t, after);
    OthersKeepOrder(t, after);
  }

  lemma {:induction false} SuspendedAfter(before: seq<Input>)
    ensures Trace(NEW, before + [Suspend]).0 == Trace(NEW, before).0.(suspended := true)
    ensures Trace(NEW, before + [Suspend]).1 == Trace(NEW, before).1
  {
    var s := Trace(NEW, before).0;
    TraceConcat(NEW, before, [Suspend]);
    assert [Input.Suspend][1..] == [];
    assert Trace(s, [Suspend]) == (s.(suspended := true), [] + []);
  }

  lemma {:induction false} NeverSuspended(s: Session, inputs: seq<Input>)
    requires !s.suspended && !s.suspendEnded && NotSuspended(inputs)
    ensures !Trace(s, inputs).0.suspended && !Trace(s, inputs).0.suspendEnded
    decreases |inputs|
  {
    if inputs != [] {
      NeverSuspended(Next(s, inputs[0]).0, inputs[1..]);
    }
  }
}
