/** The reader of server-sent events of the ACP client. Decoding bytes to text is taken to be
    independent of chunk boundaries, and JSON parsing is a parameter: text to an event, or nothing. */
module SseParser {
  import opened Text
  import opened Folding

  const NEWLINE := '\n'
  const DATA := "data: "
  const DONE := "data: [DONE]"

  type JsonParse<!E> = string -> Option<E>

  /** The event a line carries, as a list of at most one. */
  function EventIn<E>(parse: JsonParse<E>, line: string): seq<E> {
    if StartsWith(line, DATA) then
      match parse(line[|DATA|..])
      case Some(e) => [e]
      case None => []
    else []
  }

  function LineEvents<E>(parse: JsonParse<E>): string -> seq<E> {
    line => EventIn(parse, line)
  }

  /** The lines ended by a newline; what follows the last newline is not a line. */
  function CompleteLines(text: string): seq<string> {
    var parts := Split(text, NEWLINE);
    parts[..|parts| - 1]
  }

  /** The lines before the first sentinel. */
  function BeforeDone(lines: seq<string>): (before: seq<string>)
    ensures before <= lines && DONE !in before
    ensures |before| < |lines| ==> lines[|before|] == DONE
  {
    if lines == [] || lines[0] == DONE then [] else [lines[0]] + BeforeDone(lines[1..])
  }

  /** The events of a whole stream, read at once. */
  function Events<E>(parse: JsonParse<E>, text: string): seq<E> {
    FlatMap(LineEvents(parse), BeforeDone(CompleteLines(text)))
  }

  function Concat(chunks: seq<string>): string {
    if chunks == [] then "" else chunks[0] + Concat(chunks[1..])
  }

  lemma {:induction false} ConcatAppend(chunks: seq<string>, chunk: string)
    ensures Concat(chunks + [chunk]) == Concat(chunks) + chunk
  {
    if chunks == [] {
      assert chunks + [chunk] == [chunk];
    } else {
      assert (chunks + [chunk])[1..] == chunks[1..] + [chunk];
      ConcatAppend(chunks[1..], chunk);
    }
  }

  /** What follows the last newline: the line begun but not ended. */
  function Unfinished(text: string): string {
    var parts := Split(text, NEWLINE);
    parts[|parts| - 1]
  }

  function Prefixed(c: char, parts: seq<string>): seq<string>
    requires parts != []
  {
    [[c] + parts[0]] + parts[1..]
  }

  lemma {:induction false} SplitFrom(c: char, s: string)
    requires c != NEWLINE
    ensures Split([c] + s, NEWLINE) == Prefixed(c, Split(s, NEWLINE))
  {
  }

  lemma {:induction false} PrefixedConcat(c: char, lines: seq<string>, more: seq<string>)
    requires lines != []
    ensures Prefixed(c, lines + more) == Prefixed(c, lines) + more
  {
  }

  /** A letter before a text goes into its first line, finished or not. */
  lemma {:induction false} LetterLines(c: char, tail: string)
    requires c != NEWLINE
    ensures var lines, last := CompleteLines(tail), Unfinished(tail);
            if lines == [] then CompleteLines([c] + tail) == [] && Unfinished([c] + tail) == [c] + last
            else CompleteLines([c] + tail) == Prefixed(c, lines) && Unfinished([c] + tail) == last
  {
    SplitFrom(c, tail);
  }

  lemma {:induction false} SplitAppendLetter(c: char, tail: string, b: string)
    requires c != NEWLINE
    requires Split(tail + b, NEWLINE) == CompleteLines(tail) + Split(Unfinished(tail) + b, NEWLINE)
    ensures Split([c] + (tail + b), NEWLINE) == CompleteLines([c] + tail) + Split(Unfinished([c] + tail) + b, NEWLINE)
  {
    var lines, last := CompleteLines(tail), Unfinished(tail);
    SplitFrom(c, tail + b);
    LetterLines(c, tail);
    if lines == [] {
      SplitFrom(c, last + b);
      assert [c] + last + b == [c] + (last + b);
    } else {
      PrefixedConcat(c, lines, Split(last + b, NEWLINE));
    }
  }

  lemma {:induction false} SplitAppendNewline(tail: string, b: string)
    requires Split(tail + b, NEWLINE) == CompleteLines(tail) + Split(Unfinished(tail) + b, NEWLINE)
    ensures Split([NEWLINE] + (tail + b), NEWLINE)
         == CompleteLines([NEWLINE] + tail) + Split(Unfinished([NEWLINE] + tail) + b, NEWLINE)
  {
  }

  lemma {:induction false} SplitAppend(a: string, b: string)
    ensures Split(a + b, NEWLINE) == CompleteLines(a) + Split(Unfinished(a) + b, NEWLINE)
  {
    if a == "" {
      assert a + b == b && Unfinished(a) + b == b;
    } else {
      SplitAppend(a[1..], b);
      assert a == [a[0]] + a[1..] && a + b == [a[0]] + (a[1..] + b);
      if a[0] == NEWLINE {
        SplitAppendNewline(a[1..], b);
      } else {
        SplitAppendLetter(a[0], a[1..], b);
      }
    }
  }

  /** More text completes the unfinished line and leaves the lines before it alone. */
  lemma {:induction false} AppendText(a: string, b: string)
    ensures CompleteLines(a + b) == CompleteLines(a) + CompleteLines(Unfinished(a) + b)
    ensures Unfinished(a + b) == Unfinished(Unfinished(a) + b)
  {
    SplitAppend(a, b);
  }

  lemma {:induction false} BeforeDoneAppend(a: seq<string>, b: seq<string>)
    ensures DONE in a ==> BeforeDone(a + b) == BeforeDone(a)
    ensures DONE !in a ==> BeforeDone(a) == a && BeforeDone(a + b) == a + BeforeDone(b)
  {
    if a == [] {
      assert a + b == b;
    } else {
      assert (a + b)[1..] == a[1..] + b;
      assert DONE in a <==> a[0] == DONE || DONE in a[1..];
      BeforeDoneAppend(a[1..], b);
    }
  }

  /** The inner loop: the events of the lines up to the sentinel, and whether it was met. */
  method ReadLines<E>(lines: seq<string>, parse: JsonParse<E>) returns (events: seq<E>, done: bool)
    ensures events == FlatMap(LineEvents(parse), BeforeDone(lines))
    ensures done <==> DONE in lines
  {
    events, done := [], false;
    for j := 0 to |lines|
      invariant DONE !in lines[..j]
      invariant events == FlatMap(LineEvents(parse), lines[..j])
    {
      var line := lines[j];
      assert lines[..j + 1] == lines[..j] + [line];
      LineRead(parse, lines[..j], line);
      if StartsWith(line, DATA) {
        var data := line[|DATA|..];
        if data == "[DONE]" {
          StopsHere(lines, j);
          return events, true;
        }
        match parse(data) {
          case Some(event) => events := events + [event];
          case None =>
        }
      }
    }
    assert lines[..|lines|] == lines;
    BeforeDoneAppend(lines, []);
  }

  lemma {:induction false} StopsHere(lines: seq<string>, j: nat)
    requires j < |lines| && lines[j] == DONE && DONE !in lines[..j]
    ensures BeforeDone(lines) == lines[..j]
  {
  }

  lemma {:induction false} LineRead<E>(parse: JsonParse<E>, before: seq<string>, line: string)
    ensures FlatMap(LineEvents(parse), before + [line]) == FlatMap(LineEvents(parse), before) + EventIn(parse, line)
    ensures line == DONE <==> StartsWith(line, DATA) && line[|DATA|..] == "[DONE]"
  {
    FlatMapConcat(LineEvents(parse), before, [line]);
    FlatMapOne(LineEvents(parse), line);
  }

  /** However the text is cut into chunks, the events are those of the text read at once. */
  method ParseSseStream<E>(chunks: seq<string>, parse: JsonParse<E>) returns (events: seq<E>)
    ensures events == Events(parse, Concat(chunks))
  {
    events := [];
    var buffer := "";
    for i := 0 to |chunks|
      invariant buffer == Unfinished(Concat(chunks[..i]))
      invariant DONE !in CompleteLines(Concat(chunks[..i]))
      invariant events == Events(parse, Concat(chunks[..i]))
    {
      ghost var text := Concat(chunks[..i]);
      assert chunks[..i + 1] == chunks[..i] + [chunks[i]];
      ConcatAppend(chunks[..i], chunks[i]);
      AppendText(text, chunks[i]);
      buffer := buffer + chunks[i];
      var lines := CompleteLines(buffer);
      EventsAppend(parse, CompleteLines(text), lines);
      buffer := Unfinished(buffer);
      var more, done := ReadLines(lines, parse);
      events := events + more;
      if done {
        ConcatSplit(chunks, i + 1);
        EventsSettled(parse, text + chunks[i], Concat(chunks[i + 1..]));
        return;
      }
    }
    assert chunks[..|chunks|] == chunks;
  }

  lemma {:induction false} EventsAppend<E>(parse: JsonParse<E>, a: seq<string>, b: seq<string>)
    requires DONE !in a
    ensures FlatMap(LineEvents(parse), BeforeDone(a + b))
         == FlatMap(LineEvents(parse), BeforeDone(a)) + FlatMap(LineEvents(parse), BeforeDone(b))
  {
    BeforeDoneAppend(a, b);
    FlatMapConcat(LineEvents(parse), a, BeforeDone(b));
  }

  lemma {:induction false} ConcatSplit(chunks: seq<string>, n: nat)
    requires n <= |chunks|
    ensures Concat(chunks) == Concat(chunks[..n]) + Concat(chunks[n..])
  {
    if n > 0 {
      ConcatSplit(chunks[1..], n - 1);
      assert chunks[1..][..n - 1] == chunks[..n][1..] && chunks[1..][n - 1..] == chunks[n..];
    }
  }

  /** Once the sentinel has been read nothing that follows matters. */
  lemma {:induction false} EventsSettled<E>(parse: JsonParse<E>, a: string, b: string)
    requires DONE in CompleteLines(a)
    ensures Events(parse, a + b) == Events(parse, a)
  {
    AppendText(a, b);
    BeforeDoneAppend(CompleteLines(a), CompleteLines(Unfinished(a) + b));
  }

  /** Feeding more text only extends the output, and without a newline in it not even that. */
  lemma {:induction false} MoreTextExtends<E>(parse: JsonParse<E>, a: string, b: string)
    ensures Events(parse, a) <= Events(parse, a + b)
    ensures NEWLINE !in Unfinished(a) + b ==> Events(parse, a) == Events(parse, a + b)
  {
    AppendText(a, b);
    var more := CompleteLines(Unfinished(a) + b);
    if DONE in CompleteLines(a) {
      EventsSettled(parse, a, b);
    } else {
      EventsAppend(parse, CompleteLines(a), more);
    }
    if NEWLINE !in Unfinished(a) + b {
      SplitWhole(Unfinished(a) + b, NEWLINE);
      assert CompleteLines(a) + more == CompleteLines(a);
    }
  }

  /** Lines as they are sent, each with its end-of-line. */
  function Wire(lines: seq<string>, eol: string): string {
    if lines == [] then "" else lines[0] + eol + Wire(lines[1..], eol)
  }

  lemma {:induction false} WireLines(lines: seq<string>)
    requires forall line | line in lines :: NEWLINE !in line
    ensures CompleteLines(Wire(lines, "\n")) == lines && Unfinished(Wire(lines, "\n")) == ""
  {
    if lines != [] {
      WireLines(lines[1..]);
      var rest := Wire(lines[1..], "\n");
      assert Wire(lines, "\n") == lines[0] + [NEWLINE] + rest;
      SplitConcat(lines[0], NEWLINE, rest);
      SplitWhole(lines[0], NEWLINE);
      assert lines == [lines[0]] + lines[1..];
    }
  }

  /** What a server sends for a list of events: a data line and an empty line for each. */
  function EventLines<E>(show: E -> string, events: seq<E>): seq<string> {
    if events == [] then [] else [DATA + show(events[0]), ""] + EventLines(show, events[1..])
  }

  /** A printed event is on one line, is not the sentinel and reads back. */
  predicate Readable<E(==)>(show: E -> string, parse: JsonParse<E>, e: E) {
    NEWLINE !in show(e) && show(e) != "[DONE]" && parse(show(e)) == Some(e)
  }

  lemma {:induction false} EventLinesRead<E>(show: E -> string, parse: JsonParse<E>, events: seq<E>)
    requires forall e | e in events :: Readable(show, parse, e)
    ensures forall line | line in EventLines(show, events) :: NEWLINE !in line && line != DONE
    ensures FlatMap(LineEvents(parse), EventLines(show, events)) == events
  {
    if events != [] {
      var e := events[0];
      assert Readable(show, parse, e);
      EventLinesRead(show, parse, events[1..]);
      var two := [DATA + show(e), ""];
      assert (DATA + show(e))[|DATA|..] == show(e);
      LineRead(parse, [], DATA + show(e));
      LineRead(parse, [DATA + show(e)], "");
      assert two == [DATA + show(e)] + [""];
      assert [] + [DATA + show(e)] == [DATA + show(e)];
      FlatMapConcat(LineEvents(parse), two, EventLines(show, events[1..]));
      assert events == [e] + events[1..];
    }
  }

  /** What was sent is read back, whatever follows the sentinel. */
  lemma {:induction false} RoundTrip<E>(show: E -> string, parse: JsonParse<E>, events: seq<E>, after: string)
    requires forall e | e in events :: Readable(show, parse, e)
    ensures Events(parse, Wire(EventLines(show, events) + [DONE], "\n") + after) == events
  {
    EventLinesRead(show, parse, events);
    var lines := EventLines(show, events);
    WireLines(lines + [DONE]);
    StopsHere(lines + [DONE], |lines|);
    assert (lines + [DONE])[..|lines|] == lines;
    EventsSettled(parse, Wire(lines + [DONE], "\n"), after);
  }

  function WithReturn(lines: seq<string>): seq<string> {
    Map((line: string) => line + "\r", lines)
  }

  lemma {:induction false} WireReturn(lines: seq<string>)
    ensures Wire(lines, "\r\n") == Wire(WithReturn(lines), "\n")
  {
    if lines != [] {
      WireReturn(lines[1..]);
      assert WithReturn(lines)[1..] == WithReturn(lines[1..]);
      assert lines[0] + "\r\n" == lines[0] + "\r" + "\n";
    }
  }

  lemma {:induction false} EventsWithReturn<E>(parse: JsonParse<E>, lines: seq<string>)
    requires forall data :: parse(data + "\r") == parse(data)
    ensures FlatMap(LineEvents(parse), WithReturn(lines)) == FlatMap(LineEvents(parse), lines)
  {
    if lines != [] {
      EventsWithReturn(parse, lines[1..]);
      assert WithReturn(lines)[1..] == WithReturn(lines[1..]);
      var line := lines[0];
      if StartsWith(line + "\r", DATA) {
        assert DATA[5] == ' ' && |line| >= 6;
        assert (line + "\r")[|DATA|..] == line[|DATA|..] + "\r";
      }
    }
  }

  lemma {:induction false} ReturnsHideDone(lines: seq<string>)
    requires forall line | line in lines :: NEWLINE !in line
    ensures DONE !in WithReturn(lines)
    ensures forall line | line in WithReturn(lines) :: NEWLINE !in line
  {
    forall line | line in WithReturn(lines) ensures line != DONE && NEWLINE !in line {
      assert line[|line| - 1] == '\r' && DONE[11] == ']';
    }
  }

  /** Lines ended by carriage return and newline hide the sentinel, so the whole stream is read. With a
      parser that skips a trailing return the events are still those of plain newlines exactly when
      no event follows the sentinel. (Section 9.2.5 of the WHATWG HTML standard allows these lines.) */
  lemma {:induction false} CarriageReturns<E>(parse: JsonParse<E>, lines: seq<string>)
    requires forall line | line in lines :: NEWLINE !in line
    requires forall data :: parse(data + "\r") == parse(data)
    ensures Events(parse, Wire(lines, "\r\n")) == FlatMap(LineEvents(parse), lines)
    ensures Events(parse, Wire(lines, "\r\n")) == Events(parse, Wire(lines, "\n"))
       <==> FlatMap(LineEvents(parse), lines[|BeforeDone(lines)|..]) == []
  {
    WireReturn(lines);
    ReturnsHideDone(lines);
    WireLines(WithReturn(lines));
    WireLines(lines);
    BeforeDoneAppend(WithReturn(lines), []);
    EventsWithReturn(parse, lines);
    var before := BeforeDone(lines);
    assert lines == before + lines[|before|..];
    FlatMapConcat(LineEvents(parse), before, lines[|before|..]);
  }
}
