/** Server-sent events: what the writer puts on the wire and what a standard reader makes of it. */
module Sse {
  import opened Text

  // ----------------------------------------------------------------- writer

  /** The lines of data: the pieces between line feeds, one empty line for no data. */
  function Lines(data: string): (lines: seq<string>)
    ensures lines != []
  {
    Split(data, '\n')
  }

  method SplitLines(data: string) returns (lines: seq<string>)
    ensures lines == Lines(data)
  {
    if |data| == 0 {
      return [""];
    }
    hide Split;
    lines := [];
    var start := 0;
    assert data[0..] == data;
    for i := 0 to |data|
      invariant start <= i
      invariant forall k :: start <= k < i ==> data[k] != '\n'
      invariant lines + Lines(data[start..]) == Lines(data)
    {
      if data[i] == '\n' {
        LinesStep(data, start, i);
        lines := lines + [data[start..i]];
        start := i + 1;
      }
    }
    SplitLast(data[start..], '\n');
    lines := lines + [data[start..]];
  }

  lemma LinesStep(data: string, start: nat, i: nat)
    requires start <= i < |data| && data[i] == '\n' && forall k :: start <= k < i ==> data[k] != '\n'
    ensures Lines(data[start..]) == [data[start..i]] + Lines(data[i + 1..])
  {
    SplitStep(data[start..i], data[i + 1..], '\n');
    assert data[start..] == data[start..i] + ['\n'] + data[i + 1..];
  }

  function FieldText(name: string, value: string): string { name + ": " + value + "\n" }

  function DataText(lines: seq<string>): string
    decreases |lines|
  {
    if lines == [] then "" else FieldText("data", lines[0]) + DataText(lines[1..])
  }

  function Optional(name: string, value: string): string { if value == "" then "" else FieldText(name, value) }

  function EventText(id: string, kind: string, data: string): string {
    Optional("id", id) + Optional("event", kind) + DataText(Lines(data)) + "\n"
  }

  lemma {:induction false} DataTextSnoc(lines: seq<string>, last: string)
    ensures DataText(lines + [last]) == DataText(lines) + FieldText("data", last)
    decreases |lines|
  {
    if lines == [] {
      assert [last][1..] == [];
    } else {
      assert (lines + [last])[1..] == lines[1..] + [last];
      DataTextSnoc(lines[1..], last);
    }
  }

  lemma NoLines()
    ensures DataText([]) == ""
  {}

  /** The response body, grown by every write. */
  class SSEWriter {
    var body: string

    constructor ()
      ensures body == ""
    {
      body := "";
    }

    method Event(id: string, kind: string, data: string)
      modifies this
      ensures body == old(body) + EventText(id, kind, data)
    {
      hide Split, DataText, FieldText;
      var out := "";
      if id != "" {
        out := out + FieldText("id", id);
      }
      if kind != "" {
        out := out + FieldText("event", kind);
      }
      var head := out;
      assert head == Optional("id", id) + Optional("event", kind);
      var lines := SplitLines(data);
      NoLines();
      for i := 0 to |lines|
        invariant out == head + DataText(lines[..i]) && body == old(body)
      {
        assert lines[..i + 1] == lines[..i] + [lines[i]];
        DataTextSnoc(lines[..i], lines[i]);
        Cat3(head, DataText(lines[..i]), FieldText("data", lines[i]));
        out := out + FieldText("data", lines[i]);
      }
      assert lines[..|lines|] == lines;
      out := out + "\n";
      body := body + out;
    }

    method Ping()
      modifies this
      ensures body == old(body) + PING
    {
      body := body + ": ping\n\n";
    }
  }

  const PING := ": ping\n\n"

  // -------------------------------- reader: sections 9.2.5 and 9.2.6 of the HTML standard

  datatype Message = Message(id: string, kind: string, data: string)

  /** The data and event type buffers, and the last event ID buffer, which outlives a dispatch. */
  datatype Buffers = Buffers(data: string, kind: string, id: string)

  const NOTHING := Buffers("", "", "")

  const NUL := 0 as char

  function Process(field: string, value: string, b: Buffers): Buffers {
    match field
    case "event" => b.(kind := value)
    case "data" => b.(data := b.data + value + "\n")
    case "id" => if Lacks(value, NUL) then b.(id := value) else b
    case _ => b
  }

  function Dispatch(b: Buffers): seq<Message> {
    if b.data == "" then []
    else [Message(b.id, if b.kind == "" then "message" else b.kind,
                  if b.data[|b.data| - 1] == '\n' then b.data[..|b.data| - 1] else b.data)]
  }

  function OnLine(line: string, b: Buffers): (Buffers, seq<Message>) {
    if line == "" then (Buffers("", "", b.id), Dispatch(b))
    else if line[0] == ':' then (b, [])
    else
      var k := Until(line, ':');
      var value := if k == |line| then "" else line[k + 1..];
      (Process(line[..k], if value != "" && value[0] == ' ' then value[1..] else value, b), [])
  }

  /** Where the line ends: the first carriage return or line feed. */
  function LineEnd(s: string): (k: nat)
    ensures k <= |s| && Plain(s[..k]) && (k < |s| ==> s[k] == '\r' || s[k] == '\n')
  {
    if s == "" || s[0] == '\r' || s[0] == '\n' then 0
    else
      var k := LineEnd(s[1..]);
      assert s[..k + 1] == [s[0]] + s[1..][..k];
      k + 1
  }

  predicate Plain(s: string) { Lacks(s, '\r') && Lacks(s, '\n') }

  /** What reading s dispatches; a carriage return with a line feed ends one line, and an unfinished event is dropped. */
  function Read(s: string, b: Buffers): seq<Message>
    decreases |s|
  {
    var k := LineEnd(s);
    if k == |s| then []
    else
      var end := if s[k] == '\r' && k + 1 < |s| && s[k + 1] == '\n' then k + 2 else k + 1;
      var (after, out) := OnLine(s[..k], b);
      out + Read(s[end..], after)
  }

  // -------------------------------------------------------------- line by line

  lemma {:induction false} LineEndIs(line: string, rest: string)
    requires Plain(line)
    ensures LineEnd(line + "\n" + rest) == |line|
  {
    var s := line + "\n" + rest;
    if line == "" {
      assert s[0] == '\n';
    } else {
      assert s[1..] == line[1..] + "\n" + rest;
      LineEndIs(line[1..], rest);
    }
  }

  lemma ReadLine(line: string, rest: string, b: Buffers)
    requires Plain(line)
    ensures Read(line + "\n" + rest, b) == OnLine(line, b).1 + Read(rest, OnLine(line, b).0)
  {
    var s := line + "\n" + rest;
    LineEndIs(line, rest);
    assert s[|line|] == '\n' && s[..|line|] == line && s[|line| + 1..] == rest;
  }

  /** A field line of the writer hands its value over unchanged, leading spaces included. */
  lemma FieldLine(name: string, value: string, b: Buffers)
    requires name != "" && Lacks(name, ':')
    ensures OnLine(name + ": " + value, b) == (Process(name, value, b), [])
  {
    var line := name + ": " + value;
    assert line == name + (": " + value);
    UntilIs(name, ": " + value, ':');
    assert line[..|name|] == name && line[|name| + 1..] == " " + value;
    assert line[0] == name[0];
  }

  lemma ReadField(name: string, value: string, rest: string, b: Buffers)
    requires name != "" && Lacks(name, ':') && Plain(name) && Plain(value)
    ensures Read(FieldText(name, value) + rest, b) == Read(rest, Process(name, value, b))
  {
    var line := name + ": " + value;
    FieldLine(name, value, b);
    hide OnLine, Process;
    ReadLine(line, rest, b);
    hide Read;
    assert FieldText(name, value) + rest == line + "\n" + rest;
  }

  /** What the data lines leave in the data buffer. */
  function Buffered(lines: seq<string>): string
    decreases |lines|
  {
    if lines == [] then "" else lines[0] + "\n" + Buffered(lines[1..])
  }

  lemma {:induction false} LinesBuffered(data: string)
    requires Lacks(data, '\r')
    ensures Buffered(Lines(data)) == data + "\n"
    ensures forall line :: line in Lines(data) ==> Plain(line)
    decreases |data|
  {
    var k := Until(data, '\n');
    var line := data[..k];
    if k == |data| {
      assert line == data;
      BufferedStep(data, []);
    } else {
      LinesBuffered(data[k + 1..]);
      assert Lines(data) == [line] + Lines(data[k + 1..]);
      BufferedStep(line, Lines(data[k + 1..]));
      assert data == line + "\n" + data[k + 1..];
      Cat3(line, "\n", data[k + 1..]);
    }
  }

  lemma BufferedStep(line: string, lines: seq<string>)
    ensures Buffered([line] + lines) == line + "\n" + Buffered(lines)
  {
    assert ([line] + lines)[1..] == lines;
  }

  lemma {:induction false} ReadData(lines: seq<string>, rest: string, b: Buffers)
    requires forall line :: line in lines ==> Plain(line)
    ensures Read(DataText(lines) + rest, b) == Read(rest, b.(data := b.data + Buffered(lines)))
    decreases |lines|
  {
    hide Read, FieldText;
    if lines == [] {
      assert b.data + Buffered(lines) == b.data && DataText(lines) + rest == rest;
    } else {
      var c := b.(data := b.data + lines[0] + "\n");
      ReadField("data", lines[0], DataText(lines[1..]) + rest, b);
      ReadData(lines[1..], rest, c);
      Cat4(b.data, lines[0], "\n", Buffered(lines[1..]));
      Cat3(lines[0], "\n", Buffered(lines[1..]));
      Cat3(FieldText("data", lines[0]), DataText(lines[1..]), rest);
    }
  }

  // ------------------------------------------------------------------ round trip

  /** Values the format can carry. */
  predicate Carries(id: string, kind: string, data: string) {
    Plain(id) && Lacks(id, NUL) && Plain(kind) && Lacks(data, '\r')
  }

  /** The reader between two events. */
  predicate AtBoundary(b: Buffers) { b.data == "" && b.kind == "" }

  function Received(id: string, kind: string, data: string, b: Buffers): Message {
    Message(if id == "" then b.id else id, if kind == "" then "message" else kind, data)
  }

  lemma ReadOptional(name: string, value: string, rest: string, b: Buffers)
    requires name != "" && Lacks(name, ':') && Plain(name) && Plain(value)
    ensures Read(Optional(name, value) + rest, b) == Read(rest, if value == "" then b else Process(name, value, b))
  {
    if value == "" {
      assert Optional(name, value) + rest == rest;
    } else {
      ReadField(name, value, rest, b);
    }
  }

  lemma ReadBlank(rest: string, b: Buffers)
    ensures Read("\n" + rest, b) == Dispatch(b) + Read(rest, Buffers("", "", b.id))
  {
    assert "" + "\n" + rest == "\n" + rest;
    ReadLine("", rest, b);
  }

  function AfterHeaders(id: string, kind: string, b: Buffers): Buffers {
    Buffers(b.data, if kind == "" then b.kind else kind, if id == "" then b.id else id)
  }

  lemma ReadHeaders(id: string, kind: string, rest: string, b: Buffers)
    requires Plain(id) && Lacks(id, NUL) && Plain(kind)
    ensures Read(Optional("id", id) + (Optional("event", kind) + rest), b) == Read(rest, AfterHeaders(id, kind, b))
  {
    hide Read, Optional;
    var c := if id == "" then b else Process("id", id, b);
    ReadOptional("id", id, Optional("event", kind) + rest, b);
    ReadOptional("event", kind, rest, c);
  }

  lemma ReadBody(data: string, rest: string, b: Buffers)
    requires b.data == "" && Lacks(data, '\r')
    ensures Read(DataText(Lines(data)) + ("\n" + rest), b)
         == Dispatch(b.(data := data + "\n")) + Read(rest, Buffers("", "", b.id))
  {
    hide Read, DataText, Lines, Dispatch;
    LinesBuffered(data);
    assert b.data + (data + "\n") == data + "\n";
    ReadData(Lines(data), "\n" + rest, b);
    ReadBlank(rest, b.(data := data + "\n"));
  }

  /** An event whose values the format can carry is read as exactly that event, whatever follows it. */
  lemma ReadEvent(id: string, kind: string, data: string, rest: string, b: Buffers)
    requires AtBoundary(b) && Carries(id, kind, data)
    ensures Read(EventText(id, kind, data) + rest, b)
         == [Received(id, kind, data, b)] + Read(rest, Buffers("", "", if id == "" then b.id else id))
  {
    hide Read, DataText, Lines, Dispatch, Optional, Received, Plain, Lacks;
    var text, d := DataText(Lines(data)), AfterHeaders(id, kind, b);
    EventParts(Optional("id", id), Optional("event", kind), text, rest);
    ReadHeaders(id, kind, text + ("\n" + rest), b);
    ReadBody(data, rest, d);
    EventDispatched(id, kind, data, b);
  }

  lemma EventDispatched(id: string, kind: string, data: string, b: Buffers)
    ensures Dispatch(Buffers(data + "\n", kind, if id == "" then b.id else id)) == [Received(id, kind, data, b)]
  {
    var e := data + "\n";
    assert e[..|e| - 1] == data;
  }

  lemma EventParts(a: string, b: string, c: string, rest: string)
    ensures a + b + c + "\n" + rest == a + (b + (c + ("\n" + rest)))
  {}

  lemma ReadPing(rest: string, b: Buffers)
    requires AtBoundary(b)
    ensures Read(PING + rest, b) == Read(rest, b)
  {
    assert PING + rest == ": ping" + "\n" + ("\n" + rest);
    ReadLine(": ping", "\n" + rest, b);
    ReadBlank(rest, b);
  }

  // ------------------------------------------------------------- whole streams

  datatype Sent = Sent(id: string, kind: string, data: string) | Ping

  function Written(sends: seq<Sent>): string {
    if sends == [] then ""
    else (match sends[0] case Ping => PING case Sent(id, kind, data) => EventText(id, kind, data)) + Written(sends[1..])
  }

  function Expected(sends: seq<Sent>, lastId: string): seq<Message>
    decreases |sends|
  {
    if sends == [] then []
    else match sends[0]
         case Ping => Expected(sends[1..], lastId)
         case Sent(id, kind, data) =>
           [Received(id, kind, data, Buffers("", "", lastId))] + Expected(sends[1..], if id == "" then lastId else id)
  }

  /** A stream of events and keep-alives is read as the events, in order, keep-alives leaving no trace. */
  lemma {:induction false} StreamReadsBack(sends: seq<Sent>, lastId: string)
    requires forall s :: s in sends && s.Sent? ==> Carries(s.id, s.kind, s.data)
    ensures Read(Written(sends), Buffers("", "", lastId)) == Expected(sends, lastId)
    decreases |sends|
  {
    var b := Buffers("", "", lastId);
    if sends != [] {
      var rest := Written(sends[1..]);
      hide Read, EventText, Carries;
      match sends[0] {
        case Ping =>
          ReadPing(rest, b);
          StreamReadsBack(sends[1..], lastId);
        case Sent(id, kind, data) =>
          ReadEvent(id, kind, data, rest, b);
          StreamReadsBack(sends[1..], if id == "" then lastId else id);
      }
    }
  }

  /** Whatever the stream, no reader ever sees values the format cannot carry. */
  lemma {:induction false} OnlyCarried(s: string, b: Buffers)
    requires Carries(b.id, b.kind, b.data)
    ensures forall m :: m in Read(s, b) ==> Carries(m.id, m.kind, m.data)
    decreases |s|
  {
    var k := LineEnd(s);
    if k < |s| {
      var end := if s[k] == '\r' && k + 1 < |s| && s[k + 1] == '\n' then k + 2 else k + 1;
      LineCarries(s[..k], b);
      OnlyCarried(s[end..], OnLine(s[..k], b).0);
    }
  }

  lemma LineCarries(line: string, b: Buffers)
    requires Carries(b.id, b.kind, b.data) && Plain(line)
    ensures var (after, out) := OnLine(line, b);
            Carries(after.id, after.kind, after.data) && forall m :: m in out ==> Carries(m.id, m.kind, m.data)
  {}

  /** An event survives the wire if and only if it has no carriage return, no line break in its id or type, no NUL in its id. */
  lemma RoundTripExactly(id: string, kind: string, data: string)
    ensures Read(EventText(id, kind, data), NOTHING) == [Received(id, kind, data, NOTHING)] <==> Carries(id, kind, data)
  {
    var text := EventText(id, kind, data);
    if Carries(id, kind, data) {
      ReadEvent(id, kind, data, "", NOTHING);
      assert text + "" == text;
    } else {
      OnlyCarried(text, NOTHING);
      hide Read, EventText;
      var m := Received(id, kind, data, NOTHING);
      assert m in [m];
    }
  }
}
