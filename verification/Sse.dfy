/** Framing server-sent events, and the interpreter of section 9.2.6 of the WHATWG HTML Living Standard
    ("Interpreting an event stream") as its inverse. */
module Sse {
  import opened Common

  // ---------------------------------------------------------------------------
  // The framing
  // ---------------------------------------------------------------------------

  /** A message: its type, the JSON text of its data, if there is data, and its id. */
  datatype Message = Message(event: string, data: Option<string>, eventId: Option<string>)

  function DataText(m: Message): string {
    if m.data.None? then "" else m.data.value
  }

  predicate HasId(m: Message) {
    m.eventId.Some? && m.eventId.value != ""
  }

  function Joined(lines: seq<string>): string {
    if lines == [] then ""
    else if |lines| == 1 then lines[0]
    else lines[0] + "\n" + Joined(lines[1..])
  }

  function Terminated(lines: seq<string>): string {
    if lines == [] then "" else lines[0] + "\n" + Terminated(lines[1..])
  }

  /** The lines of a message: one for each field, then an empty one. */
  function MessageLines(m: Message): seq<string> {
    ["event: " + m.event, "data: " + DataText(m)] + (if HasId(m) then ["id: " + m.eventId.value, ""] else [""])
  }

  function Framed(m: Message): string {
    Terminated(MessageLines(m))
  }

  method FormatSseMessage(event: string, data: Option<string>, eventId: Option<string>) returns (text: string)
    ensures text == Framed(Message(event, data, eventId))
    ensures var id := if eventId.Some? && eventId.value != "" then "id: " + eventId.value + "\n" else "";
            text == "event: " + event + "\n"
                    + ("data: " + (if data.Some? then data.value else "") + "\n" + (id + "\n"))
  {
    var lines: seq<string> := [];
    lines := lines + ["event: " + event];
    var dataText := if data.None? then "" else data.value;
    lines := lines + ["data: " + dataText];
    if eventId.Some? && eventId.value != "" {
      lines := lines + ["id: " + eventId.value];
    }
    lines := lines + [""];
    text := Joined(lines) + "\n";
    assert lines == MessageLines(Message(event, data, eventId));
    JoinedIsTerminated(lines);
    FramedText(Message(event, data, eventId));
  }

  lemma OneMoreLine(line: string, rest: seq<string>)
    ensures Terminated([line] + rest) == line + "\n" + Terminated(rest)
  {
    assert ([line] + rest)[1..] == rest;
  }

  /** The text of a message, written out. */
  lemma FramedText(m: Message)
    ensures var id := if m.eventId.Some? && m.eventId.value != "" then "id: " + m.eventId.value + "\n" else "";
            var data := if m.data.Some? then m.data.value else "";
            Framed(m) == "event: " + m.event + "\n" + ("data: " + data + "\n" + (id + "\n"))
  {
    var rest := if HasId(m) then ["id: " + m.eventId.value] + [""] else [""];
    assert MessageLines(m) == ["event: " + m.event] + (["data: " + DataText(m)] + rest);
    OneMoreLine("event: " + m.event, ["data: " + DataText(m)] + rest);
    OneMoreLine("data: " + DataText(m), rest);
    assert [""] == [""] + [];
    OneMoreLine("", []);
    if HasId(m) {
      OneMoreLine("id: " + m.eventId.value, [""]);
    }
  }

  lemma {:induction false} JoinedIsTerminated(lines: seq<string>)
    requires lines != []
    ensures Joined(lines) + "\n" == Terminated(lines)
  {
    if |lines| > 1 {
      JoinedIsTerminated(lines[1..]);
      assert lines[0] + "\n" + Joined(lines[1..]) + "\n" == lines[0] + "\n" + (Joined(lines[1..]) + "\n");
    } else {
      assert Terminated(lines[1..]) == "";
    }
  }

  function Stream(ms: seq<Message>): string {
    if ms == [] then "" else Framed(ms[0]) + Stream(ms[1..])
  }

  // ---------------------------------------------------------------------------
  // The interpreter
  // ---------------------------------------------------------------------------

  const LF := '\n'
  const CR := '\r'

  predicate NewlineFree(s: string) {
    forall i :: 0 <= i < |s| ==> s[i] != LF && s[i] != CR
  }

  /** The first end of a line. */
  function LineEnd(s: string): (p: Option<nat>)
    ensures p.Some? ==> p.value < |s| && (s[p.value] == LF || s[p.value] == CR) && NewlineFree(s[..p.value])
    ensures p.None? ==> NewlineFree(s)
  {
    if s == "" then None
    else if s[0] == LF || s[0] == CR then Some(0)
    else
      var p := LineEnd(s[1..]);
      if p.None? then None
      else
        assert s[..p.value + 1] == [s[0]] + s[1..][..p.value];
        Some(p.value + 1)
  }

  /** The complete lines, which end in CRLF, LF or CR. */
  function Lines(s: string): seq<string>
    decreases |s|
  {
    var p := LineEnd(s);
    if p.None? then []
    else
      var next := if s[p.value] == CR && p.value + 1 < |s| && s[p.value + 1] == LF then p.value + 2 else p.value + 1;
      [s[..p.value]] + Lines(s[next..])
  }

  datatype Event = Event(kind: string, data: string, lastEventId: string)

  /** The data, event type and last event id buffers. */
  datatype Buffers = Buffers(data: string, kind: string, id: string)

  const NO_BUFFERS := Buffers("", "", "")

  function Colon(s: string): (p: Option<nat>)
    ensures p.Some? ==> p.value < |s| && s[p.value] == ':' && forall i :: 0 <= i < p.value ==> s[i] != ':'
    ensures p.None? ==> forall i :: 0 <= i < |s| ==> s[i] != ':'
  {
    if s == "" then None
    else if s[0] == ':' then Some(0)
    else
      var p := Colon(s[1..]);
      if p.None? then None else Some(p.value + 1)
  }

  function FieldOf(line: string): (string, string) {
    var p := Colon(line);
    if p.None? then (line, "")
    else
      var value := line[p.value + 1..];
      (line[..p.value], if value != "" && value[0] == ' ' then value[1..] else value)
  }

  /** The effect of a field; `retry` only sets a reconnection time, and other fields are ignored. */
  function SetField(b: Buffers, name: string, value: string): Buffers {
    if name == "event" then b.(kind := value)
    else if name == "data" then b.(data := b.data + value + [LF])
    else if name == "id" then if '\0' in value then b else b.(id := value)
    else b
  }

  function Dispatch(b: Buffers): seq<Event> {
    if b.data == "" then []
    else
      var data := if b.data[|b.data| - 1] == LF then b.data[..|b.data| - 1] else b.data;
      [Event(if b.kind == "" then "message" else b.kind, data, b.id)]
  }

  /** The buffers after a line, and the event it dispatches, if any. */
  function ReadLine(b: Buffers, line: string): (Buffers, seq<Event>) {
    if line == "" then (Buffers("", "", b.id), Dispatch(b))
    else if line[0] == ':' then (b, [])
    else
      var (name, value) := FieldOf(line);
      (SetField(b, name, value), [])
  }

  function ReadLines(b: Buffers, lines: seq<string>): (Buffers, seq<Event>)
    decreases |lines|
  {
    if lines == [] then (b, [])
    else
      var (next, first) := ReadLine(b, lines[0]);
      var (end, rest) := ReadLines(next, lines[1..]);
      (end, first + rest)
  }

  /** The whole stream: one leading byte order mark is ignored, and so is what no empty line ends. */
  function Interpret(stream: string): seq<Event> {
    var s := if stream != "" && stream[0] == '\U{FEFF}' then stream[1..] else stream;
    ReadLines(NO_BUFFERS, Lines(s)).1
  }

  // ---------------------------------------------------------------------------
  // The round trip
  // ---------------------------------------------------------------------------

  /** What a client should get: an empty type is "message", and a message without an id, or with one that
      the standard has ignored, carries the previous one. */
  function IdAfter(m: Message, previous: string): string {
    match m.eventId
    case Some(id) => if id != "" && '\0' !in id then id else previous
    case None => previous
  }

  function EventOf(m: Message, previous: string): Event {
    var data := match m.data case Some(text) => text case None => "";
    Event(if m.event == "" then "message" else m.event, data, IdAfter(m, previous))
  }

  function Expected(ms: seq<Message>, previous: string): seq<Event>
    decreases |ms|
  {
    if ms == [] then []
    else [EventOf(ms[0], previous)] + Expected(ms[1..], IdAfter(ms[0], previous))
  }

  predicate OneLineFields(m: Message) {
    NewlineFree(m.event) && (m.data.Some? ==> NewlineFree(m.data.value))
    && (m.eventId.Some? ==> NewlineFree(m.eventId.value))
  }

  lemma {:induction false} FirstEnd(line: string, rest: string)
    requires NewlineFree(line)
    ensures LineEnd(line + [LF] + rest) == Some(|line|)
  {
    if line == "" {
      assert (line + [LF] + rest)[0] == LF;
    } else {
      assert (line + [LF] + rest)[1..] == line[1..] + [LF] + rest;
      FirstEnd(line[1..], rest);
    }
  }

  lemma FirstLine(line: string, rest: string)
    requires NewlineFree(line)
    ensures Lines(line + "\n" + rest) == [line] + Lines(rest)
  {
    var s := line + [LF] + rest;
    assert line + "\n" + rest == s;
    FirstEnd(line, rest);
    assert s[..|line|] == line && s[|line| + 1..] == rest;
  }

  lemma Reassociate<T>(a: seq<T>, b: seq<T>, c: seq<T>)
    ensures a + b + c == a + (b + c)
  {
  }

  lemma {:induction false} LinesOf(lines: seq<string>, rest: string)
    requires forall i :: 0 <= i < |lines| ==> NewlineFree(lines[i])
    ensures Lines(Terminated(lines) + rest) == lines + Lines(rest)
  {
    if lines == [] {
      assert "" + rest == rest;
    } else {
      var first, others := lines[0], lines[1..];
      LinesOf(others, rest);
      FirstLine(first, Terminated(others) + rest);
      Reassociate(first + "\n", Terminated(others), rest);
      Reassociate([first], others, Lines(rest));
      assert lines == [first] + others;
    }
  }

  lemma PrefixNewlineFree(prefix: string, value: string)
    requires NewlineFree(prefix) && NewlineFree(value)
    ensures NewlineFree(prefix + value)
  {
  }

  lemma FramedLines(m: Message, rest: string)
    requires OneLineFields(m)
    ensures Lines(Framed(m) + rest) == MessageLines(m) + Lines(rest)
  {
    PrefixNewlineFree("event: ", m.event);
    PrefixNewlineFree("data: ", DataText(m));
    if HasId(m) {
      PrefixNewlineFree("id: ", m.eventId.value);
    }
    LinesOf(MessageLines(m), rest);
  }

  lemma FieldLine(name: string, value: string)
    requires forall i :: 0 <= i < |name| ==> name[i] != ':'
    ensures FieldOf(name + ": " + value) == (name, value)
  {
    var line := name + ": " + value;
    assert line[|name|] == ':' && forall i :: 0 <= i < |name| ==> line[i] == name[i];
    assert Colon(line) == Some(|name|);
    assert line[..|name|] == name;
    var after := line[|name| + 1..];
    assert after[0] == ' ' && after[1..] == value;
  }

  /** Reads a line, when what it does is known. */
  lemma ReadCons(b: Buffers, line: string, lines: seq<string>, next: Buffers, first: seq<Event>)
    requires ReadLine(b, line) == (next, first)
    ensures ReadLines(b, [line] + lines) == (ReadLines(next, lines).0, first + ReadLines(next, lines).1)
  {
    assert ([line] + lines)[1..] == lines;
  }

  lemma ReadQuiet(b: Buffers, line: string, lines: seq<string>, next: Buffers)
    requires ReadLine(b, line) == (next, [])
    ensures ReadLines(b, [line] + lines) == ReadLines(next, lines)
  {
    ReadCons(b, line, lines, next, []);
    assert [] + ReadLines(next, lines).1 == ReadLines(next, lines).1;
  }

  lemma ReadEvent(event: string, id: string)
    ensures ReadLine(Buffers("", "", id), "event: " + event) == (Buffers("", event, id), [])
  {
    FieldLine("event", event);
    assert "event" + ": " + event == "event: " + event;
  }

  lemma ReadData(event: string, data: string, id: string)
    ensures ReadLine(Buffers("", event, id), "data: " + data) == (Buffers(data + [LF], event, id), [])
  {
    FieldLine("data", data);
    assert "data" + ": " + data == "data: " + data;
    assert "" + data == data;
  }

  lemma ReadId(b: Buffers, id: string)
    ensures ReadLine(b, "id: " + id) == (if '\0' in id then b else b.(id := id), [])
  {
    FieldLine("id", id);
    assert "id" + ": " + id == "id: " + id;
  }

  lemma ReadEnd(event: string, data: string, id: string)
    ensures ReadLine(Buffers(data + [LF], event, id), "")
         == (Buffers("", "", id), [Event(if event == "" then "message" else event, data, id)])
  {
    assert (data + [LF])[..|data|] == data;
  }

  /** The first two lines of a message. */
  lemma ReadHead(event: string, data: string, previous: string, tail: seq<string>)
    ensures ReadLines(Buffers("", "", previous), ["event: " + event, "data: " + data] + tail)
         == ReadLines(Buffers(data + [LF], event, previous), tail)
  {
    ReadData(event, data, previous);
    ReadQuiet(Buffers("", event, previous), "data: " + data, tail, Buffers(data + [LF], event, previous));
    ReadEvent(event, previous);
    ReadQuiet(Buffers("", "", previous), "event: " + event, ["data: " + data] + tail, Buffers("", event, previous));
    assert ["event: " + event, "data: " + data] + tail == ["event: " + event] + (["data: " + data] + tail);
  }

  /** The empty line of a message, with its id already read. */
  lemma ReadTail(event: string, data: string, id: string, lines: seq<string>)
    ensures var after := ReadLines(Buffers("", "", id), lines);
            ReadLines(Buffers(data + [LF], event, id), [""] + lines)
            == (after.0, [Event(if event == "" then "message" else event, data, id)] + after.1)
  {
    ReadEnd(event, data, id);
    ReadCons(Buffers(data + [LF], event, id), "", lines, Buffers("", "", id),
             [Event(if event == "" then "message" else event, data, id)]);
  }

  lemma ReadWithoutId(m: Message, previous: string, lines: seq<string>)
    requires !HasId(m)
    ensures var after := ReadLines(Buffers("", "", previous), lines);
            ReadLines(Buffers("", "", previous), MessageLines(m) + lines) == (after.0, [EventOf(m, previous)] + after.1)
  {
    ReadHead(m.event, DataText(m), previous, [""] + lines);
    ReadTail(m.event, DataText(m), previous, lines);
    Reassociate(["event: " + m.event, "data: " + DataText(m)], [""], lines);
  }

  lemma ReadWithId(m: Message, previous: string, lines: seq<string>)
    requires HasId(m)
    ensures var after := ReadLines(Buffers("", "", IdAfter(m, previous)), lines);
            ReadLines(Buffers("", "", previous), MessageLines(m) + lines) == (after.0, [EventOf(m, previous)] + after.1)
  {
    var data, id, line := DataText(m), m.eventId.value, "id: " + m.eventId.value;
    var filled := Buffers(data + [LF], m.event, previous);
    ReadId(filled, id);
    ReadQuiet(filled, line, [""] + lines, Buffers(data + [LF], m.event, IdAfter(m, previous)));
    ReadTail(m.event, data, IdAfter(m, previous), lines);
    ReadHead(m.event, data, previous, [line] + ([""] + lines));
    Reassociate(["event: " + m.event, "data: " + data], [line, ""], lines);
    assert [line, ""] + lines == [line] + ([""] + lines);
  }

  /** One message turns empty buffers into empty buffers and its event. */
  lemma ReadMessage(m: Message, previous: string, lines: seq<string>)
    ensures var after := ReadLines(Buffers("", "", IdAfter(m, previous)), lines);
            ReadLines(Buffers("", "", previous), MessageLines(m) + lines) == (after.0, [EventOf(m, previous)] + after.1)
  {
    if HasId(m) {
      ReadWithId(m, previous, lines);
    } else {
      ReadWithoutId(m, previous, lines);
    }
  }

  lemma {:induction false} ReadStream(ms: seq<Message>, previous: string)
    requires forall i :: 0 <= i < |ms| ==> OneLineFields(ms[i])
    ensures ReadLines(Buffers("", "", previous), Lines(Stream(ms))).1 == Expected(ms, previous)
    decreases |ms|
  {
    if ms != [] {
      ReadStream(ms[1..], IdAfter(ms[0], previous));
      FramedLines(ms[0], Stream(ms[1..]));
      ReadMessage(ms[0], previous, Lines(Stream(ms[1..])));
    }
  }

  /** The last id that is neither empty nor contains NUL. */
  function LastUsableId(ms: seq<Message>): string {
    if ms == [] then ""
    else
      var id := ms[|ms| - 1].eventId;
      if id.Some? && id.value != "" && '\0' !in id.value then id.value else LastUsableId(ms[..|ms| - 1])
  }

  lemma {:induction false} ExpectedLength(ms: seq<Message>, previous: string)
    ensures |Expected(ms, previous)| == |ms|
    decreases |ms|
  {
    if ms != [] {
      ExpectedLength(ms[1..], IdAfter(ms[0], previous));
    }
  }

  /** The id after the first messages. */
  function IdThrough(ms: seq<Message>, previous: string): string {
    if ms == [] then previous else IdAfter(ms[|ms| - 1], IdThrough(ms[..|ms| - 1], previous))
  }

  lemma {:induction false} IdThroughCons(m: Message, ms: seq<Message>, previous: string)
    ensures IdThrough([m] + ms, previous) == IdThrough(ms, IdAfter(m, previous))
  {
    if ms == [] {
      assert [m] + ms == [m] && [m][..0] == [];
    } else {
      assert ([m] + ms)[..|ms|] == [m] + ms[..|ms| - 1];
      IdThroughCons(m, ms[..|ms| - 1], previous);
    }
  }

  lemma {:induction false} IdThroughIsUsable(ms: seq<Message>)
    ensures IdThrough(ms, "") == LastUsableId(ms)
  {
    if ms != [] {
      IdThroughIsUsable(ms[..|ms| - 1]);
    }
  }

  lemma {:induction false} ExpectedId(ms: seq<Message>, previous: string, i: nat)
    requires i < |ms| && |Expected(ms, previous)| == |ms|
    ensures Expected(ms, previous)[i] == EventOf(ms[i], IdThrough(ms[..i], previous))
    decreases i
  {
    if i == 0 {
      assert ms[..0] == [];
    } else {
      var rest, next := ms[1..], IdAfter(ms[0], previous);
      ExpectedLength(rest, next);
      ExpectedId(rest, next, i - 1);
      IdThroughCons(ms[0], rest[..i - 1], previous);
      assert ms[..i] == [ms[0]] + rest[..i - 1] && ms[i] == rest[i - 1];
      assert Expected(ms, previous)[i] == Expected(rest, next)[i - 1];
    }
  }

  ghost predicate EventAt(ms: seq<Message>, i: nat, event: Event)
    requires i < |ms|
  {
    && event.kind == (if ms[i].event == "" then "message" else ms[i].event)
    && event.data == (if ms[i].data.Some? then ms[i].data.value else "")
    && event.lastEventId == LastUsableId(ms[..i + 1])
  }

  lemma ExpectedAt(ms: seq<Message>, previous: string, i: nat)
    requires i < |ms| && previous == "" && |Expected(ms, previous)| == |ms|
    ensures EventAt(ms, i, Expected(ms, previous)[i])
  {
    ExpectedId(ms, previous, i);
    IdThroughIsUsable(ms[..i + 1]);
    assert ms[..i + 1][..i] == ms[..i];
  }

  /** A client that reads the concatenated messages gets exactly their types and data, in order, each with
      the id of the last message that had a usable one. */
  lemma RoundTrip(ms: seq<Message>)
    requires forall i :: 0 <= i < |ms| ==> OneLineFields(ms[i])
    ensures Interpret(Stream(ms)) == Expected(ms, "")
    ensures |Interpret(Stream(ms))| == |ms|
    ensures forall i: nat :: i < |ms| ==>
              var m, event := ms[i], Interpret(Stream(ms))[i];
              && event.kind == (if m.event == "" then "message" else m.event)
              && event.data == (if m.data.Some? then m.data.value else "")
              && event.lastEventId == LastUsableId(ms[..i + 1])
  {
    ReadStream(ms, "");
    ExpectedLength(ms, "");
    forall i: nat | i < |ms| ensures EventAt(ms, i, Expected(ms, "")[i]) {
      ExpectedAt(ms, "", i);
    }
    if ms != [] {
      assert Framed(ms[0])[0] == 'e';
      assert Stream(ms)[0] == 'e';
    }
  }

  // ---------------------------------------------------------------------------
  // Why types and ids must fit on a line
  // ---------------------------------------------------------------------------

  ghost predicate OneLineBuffers(b: Buffers) {
    NewlineFree(b.kind) && NewlineFree(b.id)
  }

  lemma FieldOnOneLine(line: string)
    requires NewlineFree(line)
    ensures NewlineFree(FieldOf(line).1)
  {
  }

  lemma {:induction false} LinesFit(s: string, i: nat)
    requires i < |Lines(s)|
    ensures NewlineFree(Lines(s)[i])
    decreases |s|
  {
    var p := LineEnd(s).value;
    var next := if s[p] == CR && p + 1 < |s| && s[p + 1] == LF then p + 2 else p + 1;
    if i > 0 {
      LinesFit(s[next..], i - 1);
    }
  }

  lemma {:induction false} ReadsOneLineTypes(b: Buffers, lines: seq<string>, i: nat)
    requires OneLineBuffers(b) && (forall k :: 0 <= k < |lines| ==> NewlineFree(lines[k]))
    requires i < |ReadLines(b, lines).1|
    ensures NewlineFree(ReadLines(b, lines).1[i].kind) && NewlineFree(ReadLines(b, lines).1[i].lastEventId)
    decreases |lines|
  {
    FieldOnOneLine(lines[0]);
    var (next, first) := ReadLine(b, lines[0]);
    if i >= |first| {
      ReadsOneLineTypes(next, lines[1..], i - |first|);
    }
  }

  /** No stream whatever yields a type or an id with a line break in it. */
  lemma TypesFitOnALine(stream: string, i: nat)
    requires i < |Interpret(stream)|
    ensures NewlineFree(Interpret(stream)[i].kind) && NewlineFree(Interpret(stream)[i].lastEventId)
  {
    var s := if stream != "" && stream[0] == '\U{FEFF}' then stream[1..] else stream;
    forall k | 0 <= k < |Lines(s)| ensures NewlineFree(Lines(s)[k]) {
      LinesFit(s, k);
    }
    ReadsOneLineTypes(NO_BUFFERS, Lines(s), i);
  }

  /** So, for data and an id on one line, a message round-trips exactly when its type is on one line. */
  lemma RoundTripIff(m: Message)
    requires m.data.Some? ==> NewlineFree(m.data.value)
    requires m.eventId.Some? ==> NewlineFree(m.eventId.value)
    ensures Interpret(Framed(m)) == [EventOf(m, "")] <==> NewlineFree(m.event)
  {
    assert [m][1..] == [];
    assert Stream([m]) == Framed(m);
    if NewlineFree(m.event) {
      RoundTrip([m]);
      assert Expected([m], "") == [EventOf(m, "")];
    } else if |Interpret(Framed(m))| == 1 {
      TypesFitOnALine(Framed(m), 0);
    }
  }
}
