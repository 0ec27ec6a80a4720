/**
 * Server-sent events: cutting bytes into lines, lines into messages, messages into items.
 * The text decoder and the JSON parser are arbitrary functions.
 */
module SseStream {
  import opened Options
  import opened Sequences

  type Byte = b: int | 0 <= b < 256

  const LF: Byte := 10

  // ---- bytes to lines ----

  /** The lines that are complete, and the bytes that wait for more. */
  datatype Split = Split(lines: seq<seq<Byte>>, rest: seq<Byte>)

  /** splitUint8Array at line feeds. */
  function SplitLines(bytes: seq<Byte>): Split {
    if bytes == [] then Split([], [])
    else
      var n := |bytes| - 1;
      var before := SplitLines(bytes[..n]);
      if bytes[n] == LF then Split(before.lines + [before.rest], [])
      else Split(before.lines, before.rest + [bytes[n]])
  }

  lemma {:induction false} SplitMore(bytes: seq<Byte>, b: Byte)
    ensures SplitLines(bytes + [b]) ==
      var before := SplitLines(bytes);
      if b == LF then Split(before.lines + [before.rest], []) else Split(before.lines, before.rest + [b])
  {
    assert (bytes + [b])[..|bytes|] == bytes;
  }

  /** Each line with its terminator. */
  function Terminated(lines: seq<seq<Byte>>): seq<Byte> {
    if lines == [] then [] else Terminated(lines[..|lines| - 1]) + lines[|lines| - 1] + [LF]
  }

  ghost predicate NoLF(bytes: seq<Byte>) { LF !in bytes }

  lemma {:induction false} TerminatedMore(lines: seq<seq<Byte>>, line: seq<Byte>)
    ensures Terminated(lines + [line]) == Terminated(lines) + line + [LF]
  {
    assert (lines + [line])[..|lines|] == lines;
  }

  /** The lines and the rest are the only cut of the bytes at their line feeds. */
  ghost predicate CutAtLF(s: Split, bytes: seq<Byte>) {
    && Terminated(s.lines) + s.rest == bytes
    && NoLF(s.rest)
    && forall i :: 0 <= i < |s.lines| ==> NoLF(s.lines[i])
  }

  lemma {:induction false} SplitCorrect(bytes: seq<Byte>)
    ensures CutAtLF(SplitLines(bytes), bytes)
  {
    hide CutAtLF;
    if bytes == [] {
      EmptyCut();
    } else {
      var front, b := bytes[..|bytes| - 1], bytes[|bytes| - 1];
      SplitCorrect(front);
      CutMore(SplitLines(front), front, b);
      assert bytes == front + [b];
    }
  }

  lemma {:induction false} EmptyCut()
    ensures CutAtLF(Split([], []), [])
  {}

  lemma {:induction false} CutMore(s: Split, bytes: seq<Byte>, b: Byte)
    requires CutAtLF(s, bytes)
    ensures CutAtLF(if b == LF then Split(s.lines + [s.rest], []) else Split(s.lines, s.rest + [b]), bytes + [b])
  {
    hide Terminated;
    if b == LF {
      TerminatedMore(s.lines, s.rest);
      assert Terminated(s.lines + [s.rest]) + [] == bytes + [b];
    } else {
      assert Terminated(s.lines) + (s.rest + [b]) == bytes + [b];
    }
  }

  lemma {:induction false} SplitOfRest(bytes: seq<Byte>)
    requires NoLF(bytes)
    ensures SplitLines(bytes) == Split([], bytes)
  {
    if bytes != [] {
      SplitOfRest(bytes[..|bytes| - 1]);
      assert bytes == bytes[..|bytes| - 1] + [bytes[|bytes| - 1]];
    }
  }

  /** Cutting a stream anywhere and keeping the rest for the next chunk changes nothing. */
  lemma {:induction false} SplitConcat(a: seq<Byte>, b: seq<Byte>)
    ensures SplitLines(a + b) ==
      Split(SplitLines(a).lines + SplitLines(SplitLines(a).rest + b).lines, SplitLines(SplitLines(a).rest + b).rest)
  {
    if b == [] {
      SplitCorrect(a);
      SplitOfRest(SplitLines(a).rest);
      assert a + b == a && SplitLines(a).rest + b == SplitLines(a).rest;
    } else {
      var front, last := b[..|b| - 1], b[|b| - 1];
      assert b == front + [last];
      SplitConcat(a, front);
      SplitConcatStep(a, front, last);
    }
  }

  lemma {:induction false} SplitConcatStep(a: seq<Byte>, front: seq<Byte>, last: Byte)
    requires SplitLines(a + front) ==
      Split(SplitLines(a).lines + SplitLines(SplitLines(a).rest + front).lines, SplitLines(SplitLines(a).rest + front).rest)
    ensures SplitLines(a + (front + [last])) ==
      Split(SplitLines(a).lines + SplitLines(SplitLines(a).rest + (front + [last])).lines,
            SplitLines(SplitLines(a).rest + (front + [last])).rest)
  {
    hide SplitLines;
    var r := SplitLines(a).rest;
    assert a + (front + [last]) == (a + front) + [last] && r + (front + [last]) == (r + front) + [last];
    SplitMore(a + front, last);
    SplitMore(r + front, last);
  }

  /** Bytes made of terminated lines split into these lines. */
  lemma {:induction false} SplitTerminated(lines: seq<seq<Byte>>)
    requires forall i :: 0 <= i < |lines| ==> NoLF(lines[i])
    ensures SplitLines(Terminated(lines)) == Split(lines, [])
  {
    hide SplitLines, Terminated;
    if lines == [] {
      NothingTerminated();
    } else {
      var front, line := lines[..|lines| - 1], lines[|lines| - 1];
      SplitTerminated(front);
      SplitOfRest(line);
      SplitMore(line, LF);
      SplitConcat(Terminated(front), line + [LF]);
      TerminatedMore(front, line);
      assert Terminated(front) + (line + [LF]) == Terminated(front) + line + [LF] && [] + (line + [LF]) == line + [LF];
      assert lines == front + [line];
    }
  }

  lemma {:induction false} NothingTerminated()
    ensures Terminated([]) == [] && SplitLines([]) == Split([], [])
  {}

  /** There is no other cut: lines and rest are determined by the bytes. */
  lemma {:induction false} CutUnique(s: Split, bytes: seq<Byte>)
    requires CutAtLF(s, bytes)
    ensures s == SplitLines(bytes)
  {
    SplitTerminated(s.lines);
    SplitConcat(Terminated(s.lines), s.rest);
    SplitOfRest(s.rest);
    assert [] + s.rest == s.rest && s.lines + [] == s.lines;
  }

  // ---- lines to messages ----

  datatype Message = Message(event: Option<string>, data: string, raw: seq<string>)

  datatype Decoder = Decoder(event: Option<string>, data: seq<string>, chunks: seq<string>)

  const Fresh := Decoder(None, [], [])

  /** The parts before and after the first delimiter; without one, everything is before it. */
  function Partition(s: string, delimiter: char): (string, string) {
    if s == "" then ("", "")
    else if s[0] == delimiter then ("", s[1..])
    else var (before, after) := Partition(s[1..], delimiter); ([s[0]] + before, after)
  }

  /** JavaScript takes null and the empty string for false. */
  predicate Falsy(event: Option<string>) { event == None || event == Some("") }

  function FieldValue(line: string): string {
    var value := Partition(line, ':').1;
    if value != "" && value[0] == ' ' then value[1..] else value
  }

  /** One line through the decoder. */
  function DecodeLine(d: Decoder, line: string): (Decoder, Option<Message>) {
    if line == "" then
      if Falsy(d.event) && d.data == [] then (d, None)
      else (Fresh, Some(Message(d.event, Join(d.data), d.chunks)))
    else
      var kept := d.(chunks := d.chunks + [line]);
      if line[0] == ':' then (kept, None)
      else
        var name, value := Partition(line, ':').0, FieldValue(line);
        if name == "event" then (kept.(event := Some(value)), None)
        else if name == "data" then (kept.(data := kept.data + [value]), None)
        else (kept, None)
  }

  datatype Decoded = Decoded(decoder: Decoder, messages: seq<Message>)

  function WithMessage(messages: seq<Message>, m: Option<Message>): seq<Message> {
    if m.Some? then messages + [m.value] else messages
  }

  function DecodeLines(d: Decoder, lines: seq<string>): Decoded {
    if lines == [] then Decoded(d, [])
    else
      var n := |lines| - 1;
      var before := DecodeLines(d, lines[..n]);
      var (next, m) := DecodeLine(before.decoder, lines[n]);
      Decoded(next, WithMessage(before.messages, m))
  }

  lemma {:induction false} DecodeMore(d: Decoder, lines: seq<string>, line: string)
    ensures DecodeLines(d, lines + [line]) ==
      var before := DecodeLines(d, lines);
      Decoded(DecodeLine(before.decoder, line).0, WithMessage(before.messages, DecodeLine(before.decoder, line).1))
  {
    assert (lines + [line])[..|lines|] == lines;
  }

  lemma {:induction false} DecodeConcat(d: Decoder, a: seq<string>, b: seq<string>)
    ensures DecodeLines(d, a + b) ==
      var first := DecodeLines(d, a);
      var second := DecodeLines(first.decoder, b);
      Decoded(second.decoder, first.messages + second.messages)
  {
    if b == [] {
      assert a + b == a;
    } else {
      var front, last := b[..|b| - 1], b[|b| - 1];
      assert b == front + [last] && a + b == (a + front) + [last];
      DecodeConcat(d, a, front);
      DecodeMore(d, a + front, last);
      DecodeMore(DecodeLines(d, a).decoder, front, last);
    }
  }

  // ---- bytes to messages, in chunks ----

  function Texts(text: seq<Byte> -> string, lines: seq<seq<Byte>>): seq<string> {
    seq(|lines|, i requires 0 <= i < |lines| => text(lines[i]))
  }

  lemma {:induction false} TextsConcat(text: seq<Byte> -> string, a: seq<seq<Byte>>, b: seq<seq<Byte>>)
    ensures Texts(text, a + b) == Texts(text, a) + Texts(text, b)
  {}

  /** What the whole stream means, in one piece. */
  function Messages(text: seq<Byte> -> string, bytes: seq<Byte>): Decoded {
    DecodeLines(Fresh, Texts(text, SplitLines(bytes).lines))
  }

  /** One more chunk: what it adds depends only on the rest and the decoder left by those before. */
  lemma {:induction false} MessagesConcat(text: seq<Byte> -> string, a: seq<Byte>, b: seq<Byte>)
    ensures var first := Messages(text, a);
      var second := DecodeLines(first.decoder, Texts(text, SplitLines(SplitLines(a).rest + b).lines));
      Messages(text, a + b) == Decoded(second.decoder, first.messages + second.messages)
  {
    hide SplitLines, DecodeLines;
    var more := SplitLines(SplitLines(a).rest + b).lines;
    SplitConcat(a, b);
    TextsConcat(text, SplitLines(a).lines, more);
    DecodeConcat(Fresh, Texts(text, SplitLines(a).lines), Texts(text, more));
  }

  /** What has been emitted stays emitted: more bytes only add messages behind. */
  lemma {:induction false} MessagesOnlyGrow(text: seq<Byte> -> string, a: seq<Byte>, b: seq<Byte>)
    ensures Messages(text, a).messages <= Messages(text, a + b).messages
  {
    MessagesConcat(text, a, b);
  }

  // ---- messages to items ----

  /** What parsing and inspecting the data of a message can come to. */
  datatype Parsed<+T> = NotJson | Nothing | ErrorField | Item(item: T)

  datatype Ending = Finished | ParseFailed | ServerError

  datatype Outcome<+T> = Outcome(items: seq<T>, ending: Ending)

  predicate StartsWith(s: string, prefix: string) { prefix <= s }

  predicate IsDone(m: Message) { StartsWith(m.data, "[DONE]") }

  const EventTypes: set<Option<string>> := {None, Some("pluginMeta"), Some("plugin"), Some("chat")}

  /** The items of a stream of messages: up to the first done message or the first error. */
  function Items<T>(parse: string -> Parsed<T>, messages: seq<Message>): Outcome<T> {
    if messages == [] || IsDone(messages[0]) then Outcome([], Finished)
    else if messages[0].event !in EventTypes then Items(parse, messages[1..])
    else
      match parse(messages[0].data)
      case NotJson => Outcome([], ParseFailed)
      case ErrorField => Outcome([], ServerError)
      case Nothing => Items(parse, messages[1..])
      case Item(item) => var rest := Items(parse, messages[1..]); Outcome([item] + rest.items, rest.ending)
  }

  /** Nothing that follows the first done message matters. */
  lemma {:induction false} NothingAfterDone<T>(parse: string -> Parsed<T>, before: seq<Message>, done: Message,
                                              after: seq<Message>)
    requires IsDone(done)
    ensures Items(parse, before + [done] + after) == Items(parse, before)
  {
    if before == [] {
      assert before + [done] + after == [done] + after;
    } else {
      NothingAfterDone(parse, before[1..], done, after);
      assert (before + [done] + after)[1..] == before[1..] + [done] + after;
    }
  }

  // ---- printing ----

  /** An event as a server writes it: an optional name and any number of data lines. */
  datatype Event = Event(name: Option<string>, data: seq<string>) {
    /** An event with neither a name nor data is not dispatched. */
    predicate Dispatched() { data != [] || !Falsy(name) }
  }

  function DataLines(data: seq<string>): seq<string> {
    seq(|data|, i requires 0 <= i < |data| => "data: " + data[i])
  }

  function FieldLines(e: Event): seq<string> {
    (if e.name.Some? then ["event: " + e.name.value] else []) + DataLines(e.data)
  }

  function PrintEvent(e: Event): seq<string> {
    FieldLines(e) + [""]
  }

  function Print(events: seq<Event>): seq<string> {
    if events == [] then [] else Print(events[..|events| - 1]) + PrintEvent(events[|events| - 1])
  }

  /** The message an event arrives as; the data lines are joined without a separator. */
  function Received(e: Event): Message {
    Message(e.name, Join(e.data), FieldLines(e))
  }

  function ReceivedAll(events: seq<Event>): seq<Message> {
    seq(|events|, i requires 0 <= i < |events| => Received(events[i]))
  }

  lemma {:induction false} PartitionAt(name: string, delimiter: char, value: string)
    requires delimiter !in name
    ensures Partition(name + [delimiter] + value, delimiter) == (name, value)
  {
    if name == "" {
      assert name + [delimiter] + value == [delimiter] + value;
    } else {
      PartitionAt(name[1..], delimiter, value);
      assert name[0] in name && [name[0]] + name[1..] == name;
      assert (name + [delimiter] + value)[1..] == name[1..] + [delimiter] + value;
    }
  }

  /** A printed field line gives back its name and its value, leading spaces included. */
  lemma {:induction false} FieldLine(name: string, value: string)
    requires ':' !in name
    ensures Partition(name + ": " + value, ':').0 == name && FieldValue(name + ": " + value) == value
  {
    PartitionAt(name, ':', " " + value);
    assert name + [':'] + (" " + value) == name + ": " + value;
    assert (" " + value)[1..] == value;
  }

  lemma {:induction false} DecodeEventLine(d: Decoder, name: string)
    ensures DecodeLine(d, "event: " + name) == (d.(event := Some(name), chunks := d.chunks + ["event: " + name]), None)
  {
    var line := "event: " + name;
    FieldLine("event", name);
    assert "event" + ": " + name == line;
    assert line[0] == 'e';
  }

  lemma {:induction false} DecodeDataLine(d: Decoder, value: string)
    ensures DecodeLine(d, "data: " + value) == (d.(data := d.data + [value], chunks := d.chunks + ["data: " + value]), None)
  {
    var line := "data: " + value;
    FieldLine("data", value);
    assert "data" + ": " + value == line;
    assert line[0] == 'd';
    assert "data"[0] != "event"[0];
  }

  lemma {:induction false} DecodeDataLines(d: Decoder, data: seq<string>)
    ensures DecodeLines(d, DataLines(data)) ==
      Decoded(d.(data := d.data + data, chunks := d.chunks + DataLines(data)), [])
  {
    if data == [] {
      assert d.data + data == d.data && d.chunks + DataLines(data) == d.chunks;
    } else {
      var front, last := data[..|data| - 1], data[|data| - 1];
      DecodeDataLines(d, front);
      assert data == front + [last];
      assert DataLines(data) == DataLines(front) + ["data: " + last];
      DecodeMore(d, DataLines(front), "data: " + last);
      DecodeDataLine(DecodeLines(d, DataLines(front)).decoder, last);
      assert d.chunks + DataLines(data) == d.chunks + DataLines(front) + ["data: " + last];
      assert d.data + data == d.data + front + [last];
    }
  }

  lemma {:induction false} DecodeFields(e: Event)
    ensures DecodeLines(Fresh, FieldLines(e)) == Decoded(Decoder(e.name, e.data, FieldLines(e)), [])
  {
    if e.name.Some? {
      var line := "event: " + e.name.value;
      DecodeMore(Fresh, [], line);
      assert [] + [line] == [line];
      DecodeEventLine(Fresh, e.name.value);
      var named := Decoder(e.name, [], [line]);
      DecodeDataLines(named, e.data);
      DecodeConcat(Fresh, [line], DataLines(e.data));
      assert [] + e.data == e.data;
    } else {
      DecodeDataLines(Fresh, e.data);
      assert [] + DataLines(e.data) == DataLines(e.data) == FieldLines(e) && [] + e.data == e.data;
    }
  }

  /** A printed event is received exactly when it has data or a non-empty name. */
  lemma {:induction false} DecodePrinted(e: Event)
    ensures e.Dispatched() ==> DecodeLines(Fresh, PrintEvent(e)) == Decoded(Fresh, [Received(e)])
    ensures DecodeLines(Fresh, PrintEvent(e)).messages == [] <==> !e.Dispatched()
  {
    DecodeFields(e);
    DecodeMore(Fresh, FieldLines(e), "");
  }

  /** Printing events and decoding the lines gives the events back. */
  lemma {:induction false} DecodePrint(events: seq<Event>)
    requires forall i :: 0 <= i < |events| ==> events[i].Dispatched()
    ensures DecodeLines(Fresh, Print(events)) == Decoded(Fresh, ReceivedAll(events))
  {
    hide DecodeLines, PrintEvent, Received;
    if events == [] {
      NothingDecoded(Fresh);
      assert ReceivedAll(events) == [];
    } else {
      var front, last := events[..|events| - 1], events[|events| - 1];
      DecodePrint(front);
      DecodePrintStep(Print(front), ReceivedAll(front), last);
      assert ReceivedAll(events) == ReceivedAll(front) + [Received(last)];
    }
  }

  lemma {:induction false} NothingDecoded(d: Decoder)
    ensures DecodeLines(d, []) == Decoded(d, [])
  {}

  lemma {:induction false} DecodePrintStep(lines: seq<string>, messages: seq<Message>, last: Event)
    requires DecodeLines(Fresh, lines) == Decoded(Fresh, messages) && last.Dispatched()
    ensures DecodeLines(Fresh, lines + PrintEvent(last)) == Decoded(Fresh, messages + [Received(last)])
  {
    hide DecodeLines, PrintEvent, Received;
    DecodePrinted(last);
    DecodeConcat(Fresh, lines, PrintEvent(last));
  }

  /** The same through bytes, for every way of encoding lines that the text decoder undoes. */
  lemma {:induction false} PrintedBytes(text: seq<Byte> -> string, encoded: seq<seq<Byte>>, events: seq<Event>)
    requires forall i :: 0 <= i < |events| ==> events[i].Dispatched()
    requires Texts(text, encoded) == Print(events)
    requires forall i :: 0 <= i < |encoded| ==> NoLF(encoded[i])
    ensures Messages(text, Terminated(encoded)) == Decoded(Fresh, ReceivedAll(events))
  {
    SplitTerminated(encoded);
    DecodePrint(events);
  }
}
