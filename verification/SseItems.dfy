/** Which messages of a stream become items, and which lines of it matter. */
module SseItems {
  import opened Options
  import opened Sequences
  import opened SseStream

  // ---- messages to items ----

  /** A message without a name, or with one of the three that the client knows. */
  predicate Heard(m: Message) {
    match m.event
    case None => true
    case Some(name) => name == "chat" || name == "plugin" || name == "pluginMeta"
  }

  /** The stream says that it is over. */
  predicate Over(m: Message) { |m.data| >= 6 && m.data[..6] == "[DONE]" }

  /** The message ends the iteration with an error. */
  predicate Fails<T>(parse: string -> Parsed<T>, m: Message) {
    Heard(m) && (parse(m.data).NotJson? || parse(m.data).ErrorField?)
  }

  /** What the message adds to the items: the parsed item, if it is heard and there is one. */
  function Gives<T>(parse: string -> Parsed<T>, m: Message): seq<T> {
    if Heard(m) && parse(m.data).Item? then [parse(m.data).item] else []
  }

  function AllGiven<T>(parse: string -> Parsed<T>, messages: seq<Message>): seq<T> {
    Join(seq(|messages|, i requires 0 <= i < |messages| => Gives(parse, messages[i])))
  }

  /** The n-th message is the first one that is a done message or fails; without one n is their number. */
  ghost predicate StopsAt<T>(parse: string -> Parsed<T>, messages: seq<Message>, n: nat) {
    && n <= |messages|
    && (forall i :: 0 <= i < n ==> !Over(messages[i]) && !Fails(parse, messages[i]))
    && (n < |messages| ==> Over(messages[n]) || Fails(parse, messages[n]))
  }

  lemma {:induction false} OneMessage<T>(parse: string -> Parsed<T>, m: Message, rest: seq<Message>)
    ensures Over(m) ==> Items(parse, [m] + rest) == Outcome([], Finished)
    ensures !Over(m) && Fails(parse, m) ==>
      Items(parse, [m] + rest) == Outcome([], if parse(m.data).NotJson? then ParseFailed else ServerError)
    ensures !Over(m) && !Fails(parse, m) ==>
      Items(parse, [m] + rest) == Outcome(Gives(parse, m) + Items(parse, rest).items, Items(parse, rest).ending)
  {
    assert ([m] + rest)[0] == m && ([m] + rest)[1..] == rest;
    assert Over(m) <==> IsDone(m);
    assert Heard(m) <==> m.event in EventTypes;
  }

  lemma {:induction false} GivenPrepend<T>(parse: string -> Parsed<T>, m: Message, rest: seq<Message>)
    ensures AllGiven(parse, [m] + rest) == Gives(parse, m) + AllGiven(parse, rest)
  {
    hide Gives;
    var first := [Gives(parse, m)];
    var others := seq(|rest|, i requires 0 <= i < |rest| => Gives(parse, rest[i]));
    assert seq(|[m] + rest|, i requires 0 <= i < |[m] + rest| => Gives(parse, ([m] + rest)[i])) == first + others;
    JoinConcat(first, others);
    JoinOne(Gives(parse, m));
  }

  /**
   * The items are those of all messages up to the first done message or the first one that fails, in
   * order; that message, or the end of the stream, says how the iteration ends.
   */
  lemma {:induction false} ItemsUpTo<T>(parse: string -> Parsed<T>, messages: seq<Message>, n: nat)
    requires StopsAt(parse, messages, n)
    ensures Items(parse, messages) ==
      Outcome(AllGiven(parse, messages[..n]),
              if n == |messages| || Over(messages[n]) then Finished
              else if parse(messages[n].data).NotJson? then ParseFailed
              else ServerError)
    decreases |messages|
  {
    hide Items, Over, Fails, Gives, AllGiven;
    if messages == [] {
      NoItems(parse);
    } else {
      var m, rest := messages[0], messages[1..];
      assert messages == [m] + rest;
      OneMessage(parse, m, rest);
      if n == 0 {
        NoItems(parse);
        assert messages[..0] == [];
      } else {
        forall i | 0 <= i < n - 1 ensures rest[i] == messages[i + 1] {}
        ItemsUpTo(parse, rest, n - 1);
        assert messages[..n] == [m] + rest[..n - 1];
        GivenPrepend(parse, m, rest[..n - 1]);
      }
    }
  }

  lemma {:induction false} NoItems<T>(parse: string -> Parsed<T>)
    ensures Items(parse, []) == Outcome([], Finished) && AllGiven(parse, []) == []
  {}

  /** There is always exactly one such message, or none. */
  lemma {:induction false} Stops<T>(parse: string -> Parsed<T>, messages: seq<Message>) returns (n: nat)
    ensures StopsAt(parse, messages, n)
    ensures forall k: nat :: StopsAt(parse, messages, k) ==> k == n
  {
    n := 0;
    while n < |messages| && !Over(messages[n]) && !Fails(parse, messages[n])
      invariant n <= |messages|
      invariant forall i :: 0 <= i < n ==> !Over(messages[i]) && !Fails(parse, messages[i])
    {
      n := n + 1;
    }
  }

  // ---- printed events ----

  /** The event does not end the stream, neither well nor badly. */
  predicate GoesOn<T>(parse: string -> Parsed<T>, e: Event) { !Over(Received(e)) && !Fails(parse, Received(e)) }

  /** An ordinary stream, of events with data but without names, however it is cut: its items, in order, and a normal end. */
  lemma {:induction false} NamelessEvents<T>(text: seq<Byte> -> string, parse: string -> Parsed<T>,
                                            encoded: seq<seq<Byte>>, events: seq<Event>, items: seq<T>,
                                            chunks: seq<seq<Byte>>)
    requires |items| == |events|
    requires forall i :: 0 <= i < |events| ==>
      && events[i].name == None && events[i].data != []
      && !Over(Received(events[i])) && parse(Join(events[i].data)) == Item(items[i])
    requires Texts(text, encoded) == Print(events)
    requires forall i :: 0 <= i < |encoded| ==> NoLF(encoded[i])
    requires Join(chunks) == Terminated(encoded)
    ensures Items(parse, Messages(text, Join(chunks)).messages) == Outcome(items, Finished)
  {
    PrintedEvents(text, parse, encoded, events);
    forall i | 0 <= i < |events| ensures Gives(parse, Received(events[i])) == [items[i]] {}
    GivenSingly(parse, ReceivedAll(events), items);
  }

  lemma {:induction false} GivenSingly<T>(parse: string -> Parsed<T>, messages: seq<Message>, items: seq<T>)
    requires |items| == |messages| && forall i :: 0 <= i < |messages| ==> Gives(parse, messages[i]) == [items[i]]
    ensures AllGiven(parse, messages) == items
  {
    hide Gives;
    if messages == [] {
      NoItems(parse);
    } else {
      GivenSingly(parse, messages[1..], items[1..]);
      GivenPrepend(parse, messages[0], messages[1..]);
      assert messages == [messages[0]] + messages[1..] && items == [items[0]] + items[1..];
    }
  }

  /** Events with any names: those with a name that is not known give nothing, the others the item of their data, if there is one. */
  lemma {:induction false} PrintedEvents<T>(text: seq<Byte> -> string, parse: string -> Parsed<T>,
                                           encoded: seq<seq<Byte>>, events: seq<Event>)
    requires forall i :: 0 <= i < |events| ==> events[i].Dispatched() && GoesOn(parse, events[i])
    requires Texts(text, encoded) == Print(events)
    requires forall i :: 0 <= i < |encoded| ==> NoLF(encoded[i])
    ensures Items(parse, Messages(text, Terminated(encoded)).messages) == Outcome(AllGiven(parse, ReceivedAll(events)), Finished)
  {
    hide Print, Items, AllGiven;
    PrintedBytes(text, encoded, events);
    var messages := ReceivedAll(events);
    ItemsUpTo(parse, messages, |messages|);
    assert messages[..|messages|] == messages;
  }

  // ---- single lines ----

  /** A field line may go without the space behind the colon. */
  lemma {:induction false} FieldWithoutSpace(d: Decoder, value: string)
    requires value == "" || value[0] != ' '
    ensures DecodeLine(d, "data:" + value) == (d.(data := d.data + [value], chunks := d.chunks + ["data:" + value]), None)
    ensures DecodeLine(d, "event:" + value) == (d.(event := Some(value), chunks := d.chunks + ["event:" + value]), None)
  {
    FieldAt("data", value);
    FieldAt("event", value);
    assert "data" + ":" + value == "data:" + value && "event" + ":" + value == "event:" + value;
    assert "data"[0] != "event"[0];
  }

  lemma {:induction false} FieldAt(name: string, value: string)
    requires ':' !in name && name != "" && (value == "" || value[0] != ' ')
    ensures var line := name + ":" + value;
      line != "" && line[0] != ':' && Partition(line, ':').0 == name && FieldValue(line) == value
  {
    PartitionAt(name, ':', value);
    assert name + [':'] + value == name + ":" + value;
    assert name[0] in name;
  }

  /** And without a colon its value is empty. */
  lemma {:induction false} FieldWithoutColon(d: Decoder)
    ensures DecodeLine(d, "data") == (d.(data := d.data + [""], chunks := d.chunks + ["data"]), None)
    ensures DecodeLine(d, "event") == (d.(event := Some(""), chunks := d.chunks + ["event"]), None)
  {
    NoDelimiter("data", ':');
    NoDelimiter("event", ':');
    assert "data"[0] != "event"[0];
  }

  lemma {:induction false} NoDelimiter(s: string, delimiter: char)
    requires delimiter !in s
    ensures Partition(s, delimiter) == (s, "")
  {
    if s != "" {
      NoDelimiter(s[1..], delimiter);
      assert [s[0]] + s[1..] == s && s[0] in s;
    }
  }

  /** A comment, or a field with another name, is kept among the raw lines and changes nothing else. */
  predicate Skipped(line: string) {
    line != "" && (line[0] == ':' || (Before(line) != "data" && Before(line) != "event"))
  }

  /** What stands before the first colon of a line. */
  function Before(line: string): string {
    if line == "" || line[0] == ':' then "" else [line[0]] + Before(line[1..])
  }

  lemma {:induction false} BeforeColon(line: string)
    ensures Partition(line, ':').0 == Before(line)
  {
    if line != "" && line[0] != ':' { BeforeColon(line[1..]); }
  }

  lemma {:induction false} SkippedLine(d: Decoder, line: string)
    requires Skipped(line)
    ensures DecodeLine(d, line) == (d.(chunks := d.chunks + [line]), None)
  {
    BeforeColon(line);
  }

  /** A blank line ends an event; with neither a name nor data there is nothing to end. */
  lemma {:induction false} BlankLine(d: Decoder)
    ensures (d.event == None || d.event == Some("")) && d.data == [] ==> DecodeLine(d, "") == (d, None)
    ensures !((d.event == None || d.event == Some("")) && d.data == []) ==>
      DecodeLine(d, "") == (Decoder(None, [], []), Some(Message(d.event, Join(d.data), d.chunks)))
  {}

  // ---- lines that do not matter ----

  function Unskipped(lines: seq<string>): seq<string> {
    if lines == [] then []
    else
      var n := |lines| - 1;
      Unskipped(lines[..n]) + if Skipped(lines[n]) then [] else [lines[n]]
  }

  predicate SameButRaw(a: Message, b: Message) { a.event == b.event && a.data == b.data }

  predicate AllSameButRaw(a: seq<Message>, b: seq<Message>) {
    |a| == |b| && forall i :: 0 <= i < |a| ==> SameButRaw(a[i], b[i])
  }

  predicate SameDecoded(a: Decoded, b: Decoded) {
    && a.decoder.event == b.decoder.event && a.decoder.data == b.decoder.data
    && AllSameButRaw(a.messages, b.messages)
  }

  /** Without comments and unknown fields the same messages come out, their raw lines aside. */
  lemma {:induction false} SkippedLinesDoNotMatter(lines: seq<string>)
    ensures SameDecoded(DecodeLines(Fresh, lines), DecodeLines(Fresh, Unskipped(lines)))
  {
    hide DecodeLine, Skipped;
    if lines != [] {
      var n := |lines| - 1;
      SkippedLinesDoNotMatter(lines[..n]);
      var a, b := DecodeLines(Fresh, lines[..n]), DecodeLines(Fresh, Unskipped(lines[..n]));
      if Skipped(lines[n]) {
        SkippedLine(a.decoder, lines[n]);
        assert Unskipped(lines) == Unskipped(lines[..n]);
      } else {
        DecodeMore(Fresh, Unskipped(lines[..n]), lines[n]);
        SameStep(a.decoder, b.decoder, lines[n]);
      }
    }
  }

  lemma {:induction false} SameStep(a: Decoder, b: Decoder, line: string)
    requires a.event == b.event && a.data == b.data
    ensures var (a', m), (b', k) := DecodeLine(a, line), DecodeLine(b, line);
      && a'.event == b'.event && a'.data == b'.data
      && (m.Some? <==> k.Some?) && (m.Some? ==> SameButRaw(m.value, k.value))
  {
    hide Partition, FieldValue;
  }

  /** The items are told by names and data alone. */
  lemma {:induction false} ItemsIgnoreRaw<T>(parse: string -> Parsed<T>, a: seq<Message>, b: seq<Message>)
    requires AllSameButRaw(a, b)
    ensures Items(parse, a) == Items(parse, b)
  {
    if a != [] {
      ItemsIgnoreRaw(parse, a[1..], b[1..]);
      assert SameButRaw(a[0], b[0]);
    }
  }

  /** So they leave no trace in the items either. */
  lemma {:induction false} SkippedLinesGiveNothing<T>(parse: string -> Parsed<T>, lines: seq<string>)
    ensures Items(parse, DecodeLines(Fresh, lines).messages) == Items(parse, DecodeLines(Fresh, Unskipped(lines)).messages)
  {
    SkippedLinesDoNotMatter(lines);
    ItemsIgnoreRaw(parse, DecodeLines(Fresh, lines).messages, DecodeLines(Fresh, Unskipped(lines)).messages);
  }
}
