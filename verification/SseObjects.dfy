/** The decoder and the stream as objects that are fed line by line and chunk by chunk. */
module SseObjects {
  import opened Options
  import opened Sequences
  import opened SseStream

  class SSEDecoder {
    var event: Option<string>
    var data: seq<string>
    var chunks: seq<string>

    ghost function State(): Decoder
      reads this
    {
      Decoder(event, data, chunks)
    }

    constructor ()
      ensures State() == Fresh
    {
      event, data, chunks := None, [], [];
    }

    method Decode(line: string) returns (sse: Option<Message>)
      modifies this
      ensures (State(), sse) == DecodeLine(old(State()), line)
    {
      if line == "" {
        if (event == None || event == Some("")) && data == [] { return None; }
        sse := Some(Message(event, Join(data), chunks));
        event, data, chunks := None, [], [];
        return;
      }
      chunks := chunks + [line];
      if line[0] == ':' { return None; }
      var (fieldName, value) := Partition(line, ':');
      if value != "" && value[0] == ' ' { value := value[1..]; }
      if fieldName == "event" {
        event := Some(value);
      } else if fieldName == "data" {
        data := data + [value];
      }
      sse := None;
    }
  }

  /** splitUint8Array: one pass with the start of the current line. */
  method SplitUint8Array(bytes: seq<Byte>) returns (lines: seq<seq<Byte>>, rest: seq<Byte>)
    ensures Split(lines, rest) == SplitLines(bytes)
  {
    hide SplitLines;
    lines := [];
    var start := 0;
    NothingTerminated();
    assert bytes[..0] == [];
    for i := 0 to |bytes|
      invariant start <= i
      invariant SplitLines(bytes[..i]) == Split(lines, bytes[start..i])
    {
      SplitMore(bytes[..i], bytes[i]);
      assert bytes[..i + 1] == bytes[..i] + [bytes[i]];
      assert bytes[start..i + 1] == bytes[start..i] + [bytes[i]];
      assert bytes[i + 1..i + 1] == [];
      if bytes[i] == LF {
        lines := lines + [bytes[start..i]];
        start := i + 1;
      }
    }
    assert bytes[..|bytes|] == bytes;
    rest := bytes[start..];
  }

  class SseReader {
    const text: seq<Byte> -> string
    const decoder: SSEDecoder
    var buffer: seq<Byte>
    var consumed: bool
    /** All bytes seen so far; bookkeeping for the specification only. */
    ghost var seen: seq<Byte>

    ghost predicate Valid()
      reads this, decoder
    {
      buffer == SplitLines(seen).rest && decoder.State() == Messages(text, seen).decoder
    }

    constructor (text: seq<Byte> -> string)
      ensures Valid() && fresh(decoder) && seen == [] && !consumed && this.text == text
    {
      this.text := text;
      decoder := new SSEDecoder();
      buffer, consumed, seen := [], false, [];
    }

    /** One chunk: the messages it completes are exactly those the whole stream gains. */
    method Feed(chunk: seq<Byte>) returns (messages: seq<Message>)
      requires Valid()
      modifies this, decoder
      ensures Valid() && seen == old(seen) + chunk && consumed == old(consumed)
      ensures Messages(text, seen).messages == Messages(text, old(seen)).messages + messages
    {
      buffer := buffer + chunk;
      var lines, remaining := SplitUint8Array(buffer);
      messages := [];
      hide SplitLines, DecodeLines, Messages;
      ghost var first := decoder.State();
      NothingDecoded(first);
      ghost var texts := Texts(text, lines);
      for i := 0 to |lines|
        invariant DecodeLines(first, texts[..i]) == Decoded(decoder.State(), messages)
        invariant seen == old(seen) && consumed == old(consumed)
      {
        DecodeMore(first, texts[..i], texts[i]);
        assert texts[..i + 1] == texts[..i] + [texts[i]];
        var sse := decoder.Decode(text(lines[i]));
        if sse.Some? { messages := messages + [sse.value]; }
      }
      assert texts[..|lines|] == texts;
      MessagesConcat(text, seen, chunk);
      SplitConcat(seen, chunk);
      seen := seen + chunk;
      buffer := remaining;
    }

    /**
     * Reads a body chunk by chunk. The messages and the leftover bytes are those of the whole body,
     * however it was cut. A second reading is refused.
     */
    method IterMessages(chunks: seq<seq<Byte>>) returns (messages: Option<seq<Message>>)
      requires Valid() && (!consumed ==> seen == [])
      modifies this, decoder
      ensures consumed && Valid()
      ensures messages == None <==> old(consumed)
      ensures messages.Some? ==>
        && messages.value == Messages(text, Join(chunks)).messages
        && buffer == SplitLines(Join(chunks)).rest
    {
      if consumed { return None; }
      consumed := true;
      var all: seq<Message> := [];
      for i := 0 to |chunks|
        invariant Valid() && consumed && seen == Join(chunks[..i])
        invariant all == Messages(text, seen).messages
      {
        var more := Feed(chunks[i]);
        all := all + more;
        JoinMore(chunks[..i], chunks[i]);
        assert chunks[..i + 1] == chunks[..i] + [chunks[i]];
      }
      assert chunks[..|chunks|] == chunks;
      messages := Some(all);
    }
  }

  /** The loop that turns messages into items: it drains after a done message and stops at an error. */
  method Iterate<T>(parse: string -> Parsed<T>, messages: seq<Message>) returns (items: seq<T>, ending: Ending, aborted: bool)
    ensures Outcome(items, ending) == Items(parse, messages)
    ensures aborted <==> ending != Finished
  {
    items, ending, aborted := [], Finished, true;
    var done := false;
    for i := 0 to |messages|
      invariant !done ==>
        Outcome(items + Items(parse, messages[i..]).items, Items(parse, messages[i..]).ending) == Items(parse, messages)
      invariant done ==> Items(parse, messages) == Outcome(items, Finished)
    {
      if done { continue; }
      var m := messages[i];
      assert messages[i..][1..] == messages[i + 1..];
      if StartsWith(m.data, "[DONE]") {
        done := true;
        continue;
      }
      if m.event in EventTypes {
        var parsed := parse(m.data);
        if parsed.NotJson? { ending := ParseFailed; return; }
        if parsed.ErrorField? { ending := ServerError; return; }
        if parsed.Item? {
          assert items + ([parsed.item] + Items(parse, messages[i + 1..]).items) ==
                 items + [parsed.item] + Items(parse, messages[i + 1..]).items;
          items := items + [parsed.item];
        }
      }
    }
    aborted := false;
  }

  /** For every cutting of the same bytes the reader ends with the same items and the same ending. */
  method ReadStream<T>(text: seq<Byte> -> string, parse: string -> Parsed<T>, chunks: seq<seq<Byte>>)
    returns (items: seq<T>, ending: Ending)
    ensures Outcome(items, ending) == Items(parse, Messages(text, Join(chunks)).messages)
  {
    var reader := new SseReader(text);
    var messages := reader.IterMessages(chunks);
    var aborted;
    items, ending, aborted := Iterate(parse, messages.value);
  }
}
