/**
  The reader as the source writes it: closures over mutable variables, and a loop of indices over the buffer.
  `delivered` and `retries` record the calls to onMessage and onRetry; `tooLarge` and `lineTooLong` stand for the
  two errors it throws. Each method is proved to take the step the value functions of EventStream describe.
*/
module EventReader {
  import opened EventStream
  import Text

  // ---- the scanning loop ----

  /** The text before offset has been cut into the lines cut. */
  ghost predicate CutSoFar(text: string, atEnd: bool, offset: nat, cut: seq<string>) {
    && offset <= |text|
    && Lines(text, atEnd) == cut + Lines(text[offset..], atEnd)
    && Pending(text, atEnd) == Pending(text[offset..], atEnd)
  }

  lemma NothingCutYet(text: string, atEnd: bool)
    ensures CutSoFar(text, atEnd, 0, [])
  {
    assert text[0..] == text;
  }

  predicate LineEndsAt(text: string, offset: nat, index: nat) {
    offset <= index < |text| && IsBreak(text[index]) && forall j :: offset <= j < index ==> !IsBreak(text[j])
  }

  lemma CutOneMore(text: string, atEnd: bool, offset: nat, index: nat, cut: seq<string>)
    requires CutSoFar(text, atEnd, offset, cut) && LineEndsAt(text, offset, index)
    requires text[index] == '\r' && index + 1 == |text| ==> atEnd
    ensures CutSoFar(text, atEnd,
              if text[index] == '\r' && index + 1 < |text| && text[index + 1] == '\n' then index + 2 else index + 1,
                     cut + [text[offset..index]])
  {
    hide Lines, Pending, BreakAt;
    var rest := text[offset..];
    BreakAtIs(rest, index - offset);
    FirstLine(rest, atEnd);
    assert rest[..index - offset] == text[offset..index];
    assert rest[AfterLine(rest)..] == text[offset + AfterLine(rest)..];
  }

  lemma StoppedAt(text: string, atEnd: bool, offset: nat, index: nat, cut: seq<string>, start: Core)
    requires CutSoFar(text, atEnd, offset, cut) && LineEndsAt(text, offset, index)
    requires text[index] == '\r' && index + 1 == |text| ==> atEnd
    requires ProcessLines(start, cut + [text[offset..index]]).tooLarge
    ensures ProcessLines(start, Lines(text, atEnd)) == ProcessLines(start, cut + [text[offset..index]])
  {
    hide Lines, Pending, BreakAt, ProcessLines;
    CutOneMore(text, atEnd, offset, index, cut);
    var done := cut + [text[offset..index]];
    var next := if text[index] == '\r' && index + 1 < |text| && text[index + 1] == '\n' then index + 2 else index + 1;
    var later := Lines(text[next..], atEnd);
    ProcessInTwo(start, done, later);
    TooLargeIsFinal(ProcessLines(start, done), later);
  }

  /** The loop ends at the end of the buffer, or at a CR that may be half of a CRLF. */
  lemma AllCut(text: string, atEnd: bool, offset: nat, index: nat, cut: seq<string>)
    requires CutSoFar(text, atEnd, offset, cut) && offset <= index <= |text|
    requires forall j :: offset <= j < index ==> !IsBreak(text[j])
    requires index < |text| ==> text[index] == '\r' && index + 1 == |text| && !atEnd
    ensures Lines(text, atEnd) == cut && Pending(text, atEnd) == text[offset..]
  {
    hide Lines, Pending, BreakAt;
    BreakAtIs(text[offset..], index - offset);
    FirstLine(text[offset..], atEnd);
  }

  class Reader {
    var buffer: string
    var firstChunk: bool
    var dataLines: seq<string>
    var eventDataBytes: nat
    var eventType: string
    var lastEventId: string
    var delivered: seq<Message>
    var retries: seq<nat>
    var tooLarge: bool
    var lineTooLong: bool

    constructor ()
      ensures Value() == START
    {
      buffer, firstChunk, dataLines, eventDataBytes := "", true, [], 0;
      eventType, lastEventId := "", "";
      delivered, retries, tooLarge, lineTooLong := [], [], false, false;
    }

    function Value(): State
      reads this
    {
      State(Core(dataLines, eventDataBytes, eventType, lastEventId, delivered, retries, tooLarge),
            buffer, firstChunk, lineTooLong)
    }

    method DispatchEvent()
      modifies this
      ensures Value() == old(Value()).(core := Dispatch(old(Value()).core))
    {
      if |dataLines| > 0 && (eventType == "" || eventType == "message") {
        var data := Joined(dataLines);
        delivered := delivered + [Message(data, lastEventId, if eventType == "" then "message" else eventType)];
      }
      dataLines := [];
      eventDataBytes := 0;
      eventType := "";
    }

    /** Array.prototype.join */
    static method Joined(lines: seq<string>) returns (data: string)
      ensures data == JoinLines(lines)
    {
      data := "";
      for k := 0 to |lines|
        invariant data == JoinLines(lines[..k])
      {
        assert lines[..k + 1][..k] == lines[..k];
        data := if k == 0 then lines[0] else data + "\n" + lines[k];
      }
      assert lines[..|lines|] == lines;
    }

    method InterpretLine(line: string)
      requires !tooLarge
      modifies this
      ensures Value() == old(Value()).(core := ProcessLine(old(Value()).core, line))
    {
      hide Text.Utf8Length, Dispatch, Text.DigitsValue, Text.AllDigits;
      if line == "" {
        DispatchEvent();
        return;
      }
      if line[0] == ':' {
        return;
      }
      var separator := ColonAt(line);
      var field := if separator == |line| then line else line[..separator];
      assert line[..|line|] == line;
      var value := if separator == |line| then "" else line[separator + 1..];
      if value != "" && value[0] == ' ' {
        value := value[1..];
      }
      if field == "data" {
        eventDataBytes := eventDataBytes + Text.Utf8Length(value);
        if |dataLines| > 0 {
          eventDataBytes := eventDataBytes + 1;
        }
        if eventDataBytes > MAX_EVENT_BYTES {
          tooLarge := true;
          return;
        }
        dataLines := dataLines + [value];
      } else if field == "event" {
        eventType := value;
      } else if field == "id" {
        if '\0' !in value {
          lastEventId := value;
        }
      } else if field == "retry" {
        if value != "" && Text.AllDigits(value) {
          retries := retries + [Text.DigitsValue(value)];
        }
      }
    }

    method ConsumeCompleteLines(atEnd: bool)
      requires !tooLarge
      modifies this
      ensures tooLarge ==> Value() == old(Consume(Value(), atEnd)).(buffer := buffer)
      ensures !tooLarge ==> Value() == old(Consume(Value(), atEnd))
    {
      hide Lines, Pending, BreakAt, ProcessLine, CutSoFar;
      ghost var before, cut := Value(), [];
      NothingCutYet(buffer, atEnd);
      var offset, index := 0, 0;
      while index < |buffer|
        invariant offset <= index <= |buffer| && !tooLarge
        invariant buffer == before.buffer && firstChunk == before.firstChunk && lineTooLong == before.lineTooLong
        invariant Value().core == ProcessLines(before.core, cut)
        invariant CutSoFar(buffer, atEnd, offset, cut)
        invariant forall j :: offset <= j < index ==> !IsBreak(buffer[j])
        decreases |buffer| - index
      {
        var character := buffer[index];
        if character != '\r' && character != '\n' {
          index := index + 1;
          continue;
        }
        if character == '\r' && index + 1 == |buffer| && !atEnd {
          break;
        }
        ghost var line := buffer[offset..index];
        CutOneMore(buffer, atEnd, offset, index, cut);
        assert (cut + [line])[..|cut|] == cut;
        InterpretLine(buffer[offset..index]);
        if tooLarge {
          StoppedAt(buffer, atEnd, offset, index, cut, before.core);
          return;
        }
        cut := cut + [line];
        if character == '\r' && index + 1 < |buffer| && buffer[index + 1] == '\n' {
          index := index + 1;
        }
        offset := index + 1;
        index := index + 1;
      }
      AllCut(buffer, atEnd, offset, index, cut);
      buffer := buffer[offset..];
    }

    /** One turn of the reading loop. */
    method Chunk(text: string)
      requires !Value().Failed()
      modifies this
      ensures Value().core == ReadChunk(old(Value()), text).core
      ensures Value().lineTooLong == ReadChunk(old(Value()), text).lineTooLong
      ensures !Value().Failed() ==> Value() == ReadChunk(old(Value()), text)
    {
      buffer := buffer + text;
      if firstChunk && |buffer| > 0 {
        firstChunk := false;
        if buffer[0] == BYTE_ORDER_MARK {
          buffer := buffer[1..];
        }
      }
      ConsumeCompleteLines(false);
      if tooLarge {
        return;
      }
      if Text.Utf8Length(buffer) > MAX_EVENT_BYTES {
        lineTooLong := true;
      }
    }
  }

  /** The whole of codexMuxReadEventStream over the chunks a body yields. */
  method ReadEventStream(chunks: seq<string>, tail: string) returns (outcome: Outcome)
    ensures outcome == ReadAll(chunks, tail)
  {
    hide ReadChunk, Consume, Batch, Text.Utf8Length;
    var reader := new Reader();
    var k := 0;
    while k < |chunks|
      invariant k <= |chunks| && fresh(reader)
      invariant !reader.Value().Failed() && reader.Value() == ReadChunks(START, chunks[..k])
    {
      assert chunks[..k + 1][..k] == chunks[..k];
      reader.Chunk(chunks[k]);
      k := k + 1;
      if reader.tooLarge || reader.lineTooLong {
        GivingUpIsFinal(chunks, k);
        return Outcome(reader.Value().core, reader.lineTooLong);
      }
    }
    assert chunks[..|chunks|] == chunks;
    reader.buffer := reader.buffer + tail;
    reader.ConsumeCompleteLines(true);
    return Outcome(reader.Value().core, reader.lineTooLong);
  }
}
