/** The writer's framing: the select loop of `events` in internal/control/server.go, and the way back. */
module EventWriter {
  import opened EventStream
  import opened EventStandard
  import Text

  function Frame(payload: string): string {
    "data: " + payload + "\n\n"
  }

  function Written(payloads: seq<string>): string {
    if payloads == [] then ": connected\n\n" else Written(payloads[..|payloads| - 1]) + Frame(payloads[|payloads| - 1])
  }

  /** The bytes one connection carries for the encoded events it is handed, as text. */
  method WriteEvents(payloads: seq<string>) returns (out: string)
    ensures out == Written(payloads)
  {
    out := ": connected\n\n";
    for k := 0 to |payloads|
      invariant out == Written(payloads[..k])
    {
      assert payloads[..k + 1][..k] == payloads[..k];
      out := out + "data: " + payloads[k] + "\n\n";
    }
    assert payloads[..|payloads|] == payloads;
  }

  /** json.Marshal escapes line breaks, and a frame's line must fit the reader's buffer. */
  predicate Sendable(payload: string) {
    NoBreaks(payload) && Text.Utf8Length(payload) + 6 <= MAX_EVENT_BYTES
  }

  function Received(payloads: seq<string>): seq<Message> {
    seq(|payloads|, i requires 0 <= i < |payloads| => Message(payloads[i], "", "message"))
  }

  function FrameLines(payloads: seq<string>): seq<string> {
    if payloads == [] then [": connected", ""]
    else FrameLines(payloads[..|payloads| - 1]) + ["data: " + payloads[|payloads| - 1], ""]
  }

  lemma FrameIsTwoLines(line: string)
    requires NoBreaks(line)
    ensures Lines(line + "\n\n", true) == [line, ""] && Lines(line + "\n\n", false) == [line, ""]
    ensures Pending(line + "\n\n", true) == "" && Pending(line + "\n\n", false) == ""
  {
    hide Lines, Pending, BreakAt;
    var s := line + "\n\n";
    BreakAtIs(s, |line|);
    assert s[..|line|] == line && s[AfterLine(s)..] == "\n";
    FirstLine(s, true);
    FirstLine(s, false);
    assert "" + "\n" == "\n";
    LoneBreak("", "\n", true);
    LoneBreak("", "\n", false);
  }

  lemma {:induction false} WrittenLines(payloads: seq<string>)
    requires forall p :: p in payloads ==> Sendable(p)
    ensures Lines(Written(payloads), false) == FrameLines(payloads) && Pending(Written(payloads), false) == ""
    ensures Lines(Written(payloads), true) == FrameLines(payloads)
  {
    hide Lines, Pending;
    if payloads == [] {
      assert ": connected" + "\n\n" == ": connected\n\n";
      FrameIsTwoLines(": connected");
    } else {
      var front, last := payloads[..|payloads| - 1], payloads[|payloads| - 1];
      WrittenLines(front);
      CutInTwo(Written(front), Frame(last), false);
      CutInTwo(Written(front), Frame(last), true);
      var line := "data: " + last;
      assert "" + Frame(last) == line + "\n\n";
      LastIsSendable(payloads);
      FrameIsTwoLines(line);
    }
  }

  lemma DataLine(payload: string)
    ensures FieldOf("data: " + payload) == "data" && ValueOf("data: " + payload) == payload
  {
    var line := "data: " + payload;
    assert line[0] == 'd' && line[1] == 'a' && line[2] == 't' && line[3] == 'a' && line[4] == ':';
    var i := ColonAt(line);
    assert i == 4;
    assert line[5..] == " " + payload;
  }

  lemma FrameIsDelivered(before: Core, payload: string)
    requires before == FRESH.(delivered := before.delivered) && Sendable(payload)
    ensures ProcessLines(before, ["data: " + payload, ""]) ==
            FRESH.(delivered := before.delivered + [Message(payload, "", "message")])
  {
    hide ValueOf, FieldOf, Text.Utf8Length;
    var line := "data: " + payload;
    DataLine(payload);
    assert [line, ""][..1] == [line] && [line][..0] == [];
    var held := ProcessLine(before, line);
    assert held == before.(dataLines := [payload], eventDataBytes := Text.Utf8Length(payload));
    assert ProcessLines(before, [line]) == held;
    assert JoinLines([payload]) == payload;
  }

  /** Between frames the interpreter holds nothing. */
  lemma {:induction false} FramesAreDelivered(payloads: seq<string>)
    requires forall p :: p in payloads ==> Sendable(p)
    ensures ProcessLines(FRESH, FrameLines(payloads)) == FRESH.(delivered := Received(payloads))
  {
    hide ProcessLine, Sendable;
    if payloads == [] {
      GreetingIsIgnored();
    } else {
      var front, last := payloads[..|payloads| - 1], payloads[|payloads| - 1];
      FramesAreDelivered(front);
      ProcessInTwo(FRESH, FrameLines(front), ["data: " + last, ""]);
      FrameIsDelivered(FRESH.(delivered := Received(front)), last);
      assert Received(payloads) == Received(front) + [Message(last, "", "message")];
    }
  }

  lemma GreetingIsIgnored()
    ensures ProcessLines(FRESH, [": connected", ""]) == FRESH
  {
    assert [": connected", ""][..1] == [": connected"] && [": connected"][..0] == [];
    assert ProcessLines(FRESH, [": connected"]) == ProcessLine(ProcessLines(FRESH, []), ": connected");
  }

  lemma LineThenRest(line: string, rest: string)
    requires NoBreaks(line) && Text.Utf8Length(line) <= MAX_EVENT_BYTES && LinesFit(rest)
    ensures LinesFit(line + "\n" + rest)
  {
    var s := line + "\n" + rest;
    BreakAtIs(s, |line|);
    assert s[..|line|] == line && s[AfterLine(s)..] == rest;
  }

  lemma FrameFits(line: string, rest: string)
    requires NoBreaks(line) && Text.Utf8Length(line) <= MAX_EVENT_BYTES && LinesFit(rest)
    ensures LinesFit(line + "\n\n" + rest)
  {
    hide LinesFit, NoBreaks, Text.Utf8Length;
    EmptyLineFits();
    LineThenRest("", rest);
    LineThenRest(line, "" + "\n" + rest);
    FrameInTwo(line, rest);
  }

  lemma FrameInTwo(line: string, rest: string)
    ensures line + "\n" + ("" + "\n" + rest) == line + "\n\n" + rest
  {
  }

  lemma EmptyLineFits()
    ensures NoBreaks("") && Text.Utf8Length("") == 0
  {
  }

  lemma {:induction false} WrittenFits(payloads: seq<string>, rest: string)
    requires (forall p :: p in payloads ==> Sendable(p)) && LinesFit(rest)
    ensures LinesFit(Written(payloads) + rest)
    decreases |payloads|
  {
    hide LinesFit;
    if payloads == [] {
      assert ": connected" + "\n\n" + rest == ": connected\n\n" + rest;
      Text.Utf8LengthAtMost(": connected");
      FrameFits(": connected", rest);
    } else {
      var front, last := payloads[..|payloads| - 1], payloads[|payloads| - 1];
      var line := "data: " + last;
      LastIsSendable(payloads);
      FrameFits(line, rest);
      WrittenFits(front, line + "\n\n" + rest);
      assert Written(front) + (line + "\n\n" + rest) == Written(payloads) + rest;
    }
  }

  lemma DataPrefixLength()
    ensures Text.Utf8Length("data: ") == 6
  {
    assert "data: "[..5] == "data:" && "data:"[..4] == "data" && "data"[..3] == "dat" && "dat"[..2] == "da" &&
      "da"[..1] == "d";
    assert "d"[..0] == "";
    assert Text.Utf8Length("d") == 1;
    assert Text.Utf8Length("da") == 2;
    assert Text.Utf8Length("dat") == 3;
    assert Text.Utf8Length("data") == 4;
    assert Text.Utf8Length("data:") == 5;
  }

  lemma LastIsSendable(payloads: seq<string>)
    requires payloads != [] && forall p :: p in payloads ==> Sendable(p)
    ensures var line := "data: " + payloads[|payloads| - 1];
            NoBreaks(line) && Text.Utf8Length(line) <= MAX_EVENT_BYTES && Sendable(payloads[|payloads| - 1])
  {
    var last := payloads[|payloads| - 1];
    assert last in payloads;
    var prefix := "data: ";
    assert NoBreaks(prefix);
    Text.Utf8LengthOfConcat(prefix, last);
    DataPrefixLength();
  }

  /**
    Round trip. However the bytes of a connection are cut up, the reader is handed back exactly the payloads that
    were written, in order, and nothing else.
  */
  lemma WriterReaderRoundTrip(payloads: seq<string>, chunks: seq<string>)
    requires forall p :: p in payloads ==> Sendable(p)
    requires Concat(chunks) == Written(payloads)
    ensures ReadAll(chunks, "") == Outcome(FRESH.(delivered := Received(payloads)), false)
  {
    hide Lines, Pending, LinesFit, ProcessLines;
    var text := Written(payloads);
    assert text + "" == text;
    WrittenStarts(payloads);
    assert StripMark(text) == text;
    NothingFits();
    WrittenFits(payloads, "");
    ChunksDoNotMatter(chunks, "");
    WrittenLines(payloads);
    FramesAreDelivered(payloads);
  }

  lemma NothingFits()
    ensures LinesFit("")
  {
    assert Text.Utf8Length("") == 0;
  }

  lemma {:induction false} WrittenStarts(payloads: seq<string>)
    ensures Written(payloads) != "" && Written(payloads)[0] == ':'
  {
    if payloads != [] {
      WrittenStarts(payloads[..|payloads| - 1]);
    }
  }
}
