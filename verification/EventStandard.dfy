/**
  The batch parser of the WHATWG HTML Standard, section 9.2.5 (grammar) and section 9.2.6 (interpretation),
  written from the Standard, and the proof that the incremental reader refines it.
*/
module EventStandard {
  import opened EventStream
  import Text

  // ---- section 9.2.5: lines end at CRLF, LF or CR ----

  datatype Scanner = Scanner(lines: seq<string>, current: string, afterReturn: bool)

  function ScanChar(s: Scanner, c: char): Scanner {
    if c == '\n' && s.afterReturn then s.(afterReturn := false)
    else if IsBreak(c) then Scanner(s.lines + [s.current], "", c == '\r')
    else s.(current := s.current + [c], afterReturn := false)
  }

  function Scan(text: string): Scanner {
    if text == "" then Scanner([], "", false) else ScanChar(Scan(text[..|text| - 1]), text[|text| - 1])
  }

  // ---- section 9.2.6: interpreting lines ----

  datatype Event = Event(eventType: string, data: string, lastEventId: string)

  datatype Interpreter = Interpreter(
    data: string, eventType: string, lastEventId: string, events: seq<Event>, reconnectionTimes: seq<nat>)

  const INITIAL := Interpreter("", "", "", [], [])

  function DispatchEvent(s: Interpreter): Interpreter {
    if s.data == "" then s.(eventType := "")
    else
      var data := if s.data[|s.data| - 1] == '\n' then s.data[..|s.data| - 1] else s.data;
      var event := Event(if s.eventType == "" then "message" else s.eventType, data, s.lastEventId);
      s.(events := s.events + [event], data := "", eventType := "")
  }

  function ProcessField(s: Interpreter, field: string, value: string): Interpreter {
    if field == "event" then s.(eventType := value)
    else if field == "data" then s.(data := s.data + value + "\n")
    else if field == "id" then (if '\0' in value then s else s.(lastEventId := value))
    else if field == "retry" then
      (if value != "" && Text.AllDigits(value) then
        s.(reconnectionTimes := s.reconnectionTimes + [Text.DigitsValue(value)]) else s)
    else s
  }

  function InterpretLine(s: Interpreter, line: string): Interpreter {
    if line == "" then DispatchEvent(s)
    else if line[0] == ':' then s
    else if ':' in line then
      var colon := ColonAt(line);
      var after := line[colon + 1..];
      ProcessField(s, line[..colon], if Text.HasPrefix(after, " ") then after[1..] else after)
    else ProcessField(s, line, "")
  }

  function InterpretLines(s: Interpreter, lines: seq<string>): Interpreter {
    if lines == [] then s else InterpretLine(InterpretLines(s, lines[..|lines| - 1]), lines[|lines| - 1])
  }

  /** The Standard applied to a whole decoded stream. */
  function Standard(text: string): Interpreter {
    InterpretLines(INITIAL, Scan(StripMark(text)).lines)
  }

  /** What a listener for message events sees of the events. */
  function Messages(events: seq<Event>): seq<Message> {
    if events == [] then []
    else
      var e := events[|events| - 1];
      Messages(events[..|events| - 1]) +
      (if e.eventType == "message" then [Message(e.data, e.lastEventId, e.eventType)] else [])
  }

  /** No event's data outgrows the reader's limit; the Standard's data buffer carries one LF more. */
  ghost predicate EventsFit(text: string) {
    AllFit(Scan(StripMark(text)).lines)
  }

  predicate DataFits(lines: seq<string>, k: nat)
    requires k <= |lines|
  {
    Text.Utf8Length(InterpretLines(INITIAL, lines[..k]).data) <= MAX_EVENT_BYTES + 1
  }

  // ---- the two ways of cutting lines agree ----

  predicate NoBreaks(s: string) {
    forall i :: 0 <= i < |s| ==> !IsBreak(s[i])
  }

  /** Where the scanner stands, in terms of what the reader still keeps in its buffer. */
  ghost predicate Agrees(s: Scanner, lines: seq<string>, pending: string) {
    if s.afterReturn then
      && pending != "" && pending[|pending| - 1] == '\r' && NoBreaks(pending[..|pending| - 1])
      && s.lines == lines + [pending[..|pending| - 1]] && s.current == ""
    else NoBreaks(pending) && s.lines == lines && s.current == pending
  }

  lemma LoneBreak(line: string, b: string, atEnd: bool)
    requires NoBreaks(line)
    requires b == "\n" || b == "\r\n" || (b == "\r" && atEnd)
    ensures Lines(line + b, atEnd) == [line] && Pending(line + b, atEnd) == ""
  {
    var s := line + b;
    BreakAtIs(s, |line|);
    FirstLine(s, atEnd);
    assert s[..|line|] == line && s[AfterLine(s)..] == "";
    FirstLine("", atEnd);
  }

  lemma NoLine(s: string, atEnd: bool)
    requires NoBreaks(s) || (!atEnd && s != "" && NoBreaks(s[..|s| - 1]) && s[|s| - 1] == '\r')
    ensures Lines(s, atEnd) == [] && Pending(s, atEnd) == s
  {
    BreakAtIs(s, if NoBreaks(s) then |s| else |s| - 1);
    FirstLine(s, atEnd);
  }

  lemma ReturnThen(line: string, c: char)
    requires NoBreaks(line) && c != '\n'
    ensures Lines(line + "\r" + [c], false) == [line] && Pending(line + "\r" + [c], false) == [c]
  {
    var s := line + "\r" + [c];
    BreakAtIs(s, |line|);
    FirstLine(s, false);
    assert s[..|line|] == line && s[AfterLine(s)..] == [c];
    assert [c][..0] == "";
    NoLine([c], false);
  }

  lemma ScanAfterReturn(s: Scanner, lines: seq<string>, pending: string, c: char)
    requires Agrees(s, lines, pending) && s.afterReturn
    ensures Agrees(ScanChar(s, c), lines + Lines(pending + [c], false), Pending(pending + [c], false))
  {
    hide Lines, Pending;
    var line := pending[..|pending| - 1];
    if c == '\n' {
      assert pending + [c] == line + "\r\n";
      LoneBreak(line, "\r\n", false);
    } else {
      assert pending + [c] == line + "\r" + [c];
      ReturnThen(line, c);
      assert [c][..0] == "";
    }
  }

  lemma ScanOneMore(s: Scanner, lines: seq<string>, pending: string, c: char)
    requires Agrees(s, lines, pending)
    ensures Agrees(ScanChar(s, c), lines + Lines(pending + [c], false), Pending(pending + [c], false))
  {
    hide Lines, Pending;
    var next := pending + [c];
    if s.afterReturn {
      ScanAfterReturn(s, lines, pending, c);
    } else if c == '\n' {
      LoneBreak(pending, "\n", false);
    } else {
      assert next[..|next| - 1] == pending;
      NoLine(next, false);
    }
  }

  lemma {:induction false} ScanAgrees(text: string)
    ensures Agrees(Scan(text), Lines(text, false), Pending(text, false))
  {
    hide Lines, Pending;
    if text == "" {
      NoLine("", false);
    } else {
      var front, c := text[..|text| - 1], text[|text| - 1];
      ScanAgrees(front);
      assert text == front + [c];
      CutInTwo(front, [c], false);
      ScanOneMore(Scan(front), Lines(front, false), Pending(front, false), c);
    }
  }

  lemma LinesAreTheStandards(text: string)
    ensures Lines(text, true) == Scan(text).lines
  {
    hide Lines, Pending;
    ScanAgrees(text);
    assert text + "" == text;
    CutInTwo(text, "", true);
    var pending := Pending(text, false);
    assert pending + "" == pending;
    if Scan(text).afterReturn {
      assert pending == pending[..|pending| - 1] + "\r";
      LoneBreak(pending[..|pending| - 1], "\r", true);
    } else {
      NoLine(pending, true);
    }
  }

  // ---- the two interpretations agree ----

  function Terminated(lines: seq<string>): string {
    if lines == [] then "" else Terminated(lines[..|lines| - 1]) + lines[|lines| - 1] + "\n"
  }

  lemma {:induction false} TerminatedIsJoined(lines: seq<string>)
    requires lines != []
    ensures Terminated(lines) == JoinLines(lines) + "\n"
  {
    if |lines| > 1 {
      TerminatedIsJoined(lines[..|lines| - 1]);
    } else {
      assert lines[..0] == [];
      assert Terminated(lines) == "" + lines[0] + "\n";
    }
  }

  ghost predicate Mirrors(c: Core, s: Interpreter) {
    && !c.tooLarge && c.eventDataBytes <= MAX_EVENT_BYTES
    && s.data == Terminated(c.dataLines)
    && Text.Utf8Length(s.data) == c.eventDataBytes + (if c.dataLines != [] then 1 else 0)
    && s.eventType == c.eventType && s.lastEventId == c.lastEventId
    && Messages(s.events) == c.delivered && s.reconnectionTimes == c.retries
  }

  lemma DispatchMirrors(c: Core, s: Interpreter)
    requires Mirrors(c, s)
    ensures Mirrors(Dispatch(c), DispatchEvent(s))
  {
    assert Text.Utf8Length("") == 0 && Terminated([]) == "";
    if c.dataLines != [] {
      TerminatedIsJoined(c.dataLines);
      var joined := JoinLines(c.dataLines);
      assert s.data == joined + "\n";
      assert s.data[..|s.data| - 1] == joined;
      var events := DispatchEvent(s).events;
      assert events[..|events| - 1] == s.events;
    }
  }

  lemma OneLineMore(data: string, value: string)
    ensures Text.Utf8Length(data + value + "\n") == Text.Utf8Length(data) + Text.Utf8Length(value) + 1
  {
    Text.Utf8LengthOfConcat(data, value);
    Text.Utf8LengthOfConcat(data + value, "\n");
    assert "\n"[..0] == "";
    assert Text.Utf8Length("\n") == 1;
  }

  lemma FieldMirrors(s: Interpreter, line: string)
    requires line != "" && line[0] != ':'
    ensures InterpretLine(s, line) == ProcessField(s, FieldOf(line), ValueOf(line))
  {
    if ':' in line {
      var colon := ColonAt(line);
      assert colon < |line|;
    } else {
      assert ColonAt(line) == |line| && line[..|line|] == line;
    }
  }

  lemma DataFieldMirrors(c: Core, s: Interpreter, line: string)
    requires Mirrors(c, s) && line != "" && line[0] != ':' && FieldOf(line) == "data"
    ensures var c', s' := ProcessLine(c, line), ProcessField(s, "data", ValueOf(line));
            if Text.Utf8Length(s'.data) <= MAX_EVENT_BYTES + 1 then Mirrors(c', s') else c'.tooLarge
  {
    var value := ValueOf(line);
    OneLineMore(s.data, value);
    DataLineIs(c, line, value);
    TerminatedOneMore(c.dataLines, value);
    hide Text.Utf8Length, Terminated, ProcessLine, FieldOf, ValueOf, Messages;
  }

  lemma DataLineIs(c: Core, line: string, value: string)
    requires !c.tooLarge && line != "" && line[0] != ':' && FieldOf(line) == "data" && value == ValueOf(line)
    ensures var bytes := c.eventDataBytes + Text.Utf8Length(value) + (if c.dataLines != [] then 1 else 0);
            ProcessLine(c, line) ==
            if bytes > MAX_EVENT_BYTES then c.(eventDataBytes := bytes, tooLarge := true)
            else c.(eventDataBytes := bytes, dataLines := c.dataLines + [value])
  {
    hide Text.Utf8Length;
  }

  lemma TerminatedOneMore(lines: seq<string>, line: string)
    ensures Terminated(lines + [line]) == Terminated(lines) + line + "\n"
  {
    assert (lines + [line])[..|lines|] == lines;
  }

  lemma OtherFieldMirrors(c: Core, s: Interpreter, line: string)
    requires Mirrors(c, s) && line != "" && line[0] != ':' && FieldOf(line) != "data"
    ensures Mirrors(ProcessLine(c, line), ProcessField(s, FieldOf(line), ValueOf(line)))
  {
    hide Text.Utf8Length, Terminated, Messages;
  }

  /** One line: both go on, or the reader gives up because the Standard's data buffer is over the limit. */
  lemma LineMirrors(c: Core, s: Interpreter, line: string)
    requires Mirrors(c, s)
    ensures var c', s' := ProcessLine(c, line), InterpretLine(s, line);
            if Text.Utf8Length(s'.data) <= MAX_EVENT_BYTES + 1 then Mirrors(c', s') else c'.tooLarge
  {
    if line == "" {
      DispatchMirrors(c, s);
    } else if line[0] != ':' {
      hide ProcessField, ProcessLine, InterpretLine, Mirrors;
      FieldMirrors(s, line);
      if FieldOf(line) == "data" {
        DataFieldMirrors(c, s, line);
      } else {
        OtherFieldMirrors(c, s, line);
        MirroredFits(ProcessLine(c, line), InterpretLine(s, line));
      }
    }
  }

  lemma MirroredFits(c: Core, s: Interpreter)
    requires Mirrors(c, s)
    ensures !c.tooLarge && Text.Utf8Length(s.data) <= MAX_EVENT_BYTES + 1
  {
  }

  predicate AllFit(lines: seq<string>) {
    forall k :: 0 <= k <= |lines| ==> DataFits(lines, k)
  }

  lemma AllFitOfOneMore(lines: seq<string>)
    requires lines != []
    ensures AllFit(lines) <==> AllFit(lines[..|lines| - 1]) && DataFits(lines, |lines|)
  {
    var front := lines[..|lines| - 1];
    forall k | 0 <= k <= |front|
      ensures DataFits(front, k) == DataFits(lines, k)
    {
      assert front[..k] == lines[..k];
    }
  }

  lemma NoLinesMirror()
    ensures Mirrors(FRESH, INITIAL) && AllFit([])
  {
    assert Text.Utf8Length("") == 0 && Terminated([]) == "" && Messages([]) == [];
  }

  lemma {:induction false} LinesMirror(lines: seq<string>)
    ensures if AllFit(lines) then Mirrors(ProcessLines(FRESH, lines), InterpretLines(INITIAL, lines))
            else ProcessLines(FRESH, lines).tooLarge
  {
    hide ProcessLine, InterpretLine, Mirrors, AllFit, Text.Utf8Length;
    if lines == [] {
      NoLinesMirror();
    } else {
      var front, last := lines[..|lines| - 1], lines[|lines| - 1];
      LinesMirror(front);
      AllFitOfOneMore(lines);
      assert lines[..|lines|] == lines;
      if AllFit(front) {
        LineMirrors(ProcessLines(FRESH, front), InterpretLines(INITIAL, front), last);
      } else {
        TooLargeIsFinal(ProcessLines(FRESH, front), [last]);
        ProcessInTwo(FRESH, front, [last]);
        assert front + [last] == lines;
      }
    }
  }

  lemma MirroredResult(c: Core, s: Interpreter)
    requires Mirrors(c, s)
    ensures !c.tooLarge && c.delivered == Messages(s.events) && c.lastEventId == s.lastEventId &&
              c.retries == s.reconnectionTimes
  {
  }

  /**
    The reader refines the Standard: over any chunking of a text whose lines fit, it gives up exactly when some
    event's data outgrows its limit, and otherwise delivers exactly the Standard's message events, with the
    last event ID and the reconnection times the Standard sets.
  */
  lemma ReaderRefinesStandard(chunks: seq<string>, tail: string)
    requires LinesFit(StripMark(Concat(chunks)))
    requires tail != "" ==> tail[0] != BYTE_ORDER_MARK
    ensures var read, text := ReadAll(chunks, tail), Concat(chunks) + tail;
            && !read.lineTooLong
            && (read.core.tooLarge <==> !EventsFit(text))
            && (EventsFit(text) ==>
                  && read.core.delivered == Messages(Standard(text).events)
                  && read.core.lastEventId == Standard(text).lastEventId
                  && read.core.retries == Standard(text).reconnectionTimes)
  {
    hide Lines, LinesFit, ReadAll, ProcessLines, InterpretLines, Scan, AllFit, Mirrors, Messages;
    var text := Concat(chunks) + tail;
    ChunksDoNotMatter(chunks, tail);
    LinesAreTheStandards(StripMark(text));
    LinesMirror(Scan(StripMark(text)).lines);
    if EventsFit(text) {
      MirroredResult(Batch(text), Standard(text));
    }
  }
}
