/**
  The incremental reader of the desktop menu's event stream: codexMuxReadEventStream in ui/account-menu.js.
  Text reaches it already decoded, in chunks of any size. A thrown error ends the reader, so the value
  functions keep a failed state unchanged.
*/
module EventStream {
  import Text

  const MAX_EVENT_BYTES := 256 * 1024

  const BYTE_ORDER_MARK: char := 0xFEFF as char

  datatype Message = Message(data: string, lastEventId: string, eventType: string)

  /** The interpreter's variables, with the calls made so far to onMessage and onRetry. */
  datatype Core = Core(
    dataLines: seq<string>, eventDataBytes: nat, eventType: string, lastEventId: string,
    delivered: seq<Message>, retries: seq<nat>, tooLarge: bool)

  const FRESH := Core([], 0, "", "", [], [], false)

  function JoinLines(lines: seq<string>): string {
    if lines == [] then ""
    else if |lines| == 1 then lines[0]
    else JoinLines(lines[..|lines| - 1]) + "\n" + lines[|lines| - 1]
  }

  function Dispatch(c: Core): Core {
    c.(delivered := if c.dataLines != [] && (c.eventType == "" || c.eventType == "message")
                    then c.delivered + [Message(JoinLines(c.dataLines), c.lastEventId, "message")]
                    else c.delivered,
       dataLines := [], eventDataBytes := 0, eventType := "")
  }

  /** The index of the first colon, or the length. */
  function ColonAt(line: string): (i: nat)
    ensures i <= |line|
    ensures i < |line| ==> line[i] == ':'
    ensures forall j :: 0 <= j < i ==> line[j] != ':'
  {
    if line == "" || line[0] == ':' then 0 else 1 + ColonAt(line[1..])
  }

  function FieldOf(line: string): string {
    line[..ColonAt(line)]
  }

  function ValueOf(line: string): string {
    var i := ColonAt(line);
    var value := if i < |line| then line[i + 1..] else "";
    if value != "" && value[0] == ' ' then value[1..] else value
  }

  function ProcessLine(c: Core, line: string): Core {
    if c.tooLarge then c
    else if line == "" then Dispatch(c)
    else if line[0] == ':' then c
    else
      var field, value := FieldOf(line), ValueOf(line);
      if field == "data" then
        var bytes := c.eventDataBytes + Text.Utf8Length(value) + (if c.dataLines != [] then 1 else 0);
        if bytes > MAX_EVENT_BYTES then c.(eventDataBytes := bytes, tooLarge := true)
        else c.(eventDataBytes := bytes, dataLines := c.dataLines + [value])
      else if field == "event" then c.(eventType := value)
      else if field == "id" then (if '\0' in value then c else c.(lastEventId := value))
      else if field == "retry" && value != "" && Text.AllDigits(value)
      then c.(retries := c.retries + [Text.DigitsValue(value)])
      else c
  }

  function ProcessLines(c: Core, lines: seq<string>): Core {
    if lines == [] then c else ProcessLine(ProcessLines(c, lines[..|lines| - 1]), lines[|lines| - 1])
  }

  // ---- cutting a buffer into lines ----

  predicate IsBreak(c: char) {
    c == '\r' || c == '\n'
  }

  function BreakAt(s: string): (i: nat)
    ensures i <= |s|
    ensures i < |s| ==> IsBreak(s[i])
    ensures forall j :: 0 <= j < i ==> !IsBreak(s[j])
  {
    if s == "" || IsBreak(s[0]) then 0 else 1 + BreakAt(s[1..])
  }

  /** The first line can be cut off: a final CR may still turn out to be half of a CRLF. */
  predicate HasLine(s: string, atEnd: bool) {
    var i := BreakAt(s);
    i < |s| && (s[i] == '\r' && i + 1 == |s| ==> atEnd)
  }

  /** Where the text after the first line starts. */
  function AfterLine(s: string): (n: nat)
    requires BreakAt(s) < |s|
    ensures BreakAt(s) < n <= |s|
  {
    var i := BreakAt(s);
    if s[i] == '\r' && i + 1 < |s| && s[i + 1] == '\n' then i + 2 else i + 1
  }

  function Lines(s: string, atEnd: bool): seq<string> {
    if HasLine(s, atEnd) then [s[..BreakAt(s)]] + Lines(s[AfterLine(s)..], atEnd) else []
  }

  /** What stays in the buffer. */
  function Pending(s: string, atEnd: bool): (rest: string)
    ensures |rest| <= |s|
  {
    if HasLine(s, atEnd) then Pending(s[AfterLine(s)..], atEnd) else s
  }

  lemma BreakAtIs(s: string, i: nat)
    requires i <= |s| && (i < |s| ==> IsBreak(s[i])) && forall j :: 0 <= j < i ==> !IsBreak(s[j])
    ensures BreakAt(s) == i
  {
  }

  lemma FirstLine(s: string, atEnd: bool)
    ensures HasLine(s, atEnd) ==> Lines(s, atEnd) == [s[..BreakAt(s)]] + Lines(s[AfterLine(s)..], atEnd) &&
                                  Pending(s, atEnd) == Pending(s[AfterLine(s)..], atEnd)
    ensures !HasLine(s, atEnd) ==> Lines(s, atEnd) == [] && Pending(s, atEnd) == s
  {
  }

  lemma FirstLineOfConcat(a: string, b: string, atEnd: bool)
    requires HasLine(a, false)
    ensures HasLine(a + b, atEnd) && BreakAt(a + b) == BreakAt(a) && AfterLine(a + b) == AfterLine(a)
    ensures (a + b)[..BreakAt(a)] == a[..BreakAt(a)] && (a + b)[AfterLine(a)..] == a[AfterLine(a)..] + b
  {
    BreakAtIs(a + b, BreakAt(a));
  }

  /** Cutting a first part and then what is left of it with the rest is cutting the whole. */
  lemma {:induction false} CutInTwo(a: string, b: string, atEnd: bool)
    ensures Lines(a + b, atEnd) == Lines(a, false) + Lines(Pending(a, false) + b, atEnd)
    ensures Pending(a + b, atEnd) == Pending(Pending(a, false) + b, atEnd)
    decreases |a|
  {
    hide Lines, Pending;
    FirstLine(a, false);
    if HasLine(a, false) {
      FirstLineOfConcat(a, b, atEnd);
      FirstLine(a + b, atEnd);
      CutInTwo(a[AfterLine(a)..], b, atEnd);
    }
  }

  lemma {:induction false} ProcessInTwo(c: Core, first: seq<string>, second: seq<string>)
    ensures ProcessLines(c, first + second) == ProcessLines(ProcessLines(c, first), second)
  {
    if second == [] {
      assert first + second == first;
    } else {
      assert (first + second)[..|first + second| - 1] == first + second[..|second| - 1];
      ProcessInTwo(c, first, second[..|second| - 1]);
    }
  }

  // ---- the reader as a value ----

  datatype State = State(core: Core, buffer: string, firstChunk: bool, lineTooLong: bool) {
    predicate Failed() {
      core.tooLarge || lineTooLong
    }
  }

  const START := State(FRESH, "", true, false)

  function StripMark(s: string): string {
    if s != "" && s[0] == BYTE_ORDER_MARK then s[1..] else s
  }

  function Consume(s: State, atEnd: bool): State {
    s.(core := ProcessLines(s.core, Lines(s.buffer, atEnd)), buffer := Pending(s.buffer, atEnd))
  }

  function ReadChunk(s: State, chunk: string): State {
    if s.Failed() then s
    else
      var text := s.buffer + chunk;
      var unmarked := if s.firstChunk && text != "" then s.(firstChunk := false, buffer := StripMark(text))
                    else s.(buffer := text);
      var t := Consume(unmarked, false);
      if !t.core.tooLarge && Text.Utf8Length(t.buffer) > MAX_EVENT_BYTES then t.(lineTooLong := true) else t
  }

  function ReadChunks(s: State, chunks: seq<string>): State {
    if chunks == [] then s else ReadChunk(ReadChunks(s, chunks[..|chunks| - 1]), chunks[|chunks| - 1])
  }

  /** The end of the body: tail is what flushing the decoder adds. */
  function Finish(s: State, tail: string): State {
    if s.Failed() then s else Consume(s.(buffer := s.buffer + tail), true)
  }

  function Concat(chunks: seq<string>): string {
    if chunks == [] then "" else Concat(chunks[..|chunks| - 1]) + chunks[|chunks| - 1]
  }

  /** Interpreting a whole text at once. */
  function Batch(text: string): Core {
    ProcessLines(FRESH, Lines(StripMark(text), true))
  }

  // ---- the line limit ----

  /** Every line fits the buffer with its terminator's CR, the last one without. */
  predicate LinesFit(s: string) {
    var i := BreakAt(s);
    if i == |s| then Text.Utf8Length(s) <= MAX_EVENT_BYTES
    else
      && Text.Utf8Length(s[..i]) + (if s[i] == '\r' then 1 else 0) <= MAX_EVENT_BYTES
      && LinesFit(s[AfterLine(s)..])
  }

  /** A text of one line fits if and only if it is at most 256 KiB long, its closing CR included. */
  lemma OneLineFits(line: string)
    requires forall j :: 0 <= j < |line| ==> !IsBreak(line[j])
    ensures LinesFit(line) <==> Text.Utf8Length(line) <= 262144
    ensures LinesFit(line + "\r") <==> Text.Utf8Length(line + "\r") <= 262144
  {
    BreakAtIs(line, |line|);
    BreakAtIs(line + "\r", |line|);
    assert (line + "\r")[..|line|] == line;
    OneReturnMore(line);
  }

  lemma OneReturnMore(line: string)
    ensures Text.Utf8Length(line + "\r") == Text.Utf8Length(line) + 1
  {
    Text.Utf8LengthOfConcat(line, "\r");
    assert "\r"[..0] == "";
    assert Text.Utf8Length("\r") == 1;
  }

  lemma PartOfLineFits(s: string, n: nat)
    requires n <= BreakAt(s) && LinesFit(s)
    ensures Text.Utf8Length(s[..n]) <= MAX_EVENT_BYTES
  {
    var i := BreakAt(s);
    assert s[..i][..n] == s[..n] && s[..|s|] == s;
    Text.Utf8LengthOfPrefix(s[..i], n);
  }

  lemma LineOfPrefix(s: string, n: nat)
    requires BreakAt(s) < n <= |s|
    ensures var p := s[..n];
            && BreakAt(p) == BreakAt(s) && p[..BreakAt(p)] == s[..BreakAt(s)]
            && (HasLine(p, false) ==>
                 AfterLine(p) == AfterLine(s) <= n && p[AfterLine(p)..] == s[AfterLine(s)..][..n - AfterLine(s)])
            && (!HasLine(p, false) ==> s[BreakAt(s)] == '\r' && p == s[..BreakAt(s)] + "\r")
  {
    hide BreakAt;
    var i, p := BreakAt(s), s[..n];
    BreakAtIs(p, i);
    assert p[..i] == s[..i];
    if HasLine(p, false) {
      AfterLineOfPrefix(s, n);
      hide AfterLine, HasLine;
      SliceOfPrefix(s, AfterLine(s), n);
    } else {
      hide AfterLine;
      assert p == s[..i] + [s[i]];
    }
  }

  lemma AfterLineOfPrefix(s: string, n: nat)
    requires n <= |s| && BreakAt(s) == BreakAt(s[..n]) < n && HasLine(s[..n], false)
    ensures AfterLine(s[..n]) == AfterLine(s) <= n
  {
    hide BreakAt;
  }

  lemma SliceOfPrefix(s: string, m: nat, n: nat)
    requires m <= n <= |s|
    ensures s[..n][m..] == s[m..][..n - m]
  {
  }

  lemma {:induction false} PendingFits(s: string, n: nat)
    requires n <= |s| && LinesFit(s)
    ensures Text.Utf8Length(Pending(s[..n], false)) <= MAX_EVENT_BYTES
    decreases |s|
  {
    hide Lines, Pending, BreakAt, Text.Utf8Length;
    FirstLine(s[..n], false);
    if n <= BreakAt(s) {
      BreakAtIs(s[..n], n);
      PartOfLineFits(s, n);
    } else {
      LineOfPrefix(s, n);
      if HasLine(s[..n], false) {
        PendingFits(s[AfterLine(s)..], n - AfterLine(s));
      } else {
        OneReturnMore(s[..BreakAt(s)]);
      }
    }
  }

  lemma NothingPends()
    ensures Text.Utf8Length(Pending("", false)) == 0
  {
  }

  /** A line that does not fit leaves some prefix of the text with too much in the buffer. */
  lemma {:induction false} SomePrefixOverflows(s: string) returns (n: nat)
    requires !LinesFit(s)
    ensures n <= |s| && Text.Utf8Length(Pending(s[..n], false)) > MAX_EVENT_BYTES
    decreases |s|
  {
    hide BreakAt, Text.Utf8Length, Lines;
    var i := BreakAt(s);
    if i == |s| {
      n := |s|;
      assert s[..n] == s;
    } else if Text.Utf8Length(s[..i]) + (if s[i] == '\r' then 1 else 0) > MAX_EVENT_BYTES {
      n := if s[i] == '\r' then i + 1 else i;
      BreakAtIs(s[..n], i);
      if s[i] == '\r' {
        OneReturnMore(s[..i]);
        assert s[..n] == s[..i] + "\r";
      }
    } else {
      var m := AfterLine(s);
      var k := SomePrefixOverflows(s[m..]);
      n := m + k;
      var p := s[..n];
      BreakAtIs(p, i);
      assert p[m..] == s[m..][..k];
      if k == 0 {
        assert s[m..][..0] == "";
        NothingPends();
      } else {
        assert AfterLine(p) == m;
      }
    }
  }

  // ---- chunks do not matter ----

  lemma MarkStripped(text: string, chunk: string)
    requires text != ""
    ensures StripMark(text + chunk) == StripMark(text) + chunk
  {
  }

  /** What a reader that has not given up does with the text of one more chunk. */
  lemma OneMoreChunk(s: State, text: string, chunk: string)
    requires !s.Failed() && s.core == ProcessLines(FRESH, Lines(StripMark(text), false))
    requires s.buffer == Pending(StripMark(text), false) && (s.firstChunk <==> text == "")
    ensures var t := ReadChunk(s, chunk);
            && t.core == ProcessLines(FRESH, Lines(StripMark(text + chunk), false))
            && t.buffer == Pending(StripMark(text + chunk), false)
            && (t.firstChunk <==> text + chunk == "")
  {
    hide Lines, Pending, ProcessLines;
    if text == "" {
      assert text + chunk == chunk && StripMark("") == "";
      FirstLine("", false);
      NoLines();
      assert s.buffer + chunk == chunk;
    } else {
      MarkStripped(text, chunk);
      CutInTwo(StripMark(text), chunk, false);
      ProcessInTwo(FRESH, Lines(StripMark(text), false), Lines(s.buffer + chunk, false));
    }
  }

  lemma NoLines()
    ensures ProcessLines(FRESH, []) == FRESH
  {
  }

  /** After any chunks the reader is where it would be had their text come at once, unless it gave up. */
  lemma {:induction false} ChunksAccumulate(chunks: seq<string>)
    ensures var s, text := ReadChunks(START, chunks), Concat(chunks);
            s.Failed() || (
              && s.core == ProcessLines(FRESH, Lines(StripMark(text), false))
              && s.buffer == Pending(StripMark(text), false)
              && (s.firstChunk <==> text == ""))
  {
    if chunks != [] {
      var front, chunk := chunks[..|chunks| - 1], chunks[|chunks| - 1];
      ChunksAccumulate(front);
      if !ReadChunks(START, front).Failed() {
        OneMoreChunk(ReadChunks(START, front), Concat(front), chunk);
      }
    }
  }

  lemma {:induction false} ConcatPrefix(chunks: seq<string>, k: nat)
    requires k <= |chunks|
    ensures Concat(chunks[..k]) <= Concat(chunks)
  {
    if k < |chunks| {
      assert chunks[..|chunks| - 1][..k] == chunks[..k];
      ConcatPrefix(chunks[..|chunks| - 1], k);
    } else {
      assert chunks[..k] == chunks;
    }
  }

  lemma StripKeepsPrefix(a: string, text: string)
    requires a <= text
    ensures StripMark(a) <= StripMark(text)
  {
  }

  /** When every line fits the buffer, no chunking makes the reader give up on a line. */
  lemma {:induction false} FittingLinesNeverOverflow(chunks: seq<string>, text: string)
    requires Concat(chunks) <= text && LinesFit(StripMark(text))
    ensures !ReadChunks(START, chunks).lineTooLong
  {
    if chunks != [] {
      var front := chunks[..|chunks| - 1];
      FittingLinesNeverOverflow(front, text);
      var s, t := ReadChunks(START, front), ReadChunks(START, chunks);
      if !s.Failed() && !t.core.tooLarge {
        ReachedBuffer(chunks);
        var read := StripMark(Concat(chunks));
        StripKeepsPrefix(Concat(chunks), text);
        assert read == StripMark(text)[..|read|];
        PendingFits(StripMark(text), |read|);
      }
    }
  }

  /** The buffer the last chunk leaves, whether or not it is then found too long. */
  lemma ReachedBuffer(chunks: seq<string>)
    requires chunks != [] && !ReadChunks(START, chunks[..|chunks| - 1]).Failed()
    ensures ReadChunks(START, chunks).buffer == Pending(StripMark(Concat(chunks)), false)
    ensures ReadChunks(START, chunks).core == ProcessLines(FRESH, Lines(StripMark(Concat(chunks)), false))
  {
    var front, chunk := chunks[..|chunks| - 1], chunks[|chunks| - 1];
    ChunksAccumulate(front);
    OneMoreChunk(ReadChunks(START, front), Concat(front), chunk);
  }

  /** How a run of chunks and the end of the body come out, as a verdict on the whole text. */
  datatype Outcome = Outcome(core: Core, lineTooLong: bool)

  function ReadAll(chunks: seq<string>, tail: string): Outcome {
    var s := Finish(ReadChunks(START, chunks), tail);
    Outcome(s.core, s.lineTooLong)
  }

  lemma FinishCompletes(chunks: seq<string>, tail: string)
    requires !ReadChunks(START, chunks).Failed()
    requires tail != "" ==> tail[0] != BYTE_ORDER_MARK
    ensures ReadAll(chunks, tail) == Outcome(Batch(Concat(chunks) + tail), false)
  {
    hide Lines, Pending, ProcessLines;
    var s, text := ReadChunks(START, chunks), Concat(chunks);
    ChunksAccumulate(chunks);
    assert StripMark(text + tail) == StripMark(text) + tail by {
      if text == "" {
        assert text + tail == tail;
      } else {
        MarkStripped(text, tail);
      }
    }
    CutInTwo(StripMark(text), tail, true);
    ProcessInTwo(FRESH, Lines(StripMark(text), false), Lines(s.buffer + tail, true));
  }

  /** Once the text has gone over the event limit the rest of it changes nothing. */
  lemma {:induction false} TooLargeIsFinal(c: Core, lines: seq<string>)
    requires c.tooLarge
    ensures ProcessLines(c, lines) == c
  {
    if lines != [] {
      TooLargeIsFinal(c, lines[..|lines| - 1]);
    }
  }

  lemma {:induction false} GivingUpIsFinal(chunks: seq<string>, k: nat)
    requires k <= |chunks| && ReadChunks(START, chunks[..k]).Failed()
    ensures ReadChunks(START, chunks) == ReadChunks(START, chunks[..k])
  {
    if k < |chunks| {
      assert chunks[..|chunks| - 1][..k] == chunks[..k];
      GivingUpIsFinal(chunks[..|chunks| - 1], k);
    } else {
      assert chunks[..k] == chunks;
    }
  }

  /** The chunk at which the reader gave up. */
  lemma {:induction false} WhereItGaveUp(chunks: seq<string>) returns (k: nat)
    requires ReadChunks(START, chunks).Failed()
    ensures 0 < k <= |chunks| && ReadChunks(START, chunks[..k]).Failed() &&
              !ReadChunks(START, chunks[..k][..k - 1]).Failed()
  {
    var front := chunks[..|chunks| - 1];
    if ReadChunks(START, front).Failed() {
      k := WhereItGaveUp(front);
      assert front[..k] == chunks[..k];
    } else {
      k := |chunks|;
      assert chunks[..k] == chunks;
    }
  }

  /**
    Chunk invariance. However the decoded text is cut up, the reader makes the same calls, in the same order, as
    interpreting the whole text at once, and gives up on an event exactly when that does.
  */
  lemma ChunksDoNotMatter(chunks: seq<string>, tail: string)
    requires LinesFit(StripMark(Concat(chunks)))
    requires tail != "" ==> tail[0] != BYTE_ORDER_MARK
    ensures ReadAll(chunks, tail) == Outcome(Batch(Concat(chunks) + tail), false)
  {
    hide Lines, Pending, ProcessLines, LinesFit;
    var text := Concat(chunks);
    FittingLinesNeverOverflow(chunks, text);
    if ReadChunks(START, chunks).Failed() {
      var k := WhereItGaveUp(chunks);
      GivingUpIsFinal(chunks, k);
      ReachedBuffer(chunks[..k]);
      ConcatPrefix(chunks, k);
      var read, all := Concat(chunks[..k]), text + tail;
      var rest := all[|read|..];
      assert read != "" by {
        if read == "" {
          EmptyTextNeverFails(read);
        }
      }
      assert all == read + rest;
      GivenUpStaysGivenUp(read, rest);
    } else {
      FinishCompletes(chunks, tail);
    }
  }

  /** Text after a point where the lines read so far are too much does not matter. */
  lemma GivenUpStaysGivenUp(read: string, rest: string)
    requires read != "" && ProcessLines(FRESH, Lines(StripMark(read), false)).tooLarge
    ensures Batch(read + rest) == ProcessLines(FRESH, Lines(StripMark(read), false))
  {
    hide Lines, Pending, ProcessLines;
    MarkStripped(read, rest);
    CutInTwo(StripMark(read), rest, true);
    ProcessInTwo(FRESH, Lines(StripMark(read), false), Lines(Pending(StripMark(read), false) + rest, true));
    TooLargeIsFinal(ProcessLines(FRESH, Lines(StripMark(read), false)),
      Lines(Pending(StripMark(read), false) + rest, true));
  }

  lemma EmptyTextNeverFails(read: string)
    requires read == ""
    ensures !ProcessLines(FRESH, Lines(StripMark(read), false)).tooLarge
  {
  }

  /**
    The line limit is exact: for a text whose events fit, the reader gets through every way of cutting it up if
    and only if every line fits.
  */
  lemma LineLimitIsExact(text: string)
    requires !Batch(text).tooLarge
    ensures LinesFit(StripMark(text)) <==> forall chunks :: Concat(chunks) == text ==> !ReadAll(chunks, "").lineTooLong
  {
    hide Lines, Pending, ProcessLines, LinesFit;
    if LinesFit(StripMark(text)) {
      forall chunks | Concat(chunks) == text
        ensures !ReadAll(chunks, "").lineTooLong
      {
        ChunksDoNotMatter(chunks, "");
      }
    } else {
      var n := SomePrefixOverflows(StripMark(text));
      var cut := n + |text| - |StripMark(text)|;
      var chunks := [text[..cut], text[cut..]];
      assert chunks[..1] == [text[..cut]] && chunks[..1][..0] == [];
      assert Concat([]) + text[..cut] == text[..cut];
      assert Concat(chunks[..1]) == text[..cut];
      assert Concat(chunks) == text;
      CutOverflows(text, n, cut);
      GivingUpIsFinal(chunks, 1);
    }
  }

  lemma CutOverflows(text: string, n: nat, cut: nat)
    requires !Batch(text).tooLarge && n <= |StripMark(text)| && cut == n + |text| - |StripMark(text)|
    requires Text.Utf8Length(Pending(StripMark(text)[..n], false)) > MAX_EVENT_BYTES
    ensures ReadChunks(START, [text[..cut]]).lineTooLong
  {
    hide Lines, Pending, ProcessLines;
    var read, rest := text[..cut], text[cut..];
    assert n > 0 by {
      FirstLine("", false);
      assert StripMark(text)[..0] == "";
    }
    assert StripMark(read) == StripMark(text)[..n];
    var chunks := [read];
    assert chunks[..0] == [];
    assert Concat([]) + read == read;
    ReachedBuffer(chunks);
    assert text == read + rest;
    MarkStripped(read, rest);
    CutInTwo(StripMark(read), rest, true);
    ProcessInTwo(FRESH, Lines(StripMark(read), false), Lines(Pending(StripMark(read), false) + rest, true));
    if ProcessLines(FRESH, Lines(StripMark(read), false)).tooLarge {
      TooLargeIsFinal(ProcessLines(FRESH, Lines(StripMark(read), false)),
        Lines(Pending(StripMark(read), false) + rest, true));
    }
  }
}
