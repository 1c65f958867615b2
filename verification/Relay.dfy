/** Relaying an answer's event stream: the loop of ServeHTTP in internal/spend/gateway.go. */
module Relay {
  import opened Common
  import Text
  import opened Gateway

  /** What can go wrong while line i is written: its own write, the blank line after a terminal event, the flush. */
  datatype Fault = Fault(write: bool, blank: Option<string>, flush: Option<string>)

  datatype Verdict = Open | Completes | Fails

  /** typeOf decodes an event's JSON and gives its type; None when the JSON does not decode. */
  function Judge(line: string, typeOf: string -> Option<string>): Verdict {
    if !Text.HasPrefix(line, "data:") then Open
    else
      match typeOf(Text.TrimSpace(line[5..]))
      case None => Open
      case Some(t) =>
        if t == "response.completed" then Completes
        else if t == "response.failed" || t == "response.incomplete" || t == "error" then Fails
        else Open
  }

  /** Line i cannot be delivered. */
  predicate Breaks(line: string, fault: Fault, typeOf: string -> Option<string>) {
    fault.write || (!Judge(line, typeOf).Open? && fault.blank.Some?) || fault.flush.Some?
  }

  /** The failure recorded for a line that breaks: that of a line's own write is not looked at. */
  function BreakKind(line: string, fault: Fault, typeOf: string -> Option<string>): string
    requires Breaks(line, fault, typeOf)
  {
    if fault.write then ""
    else if !Judge(line, typeOf).Open? && fault.blank.Some? then fault.blank.value
    else fault.flush.value
  }

  /** The first i lines were delivered and none of them was terminal. */
  predicate Flows(lines: seq<string>, i: nat, faults: nat -> Fault, typeOf: string -> Option<string>)
    requires i <= |lines|
  {
    forall j: nat :: j < i ==> Judge(lines[j], typeOf).Open? && !Breaks(lines[j], faults(j), typeOf)
  }

  function Joined(lines: seq<string>): string {
    if lines == [] then "" else Joined(lines[..|lines| - 1]) + lines[|lines| - 1] + "\n"
  }

  /** What a client has been sent of some lines: each with a newline after it. */
  lemma {:induction false} JoinedIsLines(lines: seq<string>)
    ensures Joined(lines) == if lines == [] then "" else Text.Join(lines, '\n') + "\n"
  {
    if lines != [] {
      JoinedIsLines(lines[..|lines| - 1]);
      JoinOneMore(lines[..|lines| - 1], lines[|lines| - 1]);
      assert lines == lines[..|lines| - 1] + [lines[|lines| - 1]];
    }
  }

  lemma {:induction false} JoinOneMore(lines: seq<string>, line: string)
    ensures Text.Join(lines + [line], '\n') == if lines == [] then line else Text.Join(lines, '\n') + "\n" + line
  {
    if |lines| > 0 {
      assert (lines + [line])[1..] == lines[1..] + [line];
      JoinOneMore(lines[1..], line);
    }
  }

  /** scanError is the scanner's error after the last line, None at the end of the stream. */
  method RelayStream(lines: seq<string>, scanError: Option<string>, faults: nat -> Fault,
                     typeOf: string -> Option<string>)
    returns (sent: string, end: StreamEnd, ghost n: nat)
    ensures n <= |lines| && Flows(lines, n, faults, typeOf)
    // completed or failed: exactly when the first line that ends the flow is terminal and delivered with its blank line
    ensures end.Finished? <==> n < |lines| && !Breaks(lines[n], faults(n), typeOf) && Judge(lines[n], typeOf).Completes?
    ensures end.Failed? <==> n < |lines| && !Breaks(lines[n], faults(n), typeOf) && Judge(lines[n], typeOf).Fails?
    ensures end.Finished? || end.Failed? ==> sent == Joined(lines[..n + 1]) + "\n"
    // disconnected: exactly when that line could not be delivered
    ensures end.Disconnected? <==> n < |lines| && Breaks(lines[n], faults(n), typeOf)
    ensures end.Disconnected? ==> Joined(lines[..n]) <= sent <= Joined(lines[..n + 1]) + "\n"
    ensures end.Disconnected? ==> end.kind == BreakKind(lines[n], faults(n), typeOf)
    // interrupted: exactly when the stream ran out first
    ensures end.Interrupted? <==> n == |lines|
    ensures end.Interrupted? ==>
              sent == Joined(lines) && end.kind ==
                (if scanError.Some? then "stream-" + scanError.value else "stream-eof-before-terminal")
  {
    sent, n := "", 0;
    for i := 0 to |lines|
      invariant n == i && Flows(lines, i, faults, typeOf) && sent == Joined(lines[..i])
    {
      var line := lines[i];
      var terminal := Judge(line, typeOf);
      var fault := faults(i);
      assert lines[..i + 1][..i] == lines[..i];
      if fault.write {
        end := Disconnected("");
        return;
      }
      sent := sent + line + "\n";
      if !terminal.Open? {
        if fault.blank.Some? {
          end := Disconnected(fault.blank.value);
          return;
        }
        sent := sent + "\n";
        if fault.flush.Some? {
          end := Disconnected(fault.flush.value);
          return;
        }
        end := if terminal.Completes? then Finished else Failed;
        return;
      }
      if fault.flush.Some? {
        end := Disconnected(fault.flush.value);
        return;
      }
      n := n + 1;
    }
    assert lines[..|lines|] == lines;
    end := Interrupted(if scanError.Some? then "stream-" + scanError.value else "stream-eof-before-terminal");
  }

  /** The line that ends the flow is determined by the stream and the faults, so the outcome is too. */
  lemma FlowEndsOnce(lines: seq<string>, m: nat, n: nat, faults: nat -> Fault, typeOf: string -> Option<string>)
    requires m <= |lines| && n <= |lines| && Flows(lines, m, faults, typeOf) && Flows(lines, n, faults, typeOf)
    requires m < |lines| ==> !Judge(lines[m], typeOf).Open? || Breaks(lines[m], faults(m), typeOf)
    requires n < |lines| ==> !Judge(lines[n], typeOf).Open? || Breaks(lines[n], faults(n), typeOf)
    ensures m == n
  {
  }
}
