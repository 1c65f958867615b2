/**
  What a charged request is recorded as, from what the world answered: the ends of ServeHTTP (internal/spend/gateway.go)
  and of createVoiceCall (internal/spend/voice.go), and that no later piece of any handler changes a record made.
*/
module Outcomes {
  import opened Common
  import opened Gateway
  import opened GatewayRuns
  import opened GatewayCall
  import opened Relay
  import P = SpendPolicy
  import SpendRules
  import Text
  import VoiceSetup

  // ---- a streamed answer ----

  /** The line is an event of type t. */
  predicate Says(line: string, typeOf: string -> Option<string>, t: string) {
    |line| >= 5 && line[..5] == "data:" && typeOf(Text.TrimSpace(line[5..])) == Some(t)
  }

  predicate SaysFailed(line: string, typeOf: string -> Option<string>) {
    Says(line, typeOf, "response.failed") || Says(line, typeOf, "response.incomplete") || Says(line, typeOf, "error")
  }

  predicate Terminal(line: string, typeOf: string -> Option<string>) {
    Says(line, typeOf, "response.completed") || SaysFailed(line, typeOf)
  }

  /** Writing it, flushing it, or the blank line a terminal event is given fails. */
  predicate Undelivered(line: string, fault: Fault, typeOf: string -> Option<string>) {
    fault.write || fault.flush.Some? || (Terminal(line, typeOf) && fault.blank.Some?)
  }

  /** The first n lines are delivered and not terminal; the next one, if there is one, is terminal or undelivered. */
  predicate EndsAt(lines: seq<string>, n: nat, faults: nat -> Fault, typeOf: string -> Option<string>) {
    && n <= |lines|
    && (forall i: nat :: i < n ==> !Terminal(lines[i], typeOf) && !Undelivered(lines[i], faults(i), typeOf))
    && (n < |lines| ==> Terminal(lines[n], typeOf) || Undelivered(lines[n], faults(n), typeOf))
  }

  lemma JudgedByType(line: string, fault: Fault, typeOf: string -> Option<string>)
    ensures Judge(line, typeOf).Completes? <==> Says(line, typeOf, "response.completed")
    ensures Judge(line, typeOf).Fails? <==> SaysFailed(line, typeOf)
    ensures Breaks(line, fault, typeOf) <==> Undelivered(line, fault, typeOf)
    ensures Breaks(line, fault, typeOf) && !fault.write ==>
              Some(BreakKind(line, fault, typeOf)) ==
              if Terminal(line, typeOf) && fault.blank.Some? then fault.blank else fault.flush
  {
    if |line| >= 5 {
      assert "data:" <= line <==> line[..5] == "data:";
    }
  }

  /** The loop of ServeHTTP over the answer's lines: which outcome is recorded, and what the client got. */
  method RelayBody(call: Call, lines: seq<string>, scanError: Option<string>, faults: nat -> Fault,
                   typeOf: string -> Option<string>)
    returns (sent: string, ghost n: nat)
    requires call.Valid() && call.phase.Reading? && call.kind == Inference(false)
    modifies call
    ensures call.Valid() && call.phase.Returning? && EndsAt(lines, n, faults, typeOf)
    ensures call.record.outcome == Completed <==>
              n < |lines| && !Undelivered(lines[n], faults(n), typeOf) && Says(lines[n], typeOf, "response.completed")
    ensures call.record.outcome == UpstreamFailed <==>
              n < |lines| && !Undelivered(lines[n], faults(n), typeOf) && SaysFailed(lines[n], typeOf)
    ensures call.record.outcome == ClientDisconnected <==>
              n < |lines| && Undelivered(lines[n], faults(n), typeOf)
    ensures call.record.outcome == StreamInterrupted <==> n == |lines|
    ensures n == |lines| ==>
              call.record.failureKind ==
              if scanError.Some? then "stream-" + scanError.value else "stream-eof-before-terminal"
    ensures call.record.outcome in {Completed, UpstreamFailed} ==>
              call.record.failureKind == "" && sent == Joined(lines[..n + 1]) + "\n"
    ensures call.record.decision == old(call.record.decision) && call.record.status == old(call.record.status)
  {
    var end;
    sent, end, n := RelayStream(lines, scanError, faults, typeOf);
    RelayedToEnd(lines, n, faults, typeOf);
    if n < |lines| {
      JudgedByType(lines[n], faults(n), typeOf);
    }
    hide Judge, Breaks, Flows, Says, SaysFailed, Undelivered, EndsAt, Told;
    call.Finish(Body(true, true, end));
  }

  lemma RelayedToEnd(lines: seq<string>, n: nat, faults: nat -> Fault, typeOf: string -> Option<string>)
    requires n <= |lines| && Flows(lines, n, faults, typeOf)
    requires n < |lines| ==> !Judge(lines[n], typeOf).Open? || Breaks(lines[n], faults(n), typeOf)
    ensures EndsAt(lines, n, faults, typeOf)
  {
    forall i: nat | i < |lines|
      ensures Judge(lines[i], typeOf).Open? <==> !Terminal(lines[i], typeOf)
      ensures Breaks(lines[i], faults(i), typeOf) <==> Undelivered(lines[i], faults(i), typeOf)
    {
      JudgedByType(lines[i], faults(i), typeOf);
      hide Breaks, Undelivered;
    }
    hide Judge, Breaks, Terminal, Undelivered;
  }

  // ---- a compaction ----

  const MAX_COMPACTION := 33554432

  /** The compact branch of ServeHTTP; data is absent when reading the answer failed. */
  method CompactBody(call: Call, data: Option<string>, isJson: string -> bool, writable: bool)
    returns (sent: string)
    requires call.Valid() && call.phase.Reading? && call.kind == Inference(true)
    modifies call
    ensures call.Valid() && call.phase.Returning? && call.record.failureKind == ""
    ensures call.record.outcome == InvalidCompaction <==>
              data.None? || Text.Utf8Length(data.value) > 33554432 || !isJson(data.value)
    ensures call.record.outcome == Completed <==> call.record.outcome != InvalidCompaction && writable
    ensures call.record.outcome == ClientDisconnected <==> call.record.outcome != InvalidCompaction && !writable
    ensures call.record.outcome == Completed ==> Some(sent) == data
  {
    var valid := data.Some? && Text.Utf8Length(data.value) <= MAX_COMPACTION && isJson(data.value);
    sent := if valid && writable then data.value else "";
    hide Told;
    call.Finish(Body(valid, writable, Finished));
  }

  // ---- a voice call ----

  const MAX_DESCRIPTION := 1048576

  /** The end of createVoiceCall; the name of the call is taken from the answer's location. */
  method VoiceBody(call: Call, description: Option<string>, location: string, writable: bool)
    returns (id: string)
    requires call.Valid() && call.phase.Reading? && call.kind == Voice
    modifies call
    ensures call.Valid() && call.phase.Returning? && call.record.failureKind == ""
    ensures var parts := Text.Split(location[..Text.IndexOf(location, '?')], '/');
            && (call.record.outcome == InvalidVoice <==>
                 || description.None? || Text.Utf8Length(description.value) > 1048576
                 || !("v=0" <= description.value) || forall p :: p in parts ==> !VoiceSetup.NamesCall(p))
            && (call.record.outcome != InvalidVoice ==> id in parts && VoiceSetup.NamesCall(id))
    ensures call.record.outcome == VoiceCallCreated <==> call.record.outcome != InvalidVoice && writable
    ensures call.record.outcome == ClientDisconnected <==> call.record.outcome != InvalidVoice && !writable
  {
    id := VoiceSetup.CallID(location);
    var valid := description.Some? && Text.Utf8Length(description.value) <= MAX_DESCRIPTION
      && Text.HasPrefix(description.value, "v=0") && id != "";
    assert !VoiceSetup.NamesCall("");
    hide Told, VoiceSetup.NamesCall;
    call.Finish(Body(valid, writable, Finished));
  }

  // ---- over whole runs ----

  lemma OneMoreMove(maxAge: int, moves: seq<Move>, m: Move)
    ensures Run(maxAge, moves + [m]) == Next(Run(maxAge, moves), maxAge, m)
  {
    hide GatewayRuns.Sound;
    assert (moves + [m])[..|moves|] == moves;
  }

  /** h' is a handler as far on as h, with the same record. */
  predicate Same(h: Handler, h': Handler) {
    h.phase.Returning? ==>
      h'.phase.Returning? && h'.record == h.record && h'.kind == h.kind && h'.progress == h.progress
  }

  lemma ReturningKeepsRecord(h: Handler, l: P.Ledger, maxAge: int, e: Event)
    requires Told(h) && P.Sound(l)
    ensures Same(h, Advance(h, l, maxAge, e).0)
  {
    if h.phase.Returning? {
      hide P.Sound, P.Step;
    }
  }

  lemma NextHandler(s: System, maxAge: int, m: Move, k: nat)
    requires GatewayRuns.Sound(s) && k < |s.handlers|
    ensures Told(s.handlers[k]) && P.Sound(s.ledger) && k < |Next(s, maxAge, m).handlers|
    ensures Next(s, maxAge, m).handlers[k] ==
            if m.Turn? && m.k == k then Advance(s.handlers[k], s.ledger, maxAge, m.event).0 else s.handlers[k]
  {
    SoundIs(s, k);
    hide GatewayRuns.Sound, Advance, Told, P.Sound, P.Step, P.SetStep, P.Counted, Linked, Arrived;
    match m
    case Arrive(_, _) =>
    case SetMode(_) =>
    case Turn(_, _) =>
  }

  lemma NextKeepsRecord(s: System, maxAge: int, m: Move, k: nat)
    requires GatewayRuns.Sound(s) && k < |s.handlers|
    ensures k < |Next(s, maxAge, m).handlers| && Same(s.handlers[k], Next(s, maxAge, m).handlers[k])
  {
    NextHandler(s, maxAge, m, k);
    hide GatewayRuns.Sound, Advance, Next, Told, P.Sound;
    if m.Turn? && m.k == k {
      ReturningKeepsRecord(s.handlers[k], s.ledger, maxAge, m.event);
    }
  }

  lemma SoundIs(s: System, k: nat)
    requires GatewayRuns.Sound(s) && k < |s.handlers|
    ensures Told(s.handlers[k]) && P.Sound(s.ledger)
  {
  }

  lemma SameAndSame(a: Handler, b: Handler, c: Handler)
    requires Same(a, b) && Same(b, c)
    ensures Same(a, c)
  {
  }

  lemma LastMove(maxAge: int, moves: seq<Move>, more: seq<Move>)
    requires more != []
    ensures Run(maxAge, moves + more) == Next(Run(maxAge, moves + more[..|more| - 1]), maxAge, more[|more| - 1])
  {
    hide GatewayRuns.Sound, Next;
    assert (moves + more)[..|moves + more| - 1] == moves + more[..|more| - 1];
  }

  /** The last of more moves carries on what the moves before it kept. */
  lemma LastMoveOn(maxAge: int, moves: seq<Move>, more: seq<Move>, k: nat, h: Handler)
    requires more != []
    requires var s := Run(maxAge, moves + more[..|more| - 1]); k < |s.handlers| && Same(h, s.handlers[k])
    ensures var s := Run(maxAge, moves + more); k < |s.handlers| && Same(h, s.handlers[k])
  {
    hide *;
    var s, m := Run(maxAge, moves + more[..|more| - 1]), more[|more| - 1];
    LastMove(maxAge, moves, more);
    NextKeepsRecord(s, maxAge, m, k);
    SameAndSame(h, s.handlers[k], Next(s, maxAge, m).handlers[k]);
  }

  /** Once a handler is returning, its record stays as it is, whatever any handler does. */
  lemma {:induction false} RecordIsFinal(maxAge: int, moves: seq<Move>, more: seq<Move>, k: nat)
    requires k < |Run(maxAge, moves).handlers|
    ensures k < |Run(maxAge, moves + more).handlers|
    ensures Same(Run(maxAge, moves).handlers[k], Run(maxAge, moves + more).handlers[k])
  {
    if more == [] {
      assert moves + more == moves;
    } else {
      hide *;
      RecordIsFinal(maxAge, moves, more[..|more| - 1], k);
      LastMoveOn(maxAge, moves, more, k, Run(maxAge, moves).handlers[k]);
    }
  }

  /** A turn of handler k takes its step, and if that ends in returning the record stays, whatever comes. */
  lemma TurnDecides(maxAge: int, moves: seq<Move>, k: nat, e: Event, more: seq<Move>)
    requires k < |Run(maxAge, moves).handlers|
    ensures var s, s1 := Run(maxAge, moves), Run(maxAge, moves + [Turn(k, e)]);
            var s' := Run(maxAge, moves + [Turn(k, e)] + more);
            && k < |s1.handlers| && k < |s'.handlers| && Told(s.handlers[k]) && P.Sound(s.ledger)
            && s1.handlers[k] == Advance(s.handlers[k], s.ledger, maxAge, e).0
            && Same(s1.handlers[k], s'.handlers[k])
  {
    OneMoreMove(maxAge, moves, Turn(k, e));
    SoundIs(Run(maxAge, moves), k);
    hide Run, GatewayRuns.Sound, Advance, Told, P.Sound, Same;
    RecordIsFinal(maxAge, moves + [Turn(k, e)], more, k);
  }

  // ---- reading the body ----

  lemma BodyPiece(h: Handler, l: P.Ledger, maxAge: int, body: Body)
    requires Told(h) && P.Sound(l) && h.phase.Reading?
    ensures var h' := Advance(h, l, maxAge, BodyRead(body)).0;
            && h'.phase.Returning? && DecidedBy(h'.record, h.kind, body)
            && h'.record.status == h.record.status && h'.record.decision == h.record.decision
  {
    FinishUnfolds(h, l, maxAge, body);
    EndingDecides(Advance(h, l, maxAge, BodyRead(body)).0.record, h.kind, body);
    hide Advance, Told, P.Sound, Ending, DecidedBy;
  }

  /** How the answer's body was read decides the record, for good. */
  lemma BodyDecides(maxAge: int, moves: seq<Move>, k: nat, body: Body, more: seq<Move>)
    requires k < |Run(maxAge, moves).handlers| && Run(maxAge, moves).handlers[k].phase.Reading?
    ensures var s, s' := Run(maxAge, moves), Run(maxAge, moves + [Turn(k, BodyRead(body))] + more);
            && k < |s'.handlers| && DecidedBy(s'.handlers[k].record, s.handlers[k].kind, body)
            && s'.handlers[k].record.status == s.handlers[k].record.status
            && s'.handlers[k].record.decision == s.handlers[k].record.decision
  {
    hide Run, Advance, Told, P.Sound, DecidedBy;
    TurnDecides(maxAge, moves, k, BodyRead(body), more);
    BodyPiece(Run(maxAge, moves).handlers[k], Run(maxAge, moves).ledger, maxAge, body);
  }

  // ---- the answer ----

  lemma ResponsePiece(h: Handler, l: P.Ledger, maxAge: int, response: Result<int, string>)
    requires Told(h) && P.Sound(l) && h.phase.Waiting?
    ensures var h' := Advance(h, l, maxAge, RoundTripped(response)).0;
            && (h'.phase.Reading? <==> response.Ok? && 200 <= response.value <= 299)
            && (h'.phase.Returning? <==> !h'.phase.Reading?)
            && h'.record == (match response
                 case Err(kind) => Record(h.record.decision, 0, DeliveryUnknown, kind)
                 case Ok(status) =>
                   Record(h.record.decision, status, if h'.phase.Reading? then NotSent else UpstreamRejected, ""))
            && h'.trace == h.trace + (if h'.phase.Reading? && h.hooks.accepted then
                 [Accept(Record(h.record.decision, response.value, Accepted, ""))] else [])
  {
    ResponseUnfolds(h, l, maxAge, response);
    WaitingIsBlank(h);
    hide Advance, Told, P.Sound;
  }

  lemma WaitingIsBlank(h: Handler)
    requires Told(h) && h.phase.Waiting?
    ensures h.record == Record(h.record.decision, 0, NotSent, "") && h.progress.Sent?
  {
  }

  /**
    The answer's status decides whether there is a body to read; otherwise it, or the failure to get one, is recorded
    for good.
  */
  lemma ResponseDecides(maxAge: int, moves: seq<Move>, k: nat, response: Result<int, string>, more: seq<Move>)
    requires k < |Run(maxAge, moves).handlers| && Run(maxAge, moves).handlers[k].phase.Waiting?
    ensures var s, s1 := Run(maxAge, moves), Run(maxAge, moves + [Turn(k, RoundTripped(response))]);
            var s' := Run(maxAge, moves + [Turn(k, RoundTripped(response))] + more);
            && k < |s1.handlers| && k < |s'.handlers|
            && (s1.handlers[k].phase.Reading? <==> response.Ok? && 200 <= response.value <= 299)
            && (response.Ok? ==> s1.handlers[k].record.status == response.value)
            && s1.handlers[k].trace == s.handlers[k].trace +
                 (if s1.handlers[k].phase.Reading? && s.handlers[k].hooks.accepted then
                    [Accept(Record(s.handlers[k].record.decision, response.value, Accepted, ""))] else [])
            && (response.Err? ==>
                  s'.handlers[k].record == Record(s.handlers[k].record.decision, 0, DeliveryUnknown, response.error))
            && (response.Ok? && !(200 <= response.value <= 299) ==>
                  s'.handlers[k].record ==
                  Record(s.handlers[k].record.decision, response.value, UpstreamRejected, ""))
  {
    hide Run, Advance, Told, P.Sound;
    TurnDecides(maxAge, moves, k, RoundTripped(response), more);
    ResponsePiece(Run(maxAge, moves).handlers[k], Run(maxAge, moves).ledger, maxAge, response);
  }

  // ---- before anything is sent ----

  lemma CapacityPiece(h: Handler, l: P.Ledger, maxAge: int, failure: CapacityFailure)
    requires Told(h) && P.Sound(l) && h.phase.Asking?
    ensures var h' := Advance(h, l, maxAge, CapacityAnswered(Err(failure))).0;
            && (h'.phase.Asking? <==> h.asked == 1 && failure.deadline && failure.alive)
            && (h'.phase.Asking? ==> h'.asked == 2)
            && (!h'.phase.Asking? ==>
                  && h'.phase.Returning?
                  && h'.progress ==
                     Starved(Record(None, if h.kind.Voice? then 0 else 503, NotSent, "capacity-" + failure.kind))
                  && h'.trace == h.trace + (if h.kind.Inference? && h.hooks.observe then
                       [Observe(Record(None, 503, NotSent, "capacity-" + failure.kind))] else []))
  {
    assert h.record == Record(None, 0, NotSent, "");
    hide P.Sound;
  }

  /**
    A failed capacity question is asked again if it was the first, ran out of time and the client is still there;
    otherwise the request is recorded as not sent, with the failure's kind, and an inference reports status 503.
  */
  lemma CapacityDecides(maxAge: int, moves: seq<Move>, k: nat, failure: CapacityFailure, more: seq<Move>)
    requires k < |Run(maxAge, moves).handlers| && Run(maxAge, moves).handlers[k].phase.Asking?
    ensures var s, s1 := Run(maxAge, moves), Run(maxAge, moves + [Turn(k, CapacityAnswered(Err(failure)))]);
            var s' := Run(maxAge, moves + [Turn(k, CapacityAnswered(Err(failure)))] + more);
            && k < |s1.handlers| && k < |s'.handlers|
            && (s1.handlers[k].phase.Asking? <==> s.handlers[k].asked == 1 && failure.deadline && failure.alive)
            && (s1.handlers[k].phase.Asking? ==> s1.handlers[k].asked == 2)
            && (!s1.handlers[k].phase.Asking? ==>
                  s'.handlers[k].progress ==
                  Starved(Record(None, if s.handlers[k].kind.Voice? then 0 else 503, NotSent,
                                 "capacity-" + failure.kind)))
            && (s1.handlers[k].phase.Returning? ==>
                  s1.handlers[k].trace == s.handlers[k].trace +
                    (if s.handlers[k].kind.Inference? && s.handlers[k].hooks.observe then
                       [Observe(Record(None, 503, NotSent, "capacity-" + failure.kind))] else []))
  {
    hide Run, Advance, Told, P.Sound;
    TurnDecides(maxAge, moves, k, CapacityAnswered(Err(failure)), more);
    CapacityPiece(Run(maxAge, moves).handlers[k], Run(maxAge, moves).ledger, maxAge, failure);
  }

  lemma LedgerTurns(maxAge: int, moves: seq<Move>, k: nat, e: Event)
    requires k < |Run(maxAge, moves).handlers|
    ensures var s, s1 := Run(maxAge, moves), Run(maxAge, moves + [Turn(k, e)]);
            && k < |s1.handlers| && Told(s.handlers[k]) && P.Sound(s.ledger)
            && s1.ledger == Advance(s.handlers[k], s.ledger, maxAge, e).1
  {
    OneMoreMove(maxAge, moves, Turn(k, e));
    SoundIs(Run(maxAge, moves), k);
    hide Run, GatewayRuns.Sound, Advance, Told, P.Sound;
  }

  lemma CandidatesPiece(h: Handler, l: P.Ledger, maxAge: int, candidates: seq<P.Candidate>)
    requires Told(h) && P.Sound(l) && h.phase.Asking?
    ensures var (h', l') := Advance(h, l, maxAge, CapacityAnswered(Ok(candidates)));
            h'.phase == Reserving(candidates) && l' == l && h'.trace == h.trace
  {
    hide P.Sound, Told;
  }

  /** The candidates a capacity question was answered with are the ones reserved from; nobody is charged yet. */
  lemma CandidatesAreTaken(maxAge: int, moves: seq<Move>, k: nat, candidates: seq<P.Candidate>)
    requires k < |Run(maxAge, moves).handlers| && Run(maxAge, moves).handlers[k].phase.Asking?
    ensures var s, s1 := Run(maxAge, moves), Run(maxAge, moves + [Turn(k, CapacityAnswered(Ok(candidates)))]);
            && k < |s1.handlers| && s1.handlers[k].phase == Reserving(candidates) && s1.ledger == s.ledger
            && s1.handlers[k].trace == s.handlers[k].trace
  {
    var e := CapacityAnswered(Ok(candidates));
    hide Run, Advance, Told, P.Sound, OnCapacity;
    TurnDecides(maxAge, moves, k, e, []);
    LedgerTurns(maxAge, moves, k, e);
    CandidatesPiece(Run(maxAge, moves).handlers[k], Run(maxAge, moves).ledger, maxAge, candidates);
  }

  /** Someone among them can be charged: the names are in order, and one may pay. */
  predicate Chargeable(candidates: seq<P.Candidate>, mode: string, now: int, maxAge: int) {
    SpendRules.Named(candidates) && exists c :: c in candidates && SpendRules.MayPay(c, mode, now, maxAge)
  }

  /** The decision names the payer among the candidates, and the account is counted one response more. */
  ghost predicate Charged(d: P.Decision, before: P.PolicyState, after: P.PolicyState, candidates: seq<P.Candidate>,
                          now: int, maxAge: int)
  {
    && (exists c :: SpendRules.Payer(c, before, candidates, now, maxAge) && c.id == d.accountId)
    && after.inflight == before.inflight[d.accountId := Load(before.inflight, d.accountId) + 1]
  }

  lemma ReservePiece(h: Handler, l: P.Ledger, maxAge: int, now: int)
    requires Told(h) && P.Sound(l) && h.phase.Reserving?
    ensures var (h', l') := Advance(h, l, maxAge, ReserveAt(now));
            if Chargeable(h.phase.candidates, l.policy.mode, now, maxAge) then
              && h'.phase.Crediting? && h'.record.decision.Some?
              && Charged(h'.record.decision.value, l.policy, l'.policy, h.phase.candidates, now, maxAge)
              && h'.trace == h.trace + [Effect.Reserve(h'.record.decision.value),
                                        AskCredentials(h'.record.decision.value.accountId)]
            else h'.phase.Returning? && h'.record == Record(None, 0, NotSent, "") && l' == l && h'.trace == h.trace
  {
    var candidates := h.phase.candidates;
    assert h.record == Record(None, 0, NotSent, "");
    ReserveUnfolds(h, l, maxAge, now);
    SoundIsCounted(l);
    SpendRules.ReservedExactly(l.policy, maxAge, candidates, now);
    hide Advance, Told, P.Sound, P.ReserveStep, SpendRules.Named, SpendRules.MayPay, SpendRules.Payer;
  }

  /**
    A request is charged if and only if someone among the candidates it was given can be: then to the payer, whose
    credentials are asked for; otherwise nobody is, and it is recorded as not sent for good.
  */
  lemma ReservationDecides(maxAge: int, moves: seq<Move>, k: nat, now: int, more: seq<Move>)
    requires k < |Run(maxAge, moves).handlers| && Run(maxAge, moves).handlers[k].phase.Reserving?
    ensures var s, s1 := Run(maxAge, moves), Run(maxAge, moves + [Turn(k, ReserveAt(now))]);
            var s' := Run(maxAge, moves + [Turn(k, ReserveAt(now))] + more);
            var h := s.handlers[k];
            && k < |s1.handlers| && k < |s'.handlers|
            && (if Chargeable(h.phase.candidates, s.ledger.policy.mode, now, maxAge) then
                  var h' := s1.handlers[k];
                  && h'.phase.Crediting? && h'.record.decision.Some?
                  && Charged(h'.record.decision.value, s.ledger.policy, s1.ledger.policy, h.phase.candidates, now,
                             maxAge)
                  && h'.trace == h.trace + [Effect.Reserve(h'.record.decision.value),
                                            AskCredentials(h'.record.decision.value.accountId)]
                else
                  && s1.handlers[k].phase.Returning? && s1.ledger == s.ledger && s1.handlers[k].trace == h.trace
                  && s'.handlers[k].record == Record(None, 0, NotSent, ""))
  {
    hide Run, Advance, Told, P.Sound, Chargeable, Charged;
    TurnDecides(maxAge, moves, k, ReserveAt(now), more);
    LedgerTurns(maxAge, moves, k, ReserveAt(now));
    ReservePiece(Run(maxAge, moves).handlers[k], Run(maxAge, moves).ledger, maxAge, now);
  }

  lemma RequestPiece(h: Handler, l: P.Ledger, maxAge: int, ok: bool)
    requires Told(h) && P.Sound(l) && h.phase.Building?
    ensures var h' := Advance(h, l, maxAge, RequestBuilt(ok)).0;
            && (h'.phase.Waiting? <==> ok) && (h'.phase.Returning? <==> !ok)
            && h'.record == Record(h.record.decision, 0, NotSent, "")
            && h'.trace == h.trace + (if ok then [Dispatch(h.phase.credentials)] else [])
  {
    assert h.record == Record(h.record.decision, 0, NotSent, "");
    RequestUnfolds(h, l, maxAge, ok);
    hide Advance, Told, P.Sound;
  }

  /** A request that could be built goes out with the credentials granted; one that could not is not sent, for good. */
  lemma RequestDecides(maxAge: int, moves: seq<Move>, k: nat, ok: bool, more: seq<Move>)
    requires k < |Run(maxAge, moves).handlers| && Run(maxAge, moves).handlers[k].phase.Building?
    ensures var s, s1 := Run(maxAge, moves), Run(maxAge, moves + [Turn(k, RequestBuilt(ok))]);
            var s' := Run(maxAge, moves + [Turn(k, RequestBuilt(ok))] + more);
            && k < |s1.handlers| && k < |s'.handlers|
            && (s1.handlers[k].phase.Waiting? <==> ok)
            && s1.handlers[k].trace == s.handlers[k].trace +
                 (if ok then [Dispatch(s.handlers[k].phase.credentials)] else [])
            && (!ok ==> s'.handlers[k].record == Record(s.handlers[k].record.decision, 0, NotSent, ""))
  {
    hide Run, Advance, Told, P.Sound;
    TurnDecides(maxAge, moves, k, RequestBuilt(ok), more);
    RequestPiece(Run(maxAge, moves).handlers[k], Run(maxAge, moves).ledger, maxAge, ok);
  }

  lemma CredentialsPiece(h: Handler, l: P.Ledger, maxAge: int, answer: Option<Credentials>)
    requires Told(h) && P.Sound(l) && h.phase.Crediting?
    ensures var h' := Advance(h, l, maxAge, CredentialsAnswered(answer)).0;
            && (h'.phase.Building? <==> answer.Some? && answer.value.bearer != "" && answer.value.accountId != "")
            && (h'.phase.Building? ==> h'.phase.credentials == answer.value)
            && (h'.phase.Returning? <==> !h'.phase.Building?)
            && h'.record == Record(h.record.decision, 0, NotSent, "")
  {
    assert h.record == Record(h.record.decision, 0, NotSent, "");
    CredentialsUnfold(h, l, maxAge, answer);
    hide Advance, Told, P.Sound;
  }

  /** Credentials are used if and only if they were given with a token and an account; else nothing is sent. */
  lemma CredentialsDecide(maxAge: int, moves: seq<Move>, k: nat, answer: Option<Credentials>, more: seq<Move>)
    requires k < |Run(maxAge, moves).handlers| && Run(maxAge, moves).handlers[k].phase.Crediting?
    ensures var s, s1 := Run(maxAge, moves), Run(maxAge, moves + [Turn(k, CredentialsAnswered(answer))]);
            var s' := Run(maxAge, moves + [Turn(k, CredentialsAnswered(answer))] + more);
            && k < |s1.handlers| && k < |s'.handlers|
            && (s1.handlers[k].phase.Building? <==>
                 answer.Some? && answer.value.bearer != "" && answer.value.accountId != "")
            && (s1.handlers[k].phase.Building? ==> s1.handlers[k].phase.credentials == answer.value)
            && (!s1.handlers[k].phase.Building? ==>
                  s'.handlers[k].record == Record(s.handlers[k].record.decision, 0, NotSent, ""))
  {
    hide Run, Advance, Told, P.Sound;
    TurnDecides(maxAge, moves, k, CredentialsAnswered(answer), more);
    CredentialsPiece(Run(maxAge, moves).handlers[k], Run(maxAge, moves).ledger, maxAge, answer);
  }

  /**
    When a handler that held a reservation has ended, the last it did was its deferred actions, the one deferred last
    first: an inference reported and then released, a voice call released and then reported.
  */
  lemma DeferredRunBackwards(maxAge: int, moves: seq<Move>, k: nat)
    requires k < |Run(maxAge, moves).handlers| && Ended(Run(maxAge, moves).handlers[k])
    requires Run(maxAge, moves).handlers[k].held.Some?
    ensures var h, n := Run(maxAge, moves).handlers[k], |Run(maxAge, moves).handlers[k].trace|;
            if !h.hooks.observe then n >= 1 && h.trace[n - 1] == Release(h.held.value)
            else
              && n >= 2
              && h.trace[n - 2..] == (if h.kind.Voice? then [Release(h.held.value), Observe(h.record)]
                                      else [Observe(h.record), Release(h.held.value)])
  {
    SoundIs(Run(maxAge, moves), k);
    hide Run, GatewayRuns.Sound;
    EndedTail(Run(maxAge, moves).handlers[k]);
  }

  lemma EndedTail(h: Handler)
    requires Told(h) && Ended(h) && h.held.Some?
    ensures h.trace == Deeds(h) + (if !h.hooks.observe then [Release(h.held.value)]
                                   else if h.kind.Voice? then [Release(h.held.value), Observe(h.record)]
                                   else [Observe(h.record), Release(h.held.value)])
  {
    hide Deeds, Sensible;
  }
}
