/**
  The life of one charged request: ServeHTTP of internal/spend/gateway.go from its capacity question to its end, and
  createVoiceCall of internal/spend/voice.go from its validated request to its end.

  A handler is cut at its calls to the outside world. `Advance` is one piece of a handler; any number of handlers
  may take their pieces in any order. A handler's `trace` is what it has done that others can see.
*/
module Gateway {
  import opened Common
  import P = SpendPolicy

  datatype Kind = Inference(compact: bool) | Voice

  /** Which of the optional callbacks the gateway has. */
  datatype Hooks = Hooks(observe: bool, accepted: bool)

  datatype Credentials = Credentials(bearer: string, accountId: string)

  datatype Outcome =
    | NotSent | DeliveryUnknown | UpstreamRejected | Accepted
    | Completed | UpstreamFailed | ClientDisconnected | StreamInterrupted
    | InvalidCompaction | InvalidVoice | VoiceCallCreated

  datatype Record = Record(decision: Option<P.Decision>, status: int, outcome: Outcome, failureKind: string)

  const BLANK := Record(None, 0, NotSent, "")

  datatype Effect =
    | AskCapacity
    | Reserve(decision: P.Decision)
    | AskCredentials(account: string)
    | Granted(account: string, credentials: Credentials)
    | Dispatch(credentials: Credentials)
    | Accept(record: Record)
    | Observe(record: Record)
    | Release(index: nat)

  datatype Deferred = ReleaseReservation | ObserveRecord

  datatype Phase =
    | Asking
    | Reserving(candidates: seq<P.Candidate>)
    | Crediting
    | Building(credentials: Credentials)
    | Waiting
    | Reading
    | Returning

  /** How far a handler got. */
  datatype Progress =
    | Nothing
    | Starved(record: Record)
    | Held
    | Cleared(credentials: Credentials)
    | Sent(credentials: Credentials)
    | Taken(credentials: Credentials, record: Record)

  /** held is the reservation's place in the policy's ledger; deferred actions run from the last to the first. */
  datatype Handler = Handler(
    kind: Kind, hooks: Hooks, phase: Phase, asked: nat, progress: Progress, record: Record,
    held: Option<nat>, defers: seq<Deferred>, trace: seq<Effect>)

  // ---- what the world answers ----

  /** A failed capacity read: was it the deadline, is the client still there, and which kind of failure. */
  datatype CapacityFailure = CapacityFailure(deadline: bool, alive: bool, kind: string)

  datatype StreamEnd = Finished | Failed | Disconnected(kind: string) | Interrupted(kind: string)

  datatype Body = Body(valid: bool, written: bool, stream: StreamEnd)

  datatype Event =
    | CapacityAnswered(capacity: Result<seq<P.Candidate>, CapacityFailure>)
    | ReserveAt(now: int)
    | CredentialsAnswered(credentials: Option<Credentials>)
    | RequestBuilt(ok: bool)
    | RoundTripped(response: Result<int, string>)
    | BodyRead(body: Body)
    | Unwind

  /** How reading the body ends the record. */
  function Ending(kind: Kind, body: Body): (Outcome, string) {
    match kind
    case Inference(true) =>
      (if !body.valid then InvalidCompaction else if body.written then Completed else ClientDisconnected, "")
    case Inference(false) => (
      match body.stream
      case Finished => (Completed, "")
      case Failed => (UpstreamFailed, "")
      case Disconnected(kind) => (ClientDisconnected, kind)
      case Interrupted(kind) => (StreamInterrupted, kind))
    case Voice =>
      (if !body.valid then InvalidVoice else if body.written then VoiceCallCreated else ClientDisconnected, "")
  }

  /**
    What reading the body makes of the request: a compaction is completed if the answer was JSON and could be written, a
    stream if its end was, and so on.
  */
  predicate DecidedBy(record: Record, kind: Kind, body: Body) {
    match kind
    case Inference(true) =>
      && (record.outcome == InvalidCompaction <==> !body.valid)
      && (record.outcome == Completed <==> body.valid && body.written)
      && (record.outcome == ClientDisconnected <==> body.valid && !body.written)
      && record.failureKind == ""
    case Inference(false) =>
      && (record.outcome == Completed <==> body.stream.Finished?)
      && (record.outcome == UpstreamFailed <==> body.stream.Failed?)
      && (record.outcome == ClientDisconnected <==> body.stream.Disconnected?)
      && (record.outcome == StreamInterrupted <==> body.stream.Interrupted?)
      && record.failureKind ==
         (if body.stream.Disconnected? || body.stream.Interrupted? then body.stream.kind else "")
    case Voice =>
      && (record.outcome == InvalidVoice <==> !body.valid)
      && (record.outcome == VoiceCallCreated <==> body.valid && body.written)
      && (record.outcome == ClientDisconnected <==> body.valid && !body.written)
      && record.failureKind == ""
  }

  lemma EndingDecides(record: Record, kind: Kind, body: Body)
    requires (record.outcome, record.failureKind) == Ending(kind, body)
    ensures DecidedBy(record, kind, body)
  {
  }

  /**
    A validated request: a voice call observes its record however it ends, an inference once it holds a reservation.
  */
  function Arrived(kind: Kind, hooks: Hooks): Handler {
    Handler(kind, hooks, Asking, 1, Nothing, BLANK, None, if kind.Voice? then [ObserveRecord] else [], [AskCapacity])
  }

  // ---- one piece of a handler ----

  function OnCapacity(h: Handler, capacity: Result<seq<P.Candidate>, CapacityFailure>): Handler {
    match capacity
    case Ok(candidates) => h.(phase := Reserving(candidates))
    case Err(failure) =>
      if failure.deadline && failure.alive && h.asked == 1 then h.(asked := 2, trace := h.trace + [AskCapacity])
      else if h.kind.Voice? then
        var record := h.record.(failureKind := "capacity-" + failure.kind);
        h.(phase := Returning, progress := Starved(record), record := record)
      else
        var record := Record(None, 503, NotSent, "capacity-" + failure.kind);
        h.(phase := Returning, progress := Starved(record),
           trace := if h.hooks.observe then h.trace + [Observe(record)] else h.trace)
  }

  function OnReserve(h: Handler, l: P.Ledger, reserved: Result<(P.Decision, P.PolicyState), P.ReserveError>): Handler {
    match reserved
    case Err(_) => h.(phase := Returning)
    case Ok((decision, _)) =>
      h.(phase := Crediting, progress := Held, held := Some(|l.reservations|),
         record := h.record.(decision := Some(decision)),
         defers := h.defers + (if h.kind.Voice? then [ReleaseReservation] else [ReleaseReservation, ObserveRecord]),
         trace := h.trace + [Reserve(decision), AskCredentials(decision.accountId)])
  }

  function OnResponse(h: Handler, response: Result<int, string>): Handler
    requires h.progress.Sent?
  {
    match response
    case Err(kind) => h.(phase := Returning, record := h.record.(outcome := DeliveryUnknown, failureKind := kind))
    case Ok(status) =>
      var record := h.record.(status := status);
      if status < 200 || status >= 300 then
        h.(phase := Returning, record := record.(outcome := UpstreamRejected))
      else
        var accepted := record.(outcome := Accepted);
        h.(phase := Reading, record := record, progress := Taken(h.progress.credentials, accepted),
           trace := if h.hooks.accepted then h.trace + [Accept(accepted)] else h.trace)
  }

  predicate Usable(c: Option<Credentials>) {
    c.Some? && c.value.bearer != "" && c.value.accountId != ""
  }

  function OnUnwind(h: Handler): Handler
    requires h.defers != [] && (ReleaseReservation in h.defers ==> h.held.Some?)
  {
    var rest := h.defers[..|h.defers| - 1];
    match h.defers[|h.defers| - 1]
    case ReleaseReservation => h.(defers := rest, trace := h.trace + [Release(h.held.value)])
    case ObserveRecord => h.(defers := rest, trace := if h.hooks.observe then h.trace + [Observe(h.record)]
      else h.trace)
  }

  /** The next piece of a handler, and what it does to the policy. An event it is not waiting for changes nothing. */
  function Advance(h: Handler, l: P.Ledger, maxAge: int, e: Event): (Handler, P.Ledger)
    requires Told(h) && P.Sound(l)
  {
    match (h.phase, e)
    case (Asking, CapacityAnswered(capacity)) => (OnCapacity(h, capacity), l)
    case (Reserving(candidates), ReserveAt(now)) =>
      (OnReserve(h, l, P.ReserveStep(l.policy, maxAge, candidates, now)),
        P.Step(l, maxAge, P.Action.Reserve(candidates, now)))
    case (Crediting, CredentialsAnswered(c)) =>
      if Usable(c) && h.record.decision.Some? then
        (h.(phase := Building(c.value), progress := Cleared(c.value),
            trace := h.trace + [Granted(h.record.decision.value.accountId, c.value)]), l)
      else (h.(phase := Returning), l)
    case (Building(c), RequestBuilt(ok)) =>
      if ok then (h.(phase := Waiting, progress := Sent(c), trace := h.trace + [Dispatch(c)]), l)
      else (h.(phase := Returning), l)
    case (Waiting, RoundTripped(response)) => (OnResponse(h, response), l)
    case (Reading, BodyRead(body)) =>
      var (outcome, kind) := Ending(h.kind, body);
      (h.(phase := Returning, record := h.record.(outcome := outcome, failureKind := kind)), l)
    case (Returning, Unwind) =>
      if h.defers == [] then (h, l)
      else if h.defers[|h.defers| - 1] == ReleaseReservation then
        (OnUnwind(h), P.Step(l, maxAge, P.Action.Release(h.held.value)))
      else (OnUnwind(h), l)
    case _ => (h, l)
  }

  predicate Ended(h: Handler) {
    h.phase == Returning && h.defers == []
  }

  // ---- the whole story of a trace ----

  function Pushed(h: Handler): seq<Deferred> {
    if h.kind.Voice? then (if h.held.Some? then [ObserveRecord, ReleaseReservation] else [ObserveRecord])
    else if h.held.Some? then [ReleaseReservation, ObserveRecord]
    else []
  }

  /** What a handler had done when it began to return. */
  function Deeds(h: Handler): seq<Effect> {
    (if h.asked == 2 then [AskCapacity, AskCapacity] else [AskCapacity]) + Acts(h)
  }

  function Acts(h: Handler): seq<Effect> {
    match h.progress
    case Nothing => []
    case Starved(record) => if h.kind.Inference? && h.hooks.observe then [Observe(record)] else []
    case Held => Opening(h.record)
    case Cleared(c) => Opening(h.record) + Grant(h.record, c)
    case Sent(c) => Opening(h.record) + Grant(h.record, c) + [Dispatch(c)]
    case Taken(c, record) =>
      Opening(h.record) + Grant(h.record, c) + [Dispatch(c)] + (if h.hooks.accepted then [Accept(record)] else [])
  }

  function Grant(record: Record, c: Credentials): seq<Effect> {
    match record.decision
    case None => []
    case Some(decision) => [Granted(decision.accountId, c)]
  }

  function Opening(record: Record): seq<Effect> {
    match record.decision
    case None => []
    case Some(decision) => [Reserve(decision), AskCredentials(decision.accountId)]
  }

  /** What its deferred actions have done since. */
  function Undone(h: Handler): seq<Effect> {
    var observed := if ObserveRecord in Pushed(h) && ObserveRecord !in h.defers && h.hooks.observe then
      [Observe(h.record)] else [];
    var released := if h.held.Some? && ReleaseReservation !in h.defers then [Release(h.held.value)] else [];
    if h.kind.Voice? then released + observed else observed + released
  }

  predicate Sensible(h: Handler) {
    && h.held.Some? == h.record.decision.Some? ==
         (h.progress.Held? || h.progress.Cleared? || h.progress.Sent? || h.progress.Taken?)
    && (match h.phase
        case Asking => h.progress.Nothing?
        case Reserving(_) => h.progress.Nothing?
        case Crediting => h.progress.Held?
        case Building(c) => h.progress == Cleared(c)
        case Waiting => h.progress.Sent?
        case Reading => h.progress.Taken?
        case Returning => true)
    && (match h.progress
        case Nothing => h.record == BLANK
        case Starved(record) =>
          && record.outcome == NotSent && record.decision.None?
          && h.record == (if h.kind.Voice? then record else BLANK) && h.phase == Returning
        case Held => h.record.(decision := None) == BLANK
        case Cleared(c) => Usable(Some(c)) && h.record.(decision := None) == BLANK
        case Sent(c) =>
          && Usable(Some(c))
          && (h.phase == Waiting ==> h.record.(decision := None) == BLANK)
          && (h.phase == Returning ==> h.record.outcome in {DeliveryUnknown, UpstreamRejected})
        case Taken(c, record) =>
          && Usable(Some(c))
          && record == Record(h.record.decision, h.record.status, Accepted, "") && 200 <= record.status < 300
          && (h.phase == Returning ==> h.record.outcome !in {NotSent, DeliveryUnknown, UpstreamRejected, Accepted}))
  }

  predicate Told(h: Handler) {
    && 1 <= h.asked <= 2
    && h.defers <= Pushed(h) && (h.phase != Returning ==> h.defers == Pushed(h))
    && h.trace == Deeds(h) + Undone(h)
    && Sensible(h)
  }

  lemma ArrivedIsTold(kind: Kind, hooks: Hooks)
    ensures Told(Arrived(kind, hooks))
  {
  }

  lemma CapacityIsTold(h: Handler, capacity: Result<seq<P.Candidate>, CapacityFailure>)
    requires Told(h) && h.phase == Asking
    ensures Told(OnCapacity(h, capacity))
  {
    var h' := OnCapacity(h, capacity);
    assert Pushed(h') == Pushed(h) && Undone(h) == [] && Undone(h') == [];
  }

  lemma ReservedIsTold(h: Handler, l: P.Ledger, reserved: Result<(P.Decision, P.PolicyState), P.ReserveError>)
    requires Told(h) && h.phase.Reserving?
    ensures Told(OnReserve(h, l, reserved))
  {
    var h' := OnReserve(h, l, reserved);
    assert Undone(h) == [] && Undone(h') == [];
  }

  lemma NothingUndone(h: Handler)
    requires Pushed(h) == h.defers && (h.held.Some? ==> ReleaseReservation in h.defers)
    ensures Undone(h) == []
  {
  }

  lemma AcceptanceIsADeed(h: Handler, h': Handler, c: Credentials, record: Record)
    requires h.progress == Sent(c) && h'.progress == Taken(c, record) && h'.hooks == h.hooks && h'.asked == h.asked
    requires h'.record.decision == h.record.decision
    ensures Deeds(h') == Deeds(h) + (if h.hooks.accepted then [Accept(record)] else [])
  {
  }

  lemma RefusalIsNoDeed(h: Handler, h': Handler)
    requires h.progress.Sent? && h'.progress == h.progress && h'.hooks == h.hooks && h'.asked == h.asked
    requires h'.record.decision == h.record.decision
    ensures Deeds(h') == Deeds(h)
  {
  }

  lemma ResponseIsSensible(h: Handler, response: Result<int, string>)
    requires Sensible(h) && h.phase.Waiting?
    ensures Sensible(OnResponse(h, response)) && h.held.Some?
  {
  }

  lemma ResponseIsTold(h: Handler, response: Result<int, string>)
    requires Told(h) && h.phase.Waiting?
    ensures Told(OnResponse(h, response))
  {
    var h' := OnResponse(h, response);
    ResponseIsSensible(h, response);
    assert Pushed(h') == Pushed(h) == h.defers == h'.defers;
    hide Deeds, Undone, Sensible;
    NothingUndone(h);
    NothingUndone(h');
    if h'.phase.Reading? {
      AcceptanceIsADeed(h, h', h.progress.credentials, h'.progress.record);
    } else {
      RefusalIsNoDeed(h, h');
    }
    hide Pushed;
    assert h.trace == Deeds(h) && h'.trace == Deeds(h');
  }

  lemma DeedsAreDone(h: Handler, h': Handler)
    requires h'.kind == h.kind && h'.hooks == h.hooks && h'.asked == h.asked && h'.progress == h.progress
    requires h'.record == h.record && h'.held == h.held
    ensures Deeds(h') == Deeds(h) && Pushed(h') == Pushed(h)
  {
  }

  lemma DefersShrink(h: Handler)
    requires h.defers <= Pushed(h) && h.defers != []
    ensures var all, n := Pushed(h), |h.defers|;
            && n <= |all| && h.defers[n - 1] == all[n - 1] && h.defers[..n - 1] <= all
            && (n == 1 ==> h.defers == [all[0]]) && (n == 2 ==> h.defers == [all[0], all[1]])
            && (ReleaseReservation in h.defers ==> h.held.Some?)
  {
    hide Deeds, Undone;
    var all, n := Pushed(h), |h.defers|;
    assert h.defers == all[..n];
  }

  lemma UndoneGrows(h: Handler)
    requires h.defers <= Pushed(h) && h.defers != [] && (ReleaseReservation in h.defers ==> h.held.Some?)
    ensures var h' := OnUnwind(h);
            && Pushed(h') == Pushed(h) && Undone(h) <= Undone(h')
            && h'.trace == h.trace + Undone(h')[|Undone(h)|..]
  {
    hide Deeds;
    DefersShrink(h);
    var all, n, h' := Pushed(h), |h.defers|, OnUnwind(h);
    assert n == 2 ==> h'.defers == [all[0]];
    assert n == 1 ==> h'.defers == [];
  }

  lemma UnwoundIsSensible(h: Handler)
    requires Sensible(h) && h.defers != [] && (ReleaseReservation in h.defers ==> h.held.Some?)
    ensures Sensible(OnUnwind(h))
  {
  }

  lemma UnwindIsTold(h: Handler)
    requires Told(h) && h.phase.Returning? && h.defers != []
    ensures Told(OnUnwind(h))
  {
    hide Deeds, Undone, Pushed, Sensible;
    DefersShrink(h);
    UndoneGrows(h);
    var h' := OnUnwind(h);
    DeedsAreDone(h, h');
    UnwoundIsSensible(h);
    assert h'.trace == Deeds(h) + (Undone(h) + Undone(h')[|Undone(h)|..]);
  }

  lemma CreditedIsTold(h: Handler, l: P.Ledger, maxAge: int, e: Event)
    requires Told(h) && P.Sound(l) && h.phase.Crediting?
    ensures Told(Advance(h, l, maxAge, e).0)
  {
    hide P.Sound, P.Step, P.ReserveStep;
    var h' := Advance(h, l, maxAge, e).0;
    assert Pushed(h') == Pushed(h) && Undone(h) == [] && Undone(h') == [];
  }

  lemma BuiltIsTold(h: Handler, l: P.Ledger, maxAge: int, e: Event)
    requires Told(h) && P.Sound(l) && h.phase.Building?
    ensures Told(Advance(h, l, maxAge, e).0)
  {
    hide P.Sound, P.Step, P.ReserveStep;
    var h' := Advance(h, l, maxAge, e).0;
    assert Pushed(h') == Pushed(h) && Undone(h) == [] && Undone(h') == [];
  }

  lemma ReadIsTold(h: Handler, l: P.Ledger, maxAge: int, e: Event)
    requires Told(h) && P.Sound(l) && h.phase.Reading?
    ensures Told(Advance(h, l, maxAge, e).0)
  {
    hide P.Sound, P.Step, P.ReserveStep;
    var h' := Advance(h, l, maxAge, e).0;
    assert Pushed(h') == Pushed(h) && Undone(h) == [] && Undone(h') == [];
  }

  lemma AdvanceKeepsTold(h: Handler, l: P.Ledger, maxAge: int, e: Event)
    requires Told(h) && P.Sound(l)
    ensures Told(Advance(h, l, maxAge, e).0)
  {
    hide P.Step, P.ReserveStep, Told, Deeds, Undone, Pushed, Sensible, OnCapacity, OnReserve, OnResponse, OnUnwind;
    match (h.phase, e)
    case (Asking, CapacityAnswered(capacity)) => CapacityIsTold(h, capacity);
    case (Reserving(candidates), ReserveAt(now)) => ReservedIsTold(h, l,
      P.ReserveStep(l.policy, maxAge, candidates, now));
    case (Waiting, RoundTripped(response)) => ResponseIsTold(h, response);
    case (Returning, Unwind) => if h.defers != [] { UnwindIsTold(h); }
    case (Crediting, _) => CreditedIsTold(h, l, maxAge, e);
    case (Building(_), _) => BuiltIsTold(h, l, maxAge, e);
    case (Reading, _) => ReadIsTold(h, l, maxAge, e);
    case _ =>
  }
}
